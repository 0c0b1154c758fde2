/** The audit list (apps/api/src/admin/security-audit.service.ts:21-58). */
module SecurityAuditList {
  import opened Options
  import opened KeysetPaging

  datatype AuditEvent = AuditEvent(
    action: string, severity: string, resourceType: string, resourceId: string, createdAt: int)

  type Table = map<nat, AuditEvent>

  datatype Query = Query(
    action: Option<string>, severity: Option<string>, resourceType: Option<string>, resourceId: Option<string>,
    before: Option<int>, beforeId: Option<nat>, limit: Option<nat>)

  const DEFAULT_LIMIT := 50

  function Limit(q: Query): nat { if q.limit.Some? then q.limit.value else DEFAULT_LIMIT }

  predicate Admits(filter: Option<string>, value: string) { filter.None? || filter.value == value }

  predicate Matches(q: Query, e: AuditEvent) {
    && Admits(q.action, e.action)
    && Admits(q.severity, e.severity)
    && Admits(q.resourceType, e.resourceType)
    && Admits(q.resourceId, e.resourceId)
  }

  ghost function Places(table: Table, q: Query): set<Place> {
    set id | id in table && Matches(q, table[id]) :: Place(0, table[id].createdAt, id)
  }

  datatype Listing = Listing(items: seq<Place>, nextCursor: Option<Cursor>)

  ghost function List(table: Table, q: Query): Listing {
    var items := Page(Places(table, q), Cursor(q.before, q.beforeId), Limit(q));
    Listing(items, Next(items, Limit(q)))
  }

  /** The listing a reader expects: the matching events, newest first and ids breaking ties,
      each once. */
  ghost predicate IsListing(table: Table, q: Query, items: seq<Place>) {
    && (forall i :: 0 <= i < |items| ==>
          && items[i].id in table && Matches(q, table[items[i].id]) && items[i].time == table[items[i].id].createdAt)
    && (forall i, j :: 0 <= i < j < |items| ==>
          || items[i].time > items[j].time
          || (items[i].time == items[j].time && items[i].id > items[j].id))
    && (forall id :: id in table && Matches(q, table[id]) ==> exists i :: 0 <= i < |items| && items[i].id == id)
  }

  /** A reader following the cursors: tables[n] is what request n finds. */
  ghost function Follow(tables: seq<Table>, q: Query): seq<Place> {
    if tables == [] then []
    else
      var answer := List(tables[0], q);
      match answer.nextCursor
      case None => answer.items
      case Some(c) => answer.items + Follow(tables[1..], q.(before := c.before, beforeId := c.beforeId))
  }

  ghost predicate Finishes(tables: seq<Table>, q: Query) {
    && tables != []
    && match List(tables[0], q).nextCursor
       case None => true
       case Some(c) => Finishes(tables[1..], q.(before := c.before, beforeId := c.beforeId))
  }

  /** Between requests events are only added; a matching one is not older than the cursor. */
  ghost predicate Grows(tables: seq<Table>, q: Query) {
    |tables| >= 2 ==>
      match List(tables[0], q).nextCursor
      case None => true
      case Some(c) =>
        && (forall id :: id in tables[0] ==> id in tables[1] && tables[1][id] == tables[0][id])
        && (forall id :: id in tables[1] && id !in tables[0] && Matches(q, tables[1][id]) ==>
              !Past(c, Place(0, tables[1][id].createdAt, id)))
        && Grows(tables[1..], q.(before := c.before, beforeId := c.beforeId))
  }

  ghost function PlacesOf(tables: seq<Table>, q: Query): seq<set<Place>> {
    seq(|tables|, n requires 0 <= n < |tables| => Places(tables[n], q))
  }

  lemma SamePlaces(table: Table, q: Query, c: Cursor)
    ensures Places(table, q.(before := c.before, beforeId := c.beforeId)) == Places(table, q)
  {
  }

  lemma PlacesOfRest(tables: seq<Table>, q: Query, c: Cursor)
    requires tables != []
    ensures PlacesOf(tables[1..], q.(before := c.before, beforeId := c.beforeId)) == PlacesOf(tables, q)[1..]
  {
    forall n | 0 <= n < |tables| - 1
      ensures PlacesOf(tables[1..], q.(before := c.before, beforeId := c.beforeId))[n] == PlacesOf(tables, q)[1..][n]
    {
      SamePlaces(tables[n + 1], q, c);
    }
  }

  lemma {:induction false} FollowCollects(tables: seq<Table>, q: Query)
    ensures var c := Cursor(q.before, q.beforeId);
            && Follow(tables, q) == Collect(PlacesOf(tables, q), c, Limit(q))
            && (Finishes(tables, q) <==> Ended(PlacesOf(tables, q), c, Limit(q)))
  {
    if tables != [] {
      assert PlacesOf(tables, q)[0] == Places(tables[0], q);
      var next := List(tables[0], q).nextCursor;
      if next.Some? {
        var c := next.value;
        PlacesOfRest(tables, q, c);
        FollowCollects(tables[1..], q.(before := c.before, beforeId := c.beforeId));
      }
    }
  }

  lemma GrowsOnce(was: Table, later: Table, q: Query, c: Cursor)
    requires forall id :: id in was ==> id in later && later[id] == was[id]
    requires forall id :: id in later && id !in was && Matches(q, later[id]) ==>
               !Past(c, Place(0, later[id].createdAt, id))
    ensures Places(was, q) <= Places(later, q)
    ensures forall p :: p in Places(later, q) - Places(was, q) ==> !Past(c, p)
  {
  }

  lemma {:induction false} GrowsIsUndisturbed(tables: seq<Table>, q: Query)
    requires Grows(tables, q)
    ensures Undisturbed(PlacesOf(tables, q), Cursor(q.before, q.beforeId), Limit(q))
  {
    if |tables| >= 2 {
      assert PlacesOf(tables, q)[0] == Places(tables[0], q) && PlacesOf(tables, q)[1] == Places(tables[1], q);
      var next := List(tables[0], q).nextCursor;
      if next.Some? {
        var c := next.value;
        GrowsOnce(tables[0], tables[1], q, c);
        PlacesOfRest(tables, q, c);
        GrowsIsUndisturbed(tables[1..], q.(before := c.before, beforeId := c.beforeId));
      }
    }
  }

  lemma ListingIsInOrder(table: Table, q: Query)
    ensures IsListing(table, q, InOrder(Places(table, q)))
  {
    var l := InOrder(Places(table, q));
    IsInOrder(Places(table, q));
    assert forall i :: 0 <= i < |l| ==> l[i] in Elements(l);
    forall id | id in table && Matches(q, table[id]) ensures exists i :: 0 <= i < |l| && l[i].id == id {
      var p := Place(0, table[id].createdAt, id);
      assert p in Elements(l);
      var i :| 0 <= i < |l| && l[i] == p;
      assert l[i].id == id;
    }
  }

  /** Following the cursors from the start ends, and returns exactly the events that matched at
      the first request, newest first, each once, whatever newer events arrive meanwhile. */
  lemma {:induction false} PagesComplete(tables: seq<Table>, q: Query)
    requires q.before.None? && Limit(q) >= 1
    requires Grows(tables, q) && tables != [] && |Places(tables[0], q)| < |tables| * Limit(q)
    ensures Finishes(tables, q) && IsListing(tables[0], q, Follow(tables, q))
  {
    var c, places := Cursor(q.before, q.beforeId), PlacesOf(tables, q);
    assert places[0] == Places(tables[0], q);
    FollowCollects(tables, q);
    GrowsIsUndisturbed(tables, q);
    assert Rest(places[0], c) == places[0];
    InsertionsUnseen(places, c, Limit(q), 0);
    InRankOrder(places[0], c, Limit(q));
    ListingIsInOrder(tables[0], q);
  }

  lemma InRankOrder(rows: set<Place>, c: Cursor, limit: nat)
    requires Keyed(rows) && limit >= 1 && forall p :: p in rows ==> p.rank == 0
    ensures Walk(rows, c, limit) == InOrder(Rest(rows, c))
  {
    InTimeOrder(Rest(rows, c), limit);
    ExactIff(rows, c, limit);
  }
}
