/** The alert list (apps/api/src/admin/security-observability.service.ts:132-173). It orders by
    severity first, but its cursor holds only the time and the id. */
module SecurityAlertList {
  import opened Options
  import opened KeysetPaging

  datatype Severity = WARNING | HIGH | CRITICAL

  datatype Alert = Alert(status: string, severity: Severity, ruleKey: string, lastSeenAt: int)

  type Table = map<nat, Alert>

  datatype Query = Query(
    status: Option<string>, severity: Option<Severity>, ruleKey: Option<string>,
    before: Option<int>, beforeId: Option<nat>, limit: Option<nat>)

  const DEFAULT_LIMIT := 50

  function Limit(q: Query): nat { if q.limit.Some? then q.limit.value else DEFAULT_LIMIT }

  predicate Admits<T(==)>(filter: Option<T>, value: T) { filter.None? || filter.value == value }

  predicate Matches(q: Query, a: Alert) {
    Admits(q.status, a.status) && Admits(q.severity, a.severity) && Admits(q.ruleKey, a.ruleKey)
  }

  function Rank(severity: Severity): int {
    match severity case CRITICAL => 3 case HIGH => 2 case WARNING => 1
  }

  function PlaceOf(id: nat, a: Alert): Place { Place(Rank(a.severity), a.lastSeenAt, id) }

  ghost function Places(table: Table, q: Query): set<Place> {
    set id | id in table && Matches(q, table[id]) :: PlaceOf(id, table[id])
  }

  datatype Listing = Listing(items: seq<Place>, nextCursor: Option<Cursor>)

  ghost function List(table: Table, q: Query): Listing {
    var items := Page(Places(table, q), Cursor(q.before, q.beforeId), Limit(q));
    Listing(items, Next(items, Limit(q)))
  }

  /** The next request. */
  function At(q: Query, c: Cursor): Query { q.(before := c.before, beforeId := c.beforeId) }

  /** A reader following the cursors over an unchanging table, at most so many times. */
  ghost function Follow(table: Table, q: Query, requests: nat): seq<Place>
    decreases requests
  {
    if requests == 0 then []
    else
      var answer := List(table, q);
      match answer.nextCursor
      case None => answer.items
      case Some(c) => answer.items + Follow(table, At(q, c), requests - 1)
  }

  lemma PlacesIgnoreCursor(table: Table, q: Query, c: Cursor)
    ensures Places(table, At(q, c)) == Places(table, q)
  {
  }

  lemma {:induction false} FollowTurns(table: Table, q: Query, requests: nat)
    ensures Follow(table, q, requests) == Turns(Places(table, q), Cursor(q.before, q.beforeId), Limit(q), requests)
    decreases requests
  {
    hide Page, Places, InOrder;
    if requests > 0 {
      var next := List(table, q).nextCursor;
      if next.Some? {
        PlacesIgnoreCursor(table, q, next.value);
        FollowTurns(table, At(q, next.value), requests - 1);
      }
    }
  }

  ghost function Expected(table: Table, q: Query): seq<Place> { InOrder(Places(table, q)) }

  /** The reader gets the whole listing in its order, each alert once. */
  ghost predicate Exact(table: Table, q: Query) {
    Follow(table, q, |Places(table, q)| + 1) == Expected(table, q)
  }

  lemma ExactIsWalk(table: Table, q: Query)
    requires q.before.None?
    ensures Exact(table, q)
       <==> Walk(Places(table, q), Cursor(q.before, q.beforeId), Limit(q)) == Expected(table, q)
  {
    assert Rest(Places(table, q), Cursor(q.before, q.beforeId)) == Places(table, q);
    FollowTurns(table, q, |Places(table, q)| + 1);
    TurnsWalk(Places(table, q), Cursor(q.before, q.beforeId), Limit(q), |Places(table, q)| + 1);
  }

  lemma PlacesKeyed(table: Table, q: Query)
    ensures Keyed(Places(table, q))
  {
  }

  /** For one page size: exact if and only if the last alert of every full page separates the
      listing in time, those before it being seen later and those after it earlier. */
  lemma ExactIffPagesSeparate(table: Table, q: Query)
    requires q.before.None? && Limit(q) >= 1
    ensures Exact(table, q) <==> PagesSeparate(Expected(table, q), Limit(q))
  {
    PlacesKeyed(table, q);
    assert Rest(Places(table, q), Cursor(q.before, q.beforeId)) == Places(table, q);
    ExactIff(Places(table, q), Cursor(q.before, q.beforeId), Limit(q));
    ExactIsWalk(table, q);
  }

  predicate MoreSevere(q: Query, a: Alert, b: Alert) {
    Matches(q, a) && Matches(q, b) && Rank(a.severity) > Rank(b.severity)
  }

  /** No more severe alert was last seen before a less severe one. */
  ghost predicate SeverityFollowsTime(table: Table, q: Query) {
    forall a, b :: a in table && b in table && MoreSevere(q, table[a], table[b]) ==>
      Newer(PlaceOf(a, table[a]), PlaceOf(b, table[b]))
  }

  lemma SeverityIsRank(table: Table, q: Query)
    ensures SeverityFollowsTime(table, q) <==> RankFollowsTime(Places(table, q))
  {
    if RankFollowsTime(Places(table, q)) {
      forall a, b | a in table && b in table && MoreSevere(q, table[a], table[b])
        ensures Newer(PlaceOf(a, table[a]), PlaceOf(b, table[b]))
      {
        assert PlaceOf(a, table[a]) in Places(table, q) && PlaceOf(b, table[b]) in Places(table, q);
      }
    }
  }

  ghost predicate ExactForAllLimits(table: Table, q: Query) {
    forall limit: nat :: limit >= 1 ==> Exact(table, q.(limit := Some(limit)))
  }

  lemma LimitFree(table: Table, q: Query, limit: nat)
    requires q.before.None?
    ensures Exact(table, q.(limit := Some(limit))) <==>
            Walk(Places(table, q), START, limit) == InOrder(Places(table, q))
  {
    var r := q.(limit := Some(limit));
    assert Places(table, r) == Places(table, q);
    ExactIsWalk(table, r);
    assert Rest(Places(table, q), START) == Rest(Places(table, q), Cursor(q.before, q.beforeId));
    AnyStart(Places(table, q), q.beforeId, limit);
  }

  /** Without a time the id of the cursor is not looked at. */
  lemma AnyStart(rows: set<Place>, beforeId: Option<nat>, limit: nat)
    ensures Walk(rows, Cursor(None, beforeId), limit) == Walk(rows, START, limit)
  {
    assert Rest(rows, Cursor(None, beforeId)) == Rest(rows, START);
  }

  lemma AllLimits(table: Table, q: Query)
    requires q.before.None?
    ensures ExactForAllLimits(table, q) <==> AlwaysExact(Places(table, q))
  {
    forall limit: nat
      ensures Exact(table, q.(limit := Some(limit))) <==>
            Walk(Places(table, q), START, limit) == InOrder(Places(table, q))
    {
      LimitFree(table, q, limit);
    }
  }

  /** For every page size: exact if and only if severity never contradicts time. */
  lemma ExactIffSeverityFollowsTime(table: Table, q: Query)
    requires q.before.None?
    ensures ExactForAllLimits(table, q) <==> SeverityFollowsTime(table, q)
  {
    PlacesKeyed(table, q);
    SeverityIsRank(table, q);
    ExactForEveryLimit(Places(table, q));
    AllLimits(table, q);
  }

  /** A severity filter makes every page size exact. */
  lemma SeverityFilterIsExact(table: Table, q: Query)
    requires q.before.None? && q.severity.Some?
    ensures ExactForAllLimits(table, q)
  {
    ExactIffSeverityFollowsTime(table, q);
  }

  /** A critical alert last seen before a high one. */
  function Example(): Table { map[1 := Alert("OPEN", CRITICAL, "r", 10), 2 := Alert("OPEN", HIGH, "r", 20)] }

  const FIRST := Place(3, 10, 1)
  const SECOND := Place(2, 20, 2)

  function ExampleQuery(before: Option<int>, beforeId: Option<nat>, limit: nat): Query {
    Query(None, None, None, before, beforeId, Some(limit))
  }

  lemma ExamplePlaces(before: Option<int>, beforeId: Option<nat>, limit: nat)
    ensures Places(Example(), ExampleQuery(before, beforeId, limit)) == {FIRST, SECOND}
  {
    var t, q := Example(), ExampleQuery(before, beforeId, limit);
    assert 1 in t && PlaceOf(1, t[1]) == FIRST && Matches(q, t[1]);
    assert 2 in t && PlaceOf(2, t[2]) == SECOND && Matches(q, t[2]);
  }

  lemma ExampleStart()
    ensures InOrder(Rest({FIRST, SECOND}, START)) == [FIRST, SECOND]
  {
    assert Elements([FIRST, SECOND]) == Rest({FIRST, SECOND}, START);
    IsInOrder(Rest({FIRST, SECOND}, START));
    OrderIsUnique(InOrder(Rest({FIRST, SECOND}, START)), [FIRST, SECOND]);
  }

  lemma ExampleFirst(limit: nat)
    requires 1 <= limit <= 2
    ensures List(Example(), ExampleQuery(None, None, limit))
         == if limit == 1 then Listing([FIRST], Some(Cursor(Some(10), Some(1))))
            else Listing([FIRST, SECOND], Some(Cursor(Some(20), Some(2))))
  {
    ExamplePlaces(None, None, limit);
    ExampleStart();
  }

  /** Reading one alert a page, the critical alert ends the first page: the newer high alert is
      never listed. */
  lemma SkippedAlert(requests: nat)
    ensures SECOND in Places(Example(), ExampleQuery(None, None, 1))
    ensures SECOND !in Follow(Example(), ExampleQuery(None, None, 1), requests)
  {
    ExamplePlaces(None, None, 1);
    ExampleFirst(1);
    var r := ExampleQuery(Some(10), Some(1), 1);
    ExamplePlaces(Some(10), Some(1), 1);
    assert Rest({FIRST, SECOND}, Cursor(Some(10), Some(1))) == {};
    assert List(Example(), r) == Listing([], None);
    assert ExampleQuery(None, None, 1).(before := Some(10), beforeId := Some(1)) == r;
    if requests > 1 { assert Follow(Example(), r, requests - 1) == []; }
  }

  /** Reading two alerts a page, the high alert ends the first page: the older critical alert is
      listed again. */
  lemma RepeatedAlert()
    ensures Follow(Example(), ExampleQuery(None, None, 2), 2) == [FIRST, SECOND, FIRST]
  {
    ExampleFirst(2);
    var r := ExampleQuery(Some(20), Some(2), 2);
    ExamplePlaces(Some(20), Some(2), 2);
    assert Elements([FIRST]) == Rest({FIRST, SECOND}, Cursor(Some(20), Some(2)));
    IsInOrder(Rest({FIRST, SECOND}, Cursor(Some(20), Some(2))));
    OrderIsUnique(InOrder(Rest({FIRST, SECOND}, Cursor(Some(20), Some(2)))), [FIRST]);
    assert List(Example(), r) == Listing([FIRST], None);
    assert ExampleQuery(None, None, 2).(before := Some(20), beforeId := Some(2)) == r;
    assert Follow(Example(), r, 1) == [FIRST];
  }
}
