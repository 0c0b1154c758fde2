/** Pages of a listing read with a (time, id) cursor, as both security lists serve them
    (apps/api/src/admin/security-audit.service.ts:31-56 and
    apps/api/src/admin/security-observability.service.ts:141-172). A row is represented by the
    columns that place it; ids stand for their position in the database's text order. */
module KeysetPaging {
  import opened Options

  /** rank: what the listing orders by before the time. */
  datatype Place = Place(rank: int, time: int, id: nat)

  datatype Cursor = Cursor(before: Option<int>, beforeId: Option<nat>)

  const START := Cursor(None, None)

  predicate Newer(p: Place, q: Place) {
    p.time > q.time || (p.time == q.time && p.id > q.id)
  }

  /** The ORDER BY clause. */
  predicate Ahead(p: Place, q: Place) {
    p.rank > q.rank || (p.rank == q.rank && Newer(p, q))
  }

  /** The cursor part of the WHERE clause. */
  predicate Past(c: Cursor, p: Place) {
    || c.before.None?
    || p.time < c.before.value
    || (p.time == c.before.value && (c.beforeId.None? || p.id < c.beforeId.value))
  }

  ghost function Rest(rows: set<Place>, c: Cursor): set<Place> {
    set p | p in rows && Past(c, p)
  }

  ghost function Elements(l: seq<Place>): set<Place> {
    set p | p in l
  }

  /** Ids are unique. */
  ghost predicate Keyed(rows: set<Place>) {
    forall p, q :: p in rows && q in rows && p.id == q.id ==> p == q
  }

  ghost predicate Ordered(l: seq<Place>) {
    forall i, j :: 0 <= i < j < |l| ==> Ahead(l[i], l[j])
  }

  ghost predicate IsFirst(s: set<Place>, p: Place) {
    p in s && forall q :: q in s && q != p ==> Ahead(p, q)
  }

  lemma {:induction false} HasFirst(s: set<Place>)
    requires s != {}
    ensures exists p :: IsFirst(s, p)
  {
    var a :| a in s;
    if s == {a} {
      assert IsFirst(s, a);
    } else {
      var t := s - {a};
      assert s == {a} + t;
      HasFirst(t);
      var b :| IsFirst(t, b);
      assert forall q :: q in s ==> q == a || q in t;
      assert if Ahead(a, b) then IsFirst(s, a) else IsFirst(s, b);
    }
  }

  ghost function First(s: set<Place>): Place
    requires s != {}
  {
    HasFirst(s);
    var p :| IsFirst(s, p);
    p
  }

  /** The rows in the order of the listing. */
  ghost function InOrder(s: set<Place>): seq<Place> {
    if s == {} then [] else FirstIn(s); [First(s)] + InOrder(s - {First(s)})
  }

  lemma FirstIn(s: set<Place>)
    requires s != {}
    ensures IsFirst(s, First(s))
  {
    HasFirst(s);
  }

  lemma {:induction false} IsInOrder(s: set<Place>)
    ensures Ordered(InOrder(s)) && Elements(InOrder(s)) == s && |InOrder(s)| == |s|
  {
    if s == {} {
      assert InOrder(s) == [] && Elements([]) == {};
    } else {
      FirstIn(s);
      IsInOrder(s - {First(s)});
      Prepend(First(s), InOrder(s - {First(s)}), s);
    }
  }

  lemma Prepend(p: Place, rest: seq<Place>, s: set<Place>)
    requires IsFirst(s, p) && Ordered(rest) && Elements(rest) == s - {p} && |rest| == |s - {p}|
    ensures Ordered([p] + rest) && Elements([p] + rest) == s && |[p] + rest| == |s|
  {
    assert forall i :: 0 <= i < |rest| ==> rest[i] in Elements(rest);
    assert forall q :: q in [p] + rest <==> q == p || q in Elements(rest);
  }

  /** One request: the first rows past the cursor. */
  ghost function Page(rows: set<Place>, c: Cursor, limit: nat): seq<Place> {
    var l := InOrder(Rest(rows, c));
    IsInOrder(Rest(rows, c));
    if limit <= |l| then l[..limit] else l
  }

  function CursorAt(p: Place): Cursor { Cursor(Some(p.time), Some(p.id)) }

  /** nextCursor. */
  function Next(page: seq<Place>, limit: nat): Option<Cursor> {
    if |page| == limit && page != [] then Some(CursorAt(page[|page| - 1])) else None
  }

  lemma RestShrinks(rows: set<Place>, c: Cursor, limit: nat)
    requires Next(Page(rows, c, limit), limit).Some?
    ensures Rest(rows, Next(Page(rows, c, limit), limit).value) < Rest(rows, c)
  {
    var l, d := InOrder(Rest(rows, c)), Next(Page(rows, c, limit), limit).value;
    IsInOrder(Rest(rows, c));
    assert l[limit - 1] in Elements(l);
    assert l[limit - 1] !in Rest(rows, d);
  }

  /** All pages of an unchanging table, following the cursors from c. */
  ghost function Walk(rows: set<Place>, c: Cursor, limit: nat): seq<Place>
    decreases |Rest(rows, c)|
  {
    var page := Page(rows, c, limit);
    match Next(page, limit)
    case None => page
    case Some(d) =>
      RestShrinks(rows, c, limit);
      Smaller(Rest(rows, d), Rest(rows, c));
      page + Walk(rows, d, limit)
  }

  lemma Smaller(a: set<Place>, b: set<Place>)
    requires a < b
    ensures |a| < |b|
  {
    assert |b - a| + |a| == |b|;
  }

  /** The same for a reader who makes only so many requests. */
  ghost function Turns(rows: set<Place>, c: Cursor, limit: nat, requests: nat): seq<Place>
    decreases requests
  {
    if requests == 0 then []
    else
      var page := Page(rows, c, limit);
      match Next(page, limit)
      case None => page
      case Some(d) => page + Turns(rows, d, limit, requests - 1)
  }

  /** With as many requests as rows and one more the reader reaches the end. */
  lemma {:induction false} TurnsWalk(rows: set<Place>, c: Cursor, limit: nat, requests: nat)
    requires requests > |Rest(rows, c)|
    ensures Turns(rows, c, limit, requests) == Walk(rows, c, limit)
    decreases requests
  {
    var next := Next(Page(rows, c, limit), limit);
    if next.Some? {
      RestShrinks(rows, c, limit);
      Smaller(Rest(rows, next.value), Rest(rows, c));
      TurnsWalk(rows, next.value, limit, requests - 1);
    }
  }

  /** The pages when the table may change between requests: tables[n] answers request n. */
  ghost function Collect(tables: seq<set<Place>>, c: Cursor, limit: nat): seq<Place> {
    if tables == [] then []
    else
      var page := Page(tables[0], c, limit);
      match Next(page, limit)
      case None => page
      case Some(d) => page + Collect(tables[1..], d, limit)
  }

  /** Some request was answered without a next cursor. */
  ghost predicate Ended(tables: seq<set<Place>>, c: Cursor, limit: nat) {
    && tables != []
    && match Next(Page(tables[0], c, limit), limit)
       case None => true
       case Some(d) => Ended(tables[1..], d, limit)
  }

  /** Between requests rows are only added, and only above the cursor of the next request. */
  ghost predicate Undisturbed(tables: seq<set<Place>>, c: Cursor, limit: nat) {
    |tables| >= 2 ==>
      match Next(Page(tables[0], c, limit), limit)
      case None => true
      case Some(d) =>
        && tables[0] <= tables[1]
        && (forall p :: p in tables[1] - tables[0] ==> !Past(d, p))
        && Undisturbed(tables[1..], d, limit)
  }

  // ---------------------------------------------------------------- order

  lemma {:induction false} OrderIsUnique(a: seq<Place>, b: seq<Place>)
    requires Ordered(a) && Ordered(b) && Elements(a) == Elements(b)
    ensures a == b
  {
    assert a != [] ==> a[0] in Elements(a);
    assert b != [] ==> b[0] in Elements(b);
    if a != [] {
      SameHead(a, b);
      DropHead(a);
      DropHead(b);
      OrderIsUnique(a[1..], b[1..]);
      assert a == [a[0]] + a[1..] && b == [b[0]] + b[1..];
    }
  }

  lemma SameHead(a: seq<Place>, b: seq<Place>)
    requires a != [] && b != [] && Ordered(a) && Ordered(b) && Elements(a) == Elements(b)
    ensures a[0] == b[0]
  {
    assert a[0] in Elements(b) && b[0] in Elements(a);
  }

  lemma DropHead(a: seq<Place>)
    requires a != [] && Ordered(a)
    ensures Elements(a[1..]) == Elements(a) - {a[0]}
  {
    forall p | p in Elements(a) && p != a[0] ensures p in a[1..] {
      var i :| 0 <= i < |a| && a[i] == p;
      assert a[1..][i - 1] == p;
    }
    assert a[0] !in a[1..];
  }

  lemma SuffixInOrder(l: seq<Place>, k: nat)
    requires Ordered(l) && k <= |l|
    ensures InOrder(Elements(l[k..])) == l[k..]
  {
    IsInOrder(Elements(l[k..]));
    OrderIsUnique(InOrder(Elements(l[k..])), l[k..]);
  }

  // ---------------------------------------------------------------- exactness

  /** The k-th row separates the listing in time as well: what comes before it is newer, what
      follows is older. */
  ghost predicate Separates(l: seq<Place>, k: nat)
    requires 1 <= k <= |l|
  {
    && (forall i :: 0 <= i < k - 1 ==> Newer(l[i], l[k - 1]))
    && (forall i :: k <= i < |l| ==> Newer(l[k - 1], l[i]))
  }

  /** The last row of every full page separates what is left of the listing. */
  ghost predicate PagesSeparate(l: seq<Place>, limit: nat)
    decreases |l|
  {
    1 <= limit <= |l| ==> Separates(l, limit) && PagesSeparate(l[limit..], limit)
  }

  lemma {:induction false} WalkStays(rows: set<Place>, c: Cursor, limit: nat)
    ensures forall p :: p in Walk(rows, c, limit) ==> p in Rest(rows, c)
    decreases |Rest(rows, c)|
  {
    var l, page := InOrder(Rest(rows, c)), Page(rows, c, limit);
    IsInOrder(Rest(rows, c));
    assert forall p :: p in page ==> p in Elements(l);
    if Next(page, limit).Some? {
      RestShrinks(rows, c, limit);
      Smaller(Rest(rows, Next(page, limit).value), Rest(rows, c));
      WalkStays(rows, Next(page, limit).value, limit);
    }
  }

  lemma WalkStarts(rows: set<Place>, c: Cursor, limit: nat)
    requires Rest(rows, c) != {} && limit >= 1
    ensures var w := Walk(rows, c, limit); w != [] && w[0] == InOrder(Rest(rows, c))[0]
  {
  }

  /** A later cursor narrows the rest. */
  lemma RestWithin(rows: set<Place>, c: Cursor, last: Place, p: Place)
    requires last in Rest(rows, c) && p in Rest(rows, CursorAt(last))
    ensures p in Rest(rows, c)
  {
  }

  lemma RestAfter(rows: set<Place>, c: Cursor, limit: nat, l: seq<Place>)
    requires Ordered(l) && Elements(l) == Rest(rows, c) && 1 <= limit <= |l| && Separates(l, limit)
    ensures Rest(rows, CursorAt(l[limit - 1])) == Elements(l[limit..])
  {
    var last := l[limit - 1];
    assert last in Elements(l);
    forall p | p in Rest(rows, CursorAt(last)) ensures p in Elements(l[limit..]) {
      RestWithin(rows, c, last, p);
      Later(l, limit, p);
    }
    forall p | p in Elements(l[limit..]) ensures p in Rest(rows, CursorAt(last)) {
      var i :| 0 <= i < |l[limit..]| && l[limit..][i] == p;
      assert l[limit + i] == p;
      assert p in Elements(l);
    }
  }

  lemma Later(l: seq<Place>, k: nat, p: Place)
    requires p in Elements(l) && 1 <= k <= |l| && Separates(l, k) && Newer(l[k - 1], p)
    ensures p in Elements(l[k..])
  {
    var i :| 0 <= i < |l| && l[i] == p;
    assert i >= k;
    assert l[k..][i - k] == p;
  }

  /** When the first page does not separate, the rest of the walk is not the rest of the list. */
  lemma UnseparatedPage(rows: set<Place>, c: Cursor, limit: nat)
    requires Keyed(rows)
    requires var l := InOrder(Rest(rows, c)); 1 <= limit <= |l| && !Separates(l, limit)
    ensures var l := InOrder(Rest(rows, c));
            Walk(rows, CursorAt(l[limit - 1]), limit) != l[limit..]
  {
    hide Walk, Keyed;
    var l := InOrder(Rest(rows, c));
    IsInOrder(Rest(rows, c));
    var d := CursorAt(l[limit - 1]);
    WalkStays(rows, d, limit);
    if i :| limit <= i < |l| && !Newer(l[limit - 1], l[i]) {
      assert l[i] !in Rest(rows, d);
      assert l[limit..][i - limit] == l[i];
    } else {
      var i :| 0 <= i < limit - 1 && !Newer(l[i], l[limit - 1]);
      Repeats(rows, c, limit, i);
    }
  }

  lemma Repeats(rows: set<Place>, c: Cursor, limit: nat, i: nat)
    requires Keyed(rows)
    requires var l := InOrder(Rest(rows, c)); i < limit - 1 < |l| && !Newer(l[i], l[limit - 1])
    ensures var l := InOrder(Rest(rows, c));
            Walk(rows, CursorAt(l[limit - 1]), limit) != l[limit..]
  {
    hide Walk, Page, InOrder;
    var l := InOrder(Rest(rows, c));
    IsInOrder(Rest(rows, c));
    var d := CursorAt(l[limit - 1]);
    assert Ahead(l[i], l[limit - 1]);
    assert l[i] in Elements(l) && l[limit - 1] in Elements(l);
    assert l[i] in Rest(rows, d);
    WalkStarts(rows, d, limit);
    var m := InOrder(Rest(rows, d));
    IsInOrder(Rest(rows, d));
    assert l[i] in Elements(m);
    var j :| 0 <= j < |m| && m[j] == l[i];
    assert m[0] == l[i] || Ahead(m[0], l[i]);
    if limit < |l| {
      assert Ahead(l[i], l[limit]);
      assert l[limit..][0] == l[limit];
    }
  }

  /** Following the cursors over an unchanging table returns the whole listing in its order,
      every row once, exactly when the last row of every full page separates it in time. */
  lemma {:induction false} ExactIff(rows: set<Place>, c: Cursor, limit: nat)
    requires Keyed(rows) && limit >= 1
    ensures Walk(rows, c, limit) == InOrder(Rest(rows, c)) <==> PagesSeparate(InOrder(Rest(rows, c)), limit)
    decreases |Rest(rows, c)|
  {
    var l := InOrder(Rest(rows, c));
    IsInOrder(Rest(rows, c));
    if limit <= |l| {
      var d := CursorAt(l[limit - 1]);
      assert Next(Page(rows, c, limit), limit) == Some(d);
      RestShrinks(rows, c, limit);
      Smaller(Rest(rows, d), Rest(rows, c));
      assert l == l[..limit] + l[limit..];
      assert Walk(rows, c, limit) == l[..limit] + Walk(rows, d, limit);
      SameTail(l[..limit], Walk(rows, d, limit), l[limit..]);
      if Separates(l, limit) {
        RestAfter(rows, c, limit, l);
        SuffixInOrder(l, limit);
        ExactIff(rows, d, limit);
      } else {
        UnseparatedPage(rows, c, limit);
      }
    }
  }

  lemma SameTail(a: seq<Place>, b: seq<Place>, c: seq<Place>)
    ensures a + b == a + c <==> b == c
  {
    assert (a + b)[|a|..] == b && (a + c)[|a|..] == c;
  }

  // ---------------------------------------------------------------- every page size

  /** A row of a higher rank is always the newer one. */
  ghost predicate RankFollowsTime(rows: set<Place>) {
    forall p, q :: p in rows && q in rows && p.rank > q.rank ==> Newer(p, q)
  }

  lemma {:induction false} TimeOrderSeparates(l: seq<Place>, limit: nat)
    requires limit >= 1 && forall i, j :: 0 <= i < j < |l| ==> Newer(l[i], l[j])
    ensures PagesSeparate(l, limit)
    decreases |l|
  {
    if limit <= |l| { TimeOrderSeparates(l[limit..], limit); }
  }

  lemma {:induction false} SingleRowsSeparate(l: seq<Place>, i: nat, j: nat)
    requires i < j < |l|
    ensures PagesSeparate(l, 1) ==> Newer(l[i], l[j])
  {
    if i > 0 { SingleRowsSeparate(l[1..], i - 1, j - 1); }
  }

  /** For every page size, following the cursors returns the listing. */
  ghost predicate AlwaysExact(rows: set<Place>) {
    forall limit: nat :: limit >= 1 ==> Walk(rows, START, limit) == InOrder(rows)
  }

  lemma InTimeOrder(rows: set<Place>, limit: nat)
    requires RankFollowsTime(rows) && limit >= 1
    ensures PagesSeparate(InOrder(rows), limit)
  {
    var l := InOrder(rows);
    IsInOrder(rows);
    assert forall i :: 0 <= i < |l| ==> l[i] in Elements(l);
    TimeOrderSeparates(l, limit);
  }

  lemma OutOfTimeOrder(rows: set<Place>, p: Place, q: Place)
    requires p in rows && q in rows && p.rank > q.rank && !Newer(p, q)
    ensures !PagesSeparate(InOrder(rows), 1)
  {
    var l := InOrder(rows);
    IsInOrder(rows);
    assert p in Elements(l) && q in Elements(l);
    var i :| 0 <= i < |l| && l[i] == p;
    var j :| 0 <= j < |l| && l[j] == q;
    SingleRowsSeparate(l, i, j);
  }

  /** The listing is returned exactly for every page size if and only if ordering by rank first
      never contradicts ordering by time. */
  lemma ExactForEveryLimit(rows: set<Place>)
    requires Keyed(rows)
    ensures AlwaysExact(rows) <==> RankFollowsTime(rows)
  {
    assert Rest(rows, START) == rows;
    if RankFollowsTime(rows) {
      forall limit: nat | limit >= 1 ensures Walk(rows, START, limit) == InOrder(rows) {
        InTimeOrder(rows, limit);
        ExactIff(rows, START, limit);
      }
    } else {
      var p, q :| p in rows && q in rows && p.rank > q.rank && !Newer(p, q);
      OutOfTimeOrder(rows, p, q);
      ExactIff(rows, START, 1);
    }
  }

  // ---------------------------------------------------------------- insertions

  /** Only the rows past the cursor matter. */
  lemma {:induction false} WalkReadsRest(rows: set<Place>, others: set<Place>, c: Cursor, limit: nat)
    requires Rest(rows, c) == Rest(others, c)
    ensures Walk(rows, c, limit) == Walk(others, c, limit)
    decreases |Rest(rows, c)|
  {
    var page := Page(rows, c, limit);
    if Next(page, limit).Some? {
      var d := Next(page, limit).value;
      RestShrinks(rows, c, limit);
      RestShrinks(others, c, limit);
      Smaller(Rest(rows, d), Rest(rows, c));
      assert Rest(rows, d) == Rest(Rest(rows, c), d) == Rest(Rest(others, c), d) == Rest(others, d);
      WalkReadsRest(rows, others, d, limit);
    }
  }

  /** A table all of one rank: each full page takes its rows and no others off the rest. */
  lemma PageTakes(rows: set<Place>, c: Cursor, limit: nat)
    requires forall p, q :: p in rows && q in rows ==> p.rank == q.rank
    requires Next(Page(rows, c, limit), limit).Some?
    ensures |Rest(rows, Next(Page(rows, c, limit), limit).value)| == |Rest(rows, c)| - limit
  {
    var l := InOrder(Rest(rows, c));
    IsInOrder(Rest(rows, c));
    assert forall i :: 0 <= i < |l| ==> l[i] in Elements(l);
    RestAfter(rows, c, limit, l);
    SuffixInOrder(l, limit);
    IsInOrder(Elements(l[limit..]));
  }

  lemma OneLess(n: int, limit: int)
    ensures (n - 1) * limit == n * limit - limit
  {
  }

  /** Rows added above the cursor change nothing: the pages are those of the first table, and one
      request per full page and one more suffice. */
  lemma {:induction false} InsertionsUnseen(tables: seq<set<Place>>, c: Cursor, limit: nat, rank: int)
    requires limit >= 1 && tables != [] && Undisturbed(tables, c, limit)
    requires forall n, p :: 0 <= n < |tables| && p in tables[n] ==> p.rank == rank
    requires |Rest(tables[0], c)| < |tables| * limit
    ensures Collect(tables, c, limit) == Walk(tables[0], c, limit) && Ended(tables, c, limit)
  {
    var page := Page(tables[0], c, limit);
    if Next(page, limit).Some? {
      var d := Next(page, limit).value;
      PageTakes(tables[0], c, limit);
      OneLess(|tables|, limit);
      assert |tables| >= 2;
      assert Rest(tables[1], d) == Rest(tables[0], d);
      assert tables[1..][0] == tables[1];
      forall n, p | 0 <= n < |tables[1..]| && p in tables[1..][n] ensures p.rank == rank {
        assert tables[1..][n] == tables[n + 1];
      }
      InsertionsUnseen(tables[1..], d, limit, rank);
      WalkReadsRest(tables[0], tables[1], d, limit);
    }
  }
}
