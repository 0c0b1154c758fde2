/** Over every run of the pending order marker: what was begun is what is read, sent and
    ordered, and nothing but its own confirmation settles it. */
module NewOrderPendingLaws {
  import opened Options
  import opened OrderSubmission
  import opened NewOrderPending

  const NO_FAULTS := Faults(false, false, false, false, false, false)

  // ---------------------------------------------------------------- round trip

  /** A request as beginPendingCreate makes it. */
  ghost predicate WellBegun(p: Pending) {
    && p.ownerId != ""
    && IsUuid(p.requestId)
    && p.keyed == p.submitted.Some?
    && (p.submitted.Some? ==> IsSubmission(p.submitted.value))
  }

  lemma MarkerFields(p: Pending)
    ensures var v := Kept(MarkerOf(p));
            && Field(v, SCHEMA_VERSION) == Number(2.0)
            && Field(v, OWNER_ID) == Text(p.ownerId)
            && Field(v, REQUEST_ID) == Text(p.requestId)
            && Field(v, PROTOCOL) == Text(if p.keyed then "SERVER_KEYED" else "LOCAL_ONLY")
            && (p.submitted.Some? ==> Field(v, SUBMITTED) == Kept(ToValue(p.submitted.value)))
  {
    hide Kept, ToValue;
    var m := MarkerOf(p);
    KeptPlain(m, SCHEMA_VERSION, Number(2.0));
    KeptPlain(m, OWNER_ID, Text(p.ownerId));
    KeptPlain(m, REQUEST_ID, Text(p.requestId));
    KeptPlain(m, PROTOCOL, Text(if p.keyed then "SERVER_KEYED" else "LOCAL_ONLY"));
    KeptField(m, SUBMITTED);
  }

  lemma NotKeyed()
    ensures "LOCAL_ONLY" != "SERVER_KEYED"
  {
    assert "LOCAL_ONLY"[0] != "SERVER_KEYED"[0];
  }

  /** A stored marker reads back as the request it was written for, with its submission. */
  lemma {:induction false} MarkerReadsBack(p: Pending, owner: string)
    requires WellBegun(p) && p.persistent
    ensures Recognised(Kept(MarkerOf(p)), owner) == if owner == p.ownerId then Some(p) else None
  {
    hide Kept, ToValue, MarkerOf, Submitted;
    assert |p.requestId| == 36;
    MarkerFields(p);
    NotKeyed();
    if p.submitted.Some? { SubmissionSurvives(p.submitted.value); }
  }

  lemma BegunIsWell(b: Browser, owner: string, value: Option<Value>, id: string, f: Faults)
    requires IsUuid(id)
    ensures var p := AfterBegin(b, owner, value, id, f).1;
            p.Some? ==> WellBegun(p.value) && p.value.requestId == id && p.value.ownerId == owner
  {
    if value.Some? { SubmissionIsStable(value.value); }
  }

  /** A request just begun and stored reads back as itself, never as damaged, and is recoverable
      if it was begun with a submission. Kept in memory only, it reads back as long as no marker
      that storage could not give at the beginning turns up. */
  lemma {:induction false} BegunReadsBack(b: Browser, owner: string, value: Option<Value>, id: string, f: Faults,
                                          g: Faults)
    requires IsUuid(id)
    ensures var (b1, p) := AfterBegin(b, owner, value, id, f);
            p.Some? ==>
              && (CanRecover(p.value) <==> value.Some?)
              && (p.value.persistent && !g.missing && !g.getMarker ==> AfterRead(b1, owner, g) == (b1, p))
              && (!p.value.persistent && (g.missing || g.getMarker || b1.marker.None?) ==>
                     AfterRead(b1, owner, g).1 == p)
  {
    var (b1, p) := AfterBegin(b, owner, value, id, f);
    BegunIsWell(b, owner, value, id, f);
    if p.Some? && p.value.persistent { MarkerReadsBack(p.value, owner); }
  }

  // ---------------------------------------------------------------- runs

  datatype Event =
    | Begin(owner: string, value: Option<Value>, id: string, f: Faults)
    | Read(owner: string, f: Faults)
    | Resolve(p: Pending, orderId: string, f: Faults)
    | Clear(f: Faults)
    | EditDraft(draft: Option<Stored>)
    | Send(p: Pending)
    | Commit(post: Post)
    | Reload

  /** held: the requests some component of the tab may have in hand. posts: everything sent, any
      of which the server may still receive, late or twice. orders: the server's. */
  datatype World = World(
    browser: Browser, held: set<Pending>, begun: map<string, Pending>, posts: set<Post>, orders: seq<Post>)

  function Start(draft: Option<Stored>): World {
    World(Browser(None, draft, None), {}, map[], {}, [])
  }

  predicate Ordered(orders: seq<Post>, post: Post) {
    exists i ::
      0 <= i < |orders| && orders[i].ownerId == post.ownerId && orders[i].clientRequestId == post.clientRequestId
  }

  function Held(w: World, p: Option<Pending>): set<Pending> {
    if p.Some? then w.held + {p.value} else w.held
  }

  /** Random identifiers are UUIDs and do not repeat; components act on requests they hold; the
      server answers a key it knows with the order it has. */
  function Step(w: World, e: Event): World {
    match e
    case Begin(owner, value, id, f) =>
      if !IsUuid(id) || id in w.begun then w
      else
        var (b, p) := AfterBegin(w.browser, owner, value, id, f);
        w.(browser := b, held := Held(w, p), begun := if p.Some? then w.begun[id := p.value] else w.begun)
    case Read(owner, f) =>
      var (b, p) := AfterRead(w.browser, owner, f);
      w.(browser := b, held := Held(w, p))
    case Resolve(p, orderId, f) => if p in w.held then w.(browser := AfterResolve(w.browser, p, orderId, f).0) else w
    case Clear(f) => w.(browser := AfterClear(w.browser, f))
    case EditDraft(draft) => w.(browser := w.browser.(draft := draft))
    case Send(p) => if p in w.held && CanRecover(p) then w.(posts := w.posts + {PostOf(p)}) else w
    case Commit(post) => if post in w.posts && !Ordered(w.orders, post) then w.(orders := w.orders + [post]) else w
    case Reload => w.(browser := w.browser.(memory := None), held := {})
  }

  function RunFrom(w: World, events: seq<Event>): World {
    if events == [] then w else Step(RunFrom(w, events[..|events| - 1]), events[|events| - 1])
  }

  function Run(draft: Option<Stored>, events: seq<Event>): World { RunFrom(Start(draft), events) }

  // ---------------------------------------------------------------- one payload, one order

  ghost predicate Begun(begun: map<string, Pending>, p: Pending) {
    p.requestId in begun && begun[p.requestId] == p
  }

  ghost predicate Consistent(w: World) {
    && (forall id :: id in w.begun ==> WellBegun(w.begun[id]) && w.begun[id].requestId == id)
    && (forall p :: p in w.held ==> Begun(w.begun, p))
    && (w.browser.memory.Some? ==> Begun(w.begun, w.browser.memory.value))
  }

  /** The marker is that of a request begun here. */
  ghost predicate MarkerBegun(w: World) {
    w.browser.marker.Some? ==>
      exists id :: id in w.begun && w.begun[id].persistent && w.browser.marker == Some(Written(w.begun[id]))
  }

  ghost predicate FromBegun(w: World, post: Post) {
    && post.clientRequestId in w.begun
    && CanRecover(w.begun[post.clientRequestId])
    && post == PostOf(w.begun[post.clientRequestId])
  }

  ghost predicate Traffic(w: World) {
    && (forall post :: post in w.posts ==> FromBegun(w, post))
    && (forall i :: 0 <= i < |w.orders| ==> FromBegun(w, w.orders[i]))
    && (forall i, j :: 0 <= i < j < |w.orders| ==> w.orders[i].clientRequestId != w.orders[j].clientRequestId)
  }

  /** What the requests, the marker and the traffic promise together. */
  ghost predicate Lawful(w: World) { Consistent(w) && MarkerBegun(w) && Traffic(w) }

  lemma ReadSources(b: Browser, owner: string, f: Faults)
    ensures var (b1, p) := AfterRead(b, owner, f);
            && (p.Some? ==> p == b.memory || p == StoredPending(b, owner))
            && (b1.marker.None? || b1.marker == b.marker)
            && (b1.memory.None? || b1.memory == b.memory)
  {
  }

  lemma StoredIsBegun(w: World, owner: string)
    requires Consistent(w) && MarkerBegun(w)
    ensures StoredPending(w.browser, owner).Some? ==> Begun(w.begun, StoredPending(w.browser, owner).value)
  {
    if w.browser.marker.Some? {
      var id :| id in w.begun && w.begun[id].persistent && w.browser.marker == Some(Written(w.begun[id]));
      MarkerReadsBack(w.begun[id], owner);
    }
  }

  /** What a beginning may do to the browser. */
  ghost predicate BeginEffect(b: Browser, b1: Browser, p: Option<Pending>) {
    && (b1.marker.None? || b1.marker == b.marker ||
        (p.Some? && p.value.persistent && b1.marker == Some(Written(p.value))))
    && (b1.memory.None? || b1.memory == b.memory || b1.memory == p)
  }

  lemma BeginHasEffect(b: Browser, owner: string, value: Option<Value>, id: string, f: Faults)
    ensures var (b1, p) := AfterBegin(b, owner, value, id, f); BeginEffect(b, b1, p)
  {
  }

  lemma BeginConsistent(w: World, b1: Browser, p: Option<Pending>, id: string)
    requires Lawful(w) && id !in w.begun && BeginEffect(w.browser, b1, p)
    requires p.Some? ==> WellBegun(p.value) && p.value.requestId == id
    ensures Lawful(w.(browser := b1, held := Held(w, p),
                      begun := if p.Some? then w.begun[id := p.value] else w.begun))
  {
    hide WellBegun, Written, Traffic;
    var t := w.(browser := b1, held := Held(w, p), begun := if p.Some? then w.begun[id := p.value] else w.begun);
    assert Grown(w, t);
    TrafficKept(w, t);
    if b1.marker == w.browser.marker && b1.marker.Some? {
      var k :| k in w.begun && w.begun[k].persistent && w.browser.marker == Some(Written(w.begun[k]));
      assert t.begun[k] == w.begun[k];
    } else if b1.marker.Some? {
      assert t.begun[id] == p.value;
    }
  }

  /** No request begun is forgotten or changed. */
  ghost predicate Grown(w: World, t: World) {
    forall k :: k in w.begun ==> k in t.begun && t.begun[k] == w.begun[k]
  }

  lemma TrafficKept(w: World, t: World)
    requires Traffic(w) && Grown(w, t) && t.posts == w.posts && t.orders == w.orders
    ensures Traffic(t)
  {
    hide CanRecover, PostOf;
    assert forall post :: FromBegun(w, post) ==> FromBegun(t, post);
  }

  lemma SendConsistent(w: World, p: Pending)
    requires Lawful(w) && p in w.held && CanRecover(p)
    ensures Lawful(w.(posts := w.posts + {PostOf(p)}))
  {
    hide CanRecover, WellBegun;
    var t := w.(posts := w.posts + {PostOf(p)});
    assert FromBegun(t, PostOf(p));
    assert forall post :: FromBegun(w, post) ==> FromBegun(t, post);
  }

  lemma CommitConsistent(w: World, post: Post)
    requires Lawful(w) && post in w.posts && !Ordered(w.orders, post)
    ensures Lawful(w.(orders := w.orders + [post]))
  {
    hide CanRecover, WellBegun;
    var t := w.(orders := w.orders + [post]);
    assert FromBegun(w, post);
    forall i | 0 <= i < |w.orders| ensures w.orders[i].clientRequestId != post.clientRequestId {
      assert FromBegun(w, w.orders[i]);
    }
    assert forall x :: FromBegun(w, x) ==> FromBegun(t, x);
  }

  /** A step that leaves traffic alone and writes no marker or memory. */
  lemma QuietConsistent(w: World, t: World)
    requires Lawful(w)
    requires t.begun == w.begun && t.posts == w.posts && t.orders == w.orders
    requires forall p :: p in t.held ==> p in w.held || Begun(w.begun, p)
    requires t.browser.marker.None? || t.browser.marker == w.browser.marker
    requires t.browser.memory.None? || t.browser.memory == w.browser.memory
    ensures Lawful(t)
  {
    hide Traffic;
    TrafficKept(w, t);
  }

  lemma ResolveIsQuiet(b: Browser, p: Pending, orderId: string, f: Faults)
    ensures var b1 := AfterResolve(b, p, orderId, f).0;
            && (b1.marker.None? || b1.marker == b.marker)
            && (b1.memory.None? || b1.memory == b.memory)
  {
  }

  lemma BeginStep(w: World, owner: string, value: Option<Value>, id: string, f: Faults)
    requires Lawful(w) && IsUuid(id) && id !in w.begun
    ensures Lawful(Step(w, Begin(owner, value, id, f)))
  {
    hide AfterBegin, Consistent, MarkerBegun, Traffic, IsUuid;
    var (b1, p) := AfterBegin(w.browser, owner, value, id, f);
    BegunIsWell(w.browser, owner, value, id, f);
    BeginHasEffect(w.browser, owner, value, id, f);
    BeginConsistent(w, b1, p, id);
  }

  lemma ReadStep(w: World, owner: string, f: Faults)
    requires Lawful(w)
    ensures Lawful(Step(w, Read(owner, f)))
  {
    hide AfterRead, MarkerBegun, Traffic, StoredPending;
    ReadSources(w.browser, owner, f);
    StoredIsBegun(w, owner);
    QuietConsistent(w, Step(w, Read(owner, f)));
  }

  lemma ResolveStep(w: World, p: Pending, orderId: string, f: Faults)
    requires Lawful(w)
    ensures Lawful(Step(w, Resolve(p, orderId, f)))
  {
    hide AfterResolve, Consistent, MarkerBegun, Traffic;
    ResolveIsQuiet(w.browser, p, orderId, f);
    QuietConsistent(w, Step(w, Resolve(p, orderId, f)));
  }

  lemma OtherStep(w: World, e: Event)
    requires Lawful(w) && (e.Clear? || e.EditDraft? || e.Reload?)
    ensures Lawful(Step(w, e))
  {
    hide Consistent, MarkerBegun, Traffic;
    QuietConsistent(w, Step(w, e));
  }

  lemma StepConsistent(w: World, e: Event)
    requires Lawful(w)
    ensures Lawful(Step(w, e))
  {
    hide AfterBegin, AfterRead, AfterResolve, AfterClear, Consistent, MarkerBegun, Traffic, IsUuid;
    match e
    case Begin(owner, value, id, f) => if IsUuid(id) && id !in w.begun { BeginStep(w, owner, value, id, f); }
    case Read(owner, f) => ReadStep(w, owner, f);
    case Send(p) => if p in w.held && CanRecover(p) { SendConsistent(w, p); }
    case Commit(post) => if post in w.posts && !Ordered(w.orders, post) { CommitConsistent(w, post); }
    case Resolve(p, orderId, f) => ResolveStep(w, p, orderId, f);
    case _ => OtherStep(w, e);
  }

  lemma {:induction false} RunConsistent(draft: Option<Stored>, events: seq<Event>)
    ensures Lawful(Run(draft, events))
  {
    if events != [] {
      RunConsistent(draft, events[..|events| - 1]);
      StepConsistent(Run(draft, events[..|events| - 1]), events[|events| - 1]);
    }
  }

  /** Everything ever sent under a key carries the submission that was begun under it, and the
      server makes at most one order of it, under any mix of sends, recoveries, duplicates,
      reloads, draft edits and storage failures. */
  lemma {:induction false} OneOrderPerCreation(draft: Option<Stored>, events: seq<Event>)
    ensures var w := Run(draft, events);
            && (forall post :: post in w.posts ==>
                  && post.clientRequestId in w.begun
                  && w.begun[post.clientRequestId].ownerId == post.ownerId
                  && w.begun[post.clientRequestId].submitted == Some(post.submission))
            && (forall i :: 0 <= i < |w.orders| ==>
                  && w.orders[i].clientRequestId in w.begun
                  && w.begun[w.orders[i].clientRequestId].ownerId == w.orders[i].ownerId
                  && w.begun[w.orders[i].clientRequestId].submitted == Some(w.orders[i].submission))
            && (forall i, j :: 0 <= i < j < |w.orders| ==> w.orders[i].clientRequestId != w.orders[j].clientRequestId)
  {
    RunConsistent(draft, events);
  }

  // ---------------------------------------------------------------- what happens to a marker

  /** Reading does not see the marker of the owner: it is another account's, or getItem throws. */
  predicate Overlooks(owner: string, reader: string, f: Faults) {
    !f.missing && (f.getMarker || reader != owner)
  }

  /** Nothing in memory stops the reader, and storage takes the new marker. */
  predicate Overwrites(b: Browser, reader: string, value: Option<Value>, f: Faults) {
    && !f.setMarker
    && !(b.memory.Some? && b.memory.value.ownerId == reader)
    && (value.None? || Submitted(value.value).Some?)
  }

  /** The steps that take away a stored marker. */
  predicate TakesMarker(b: Browser, owner: string, id: string, e: Event) {
    match e
    case Begin(reader, value, _, f) =>
      reader != "" && Overlooks(owner, reader, f) && (!f.removeMarker || Overwrites(b, reader, value, f))
    case Read(reader, f) => Overlooks(owner, reader, f) && !f.removeMarker
    case Resolve(p, orderId, f) =>
      && p.ownerId == owner && p.requestId == id && orderId != ""
      && !f.missing && !f.getMarker && !f.removeMarker && !DraftThrows(b, f)
    case Clear(f) => !f.missing && !f.removeMarker
    case _ => false
  }

  /** A stored marker outlives a step exactly unless the step is its own confirmation, a
      logout, or a read or a new beginning that overlooks it: by another account, or while
      getItem throws. */
  lemma {:induction false} MarkerFate(w: World, m: Pending, e: Event)
    requires WellBegun(m) && m.persistent && w.browser.marker == Some(Written(m))
    requires m.requestId in w.begun
    requires e.Resolve? ==> e.p in w.held
    requires e.Begin? ==> IsUuid(e.id) && e.id !in w.begun
    ensures Step(w, e).browser.marker == w.browser.marker <==> !TakesMarker(w.browser, m.ownerId, m.requestId, e)
  {
    match e
    case Begin(reader, value, id, f) => BeginOverMarker(w.browser, m, reader, value, id, f);
    case Read(reader, f) => ReadOverMarker(w.browser, m, reader, f);
    case Resolve(p, orderId, f) => ResolveMarker(w.browser, m, p, orderId, f);
    case _ =>
  }

  lemma ReadOverMarker(b: Browser, m: Pending, reader: string, f: Faults)
    requires WellBegun(m) && m.persistent && b.marker == Some(Written(m))
    ensures var (b1, p) := AfterRead(b, reader, f);
            && b1.marker == (if Overlooks(m.ownerId, reader, f) && !f.removeMarker then None else b.marker)
            && (p.None? ==> f.missing || Overlooks(m.ownerId, reader, f) || reader == "")
            && (Overlooks(m.ownerId, reader, f) && reader != "" ==>
                  p == if b.memory.Some? && b.memory.value.ownerId == reader then b.memory else None)
  {
    MarkerReadsBack(m, reader);
    StoredMeans(b, m, reader);
  }

  lemma StoredMeans(b: Browser, m: Pending, reader: string)
    requires b.marker == Some(Written(m))
    ensures StoredPending(b, reader) == Recognised(Kept(MarkerOf(m)), reader)
  {
  }

  lemma BeginOverMarker(b: Browser, m: Pending, reader: string, value: Option<Value>, id: string, f: Faults)
    requires WellBegun(m) && m.persistent && b.marker == Some(Written(m)) && id != m.requestId
    ensures AfterBegin(b, reader, value, id, f).0.marker == b.marker
       <==> !(reader != "" && Overlooks(m.ownerId, reader, f) && (!f.removeMarker || Overwrites(b, reader, value, f)))
  {
    if reader != "" {
      ReadOverMarker(b, m, reader, f);
      var (b1, p) := AfterRead(b, reader, f);
      BeginWrites(b, reader, value, id, f, b1, p, m);
    }
  }

  /** What beginning does after its read. */
  lemma BeginWrites(
    b: Browser, owner: string, value: Option<Value>, id: string, f: Faults, b1: Browser, p: Option<Pending>, m: Pending)
    requires owner != "" && (b1, p) == AfterRead(b, owner, f) && id != m.requestId
    ensures var b2 := AfterBegin(b, owner, value, id, f).0;
            if p.None? && (value.None? || Submitted(value.value).Some?) && !f.missing && !f.setMarker
            then b2.marker.Some? && b2.marker != Some(Written(m))
            else b2.marker == b1.marker
  {
    var r := AfterBegin(b, owner, value, id, f).1;
    if r.Some? { DifferentIds(r.value, m); }
  }

  lemma DifferentIds(p: Pending, m: Pending)
    requires p.requestId != m.requestId
    ensures Written(p) != Written(m)
  {
    MarkerFields(p);
    MarkerFields(m);
  }

  lemma ResolveMarker(b: Browser, m: Pending, p: Pending, orderId: string, f: Faults)
    requires b.marker == Some(Written(m))
    ensures AfterResolve(b, p, orderId, f).0.marker == b.marker
       <==> !(&& p.ownerId == m.ownerId && p.requestId == m.requestId && orderId != ""
              && !f.missing && !f.getMarker && !f.removeMarker && !DraftThrows(b, f))
  {
    MarkerFields(m);
  }

  lemma StaysUnlessTaken(w: World, m: Pending, e: Event)
    requires WellBegun(m) && m.persistent && w.browser.marker == Some(Written(m)) && m.requestId in w.begun
    requires !TakesMarker(w.browser, m.ownerId, m.requestId, e)
    ensures Step(w, e).browser.marker == w.browser.marker && m.requestId in Step(w, e).begun
  {
    if (e.Resolve? && e.p !in w.held) || (e.Begin? && (!IsUuid(e.id) || e.id in w.begun)) {
      assert Step(w, e) == w;
    } else {
      MarkerFate(w, m, e);
    }
  }

  ghost predicate Takes(w: World, m: Pending, events: seq<Event>, n: int)
    requires 0 <= n < |events|
  {
    TakesMarker(RunFrom(w, events[..n]).browser, m.ownerId, m.requestId, events[n])
  }

  lemma {:induction false} MarkerStays(w: World, m: Pending, events: seq<Event>)
    requires WellBegun(m) && m.persistent && w.browser.marker == Some(Written(m)) && m.requestId in w.begun
    requires forall n :: 0 <= n < |events| ==> !Takes(w, m, events, n)
    ensures RunFrom(w, events).browser.marker == Some(Written(m)) && m.requestId in RunFrom(w, events).begun
  {
    if events != [] {
      var k := |events| - 1;
      assert forall n :: 0 <= n < k ==> events[..k][..n] == events[..n] && events[..k][n] == events[n];
      forall n | 0 <= n < k ensures !Takes(w, m, events[..k], n) {
        assert !Takes(w, m, events, n);
      }
      MarkerStays(w, m, events[..k]);
      assert !Takes(w, m, events, k);
      StaysUnlessTaken(RunFrom(w, events[..k]), m, events[k]);
    }
  }

  /** While its marker is stored an account cannot begin another order: a later beginning that
      succeeds, storage being readable, means that some step before it took the marker. */
  lemma {:induction false} NextOrderNeedsEnd(w: World, m: Pending, events: seq<Event>, value: Option<Value>,
                                             id: string, g: Faults)
    requires WellBegun(m) && m.persistent && w.browser.marker == Some(Written(m)) && m.requestId in w.begun
    requires !g.missing && !g.getMarker
    requires AfterBegin(RunFrom(w, events).browser, m.ownerId, value, id, g).1.Some?
    ensures exists n :: 0 <= n < |events| && Takes(w, m, events, n)
  {
    if forall n :: 0 <= n < |events| ==> !Takes(w, m, events, n) {
      MarkerStays(w, m, events);
      ReadOverMarker(RunFrom(w, events).browser, m, m.ownerId, g);
    }
  }

  // ---------------------------------------------------------------- confirmations

  /** The confirmations that remove the stored draft. */
  predicate TakesDraft(b: Browser, p: Pending, orderId: string, f: Faults) {
    && orderId != "" && Owns(b, p, f) && !DraftThrows(b, f) && !f.missing && !f.removeDraft
    && b.draft.Some? && b.draft.value.Parsed? && Field(b.draft.value.value, OWNER_ID) == Text(p.ownerId)
  }

  /** A confirmation settles only the marker and the memory record with its exact owner and
      request. Exactly when it removes the marker, the record and the account's draft, and when
      it counts as settled. */
  lemma ResolvesOnlyItsOwn(b: Browser, p: Pending, orderId: string, f: Faults)
    ensures var (b1, resolved) := AfterResolve(b, p, orderId, f);
            var stuck := StoredMatches(b, p, f) && (f.removeMarker || DraftThrows(b, f));
            && (b1.marker != b.marker <==> orderId != "" && StoredMatches(b, p, f) && !stuck)
            && (b1.memory != b.memory <==> orderId != "" && MemoryMatches(b, p) && !stuck)
            && (b1.draft != b.draft <==> TakesDraft(b, p, orderId, f))
            && (resolved <==> orderId != "" && Owns(b, p, f) && !stuck)
            && b1.marker in {b.marker, None} && b1.memory in {b.memory, None} && b1.draft in {b.draft, None}
  {
  }

  // ---------------------------------------------------------------- a lost draft

  /** Another request of the account is pending. */
  predicate OtherPending(b: Browser, p: Pending) {
    || (StoredPending(b, p.ownerId).Some? && StoredPending(b, p.ownerId).value.requestId != p.requestId)
    || (b.memory.Some? && b.memory.value.ownerId == p.ownerId && b.memory.value.requestId != p.requestId)
  }

  lemma MatchIsOwn(w: World, p: Pending, f: Faults)
    requires Consistent(w) && MarkerBegun(w) && StoredMatches(w.browser, p, f)
    ensures StoredPending(w.browser, p.ownerId).Some? ==>
              StoredPending(w.browser, p.ownerId).value.requestId == p.requestId
  {
    var b := w.browser;
    var id :| id in w.begun && w.begun[id].persistent && b.marker == Some(Written(w.begun[id]));
    MarkerReadsBack(w.begun[id], p.ownerId);
    MarkerFields(w.begun[id]);
    StoredMeans(b, w.begun[id], p.ownerId);
  }

  lemma SameMarkerMeans(b: Browser, c: Browser, owner: string)
    requires c.marker == b.marker || c.marker.None?
    ensures StoredPending(c, owner) == (if c.marker.None? then None else StoredPending(b, owner))
  {
  }

  lemma OtherStaysPending(w: World, p: Pending, orderId: string, f: Faults)
    requires Consistent(w) && MarkerBegun(w)
    ensures OtherPending(AfterResolve(w.browser, p, orderId, f).0, p) <==> OtherPending(w.browser, p)
  {
    var b := w.browser;
    ResolvesOnlyItsOwn(b, p, orderId, f);
    SameMarkerMeans(b, AfterResolve(b, p, orderId, f).0, p.ownerId);
    if StoredMatches(b, p, f) { MatchIsOwn(w, p, f); }
    hide AfterResolve, DraftThrows, Recognised, StoredPending, StoredMatches, Consistent, MarkerBegun;
  }

  /** In every run, a confirmation removes the draft of an account that has another request
      pending if and only if it is one that removes the draft and there is such a request. */
  lemma {:induction false} SharedDraftLostIff(
    draft: Option<Stored>, events: seq<Event>, p: Pending, orderId: string, f: Faults)
    ensures var b := Run(draft, events).browser;
            var b1 := AfterResolve(b, p, orderId, f).0;
            (b1.draft != b.draft && OtherPending(b1, p)) <==> (TakesDraft(b, p, orderId, f) && OtherPending(b, p))
  {
    RunConsistent(draft, events);
    OtherStaysPending(Run(draft, events), p, orderId, f);
    ResolvesOnlyItsOwn(Run(draft, events).browser, p, orderId, f);
  }

  /** The account has two requests pending, one stored and one in memory. */
  predicate Crowded(b: Browser, owner: string) {
    && StoredPending(b, owner).Some?
    && b.memory.Some? && b.memory.value.ownerId == owner
    && StoredPending(b, owner).value.requestId != b.memory.value.requestId
  }

  /** A request is begun beside the account's stored one: storage hides the marker, cannot remove
      it, and does not take the new one. */
  predicate BeginsBeside(w: World, owner: string, e: Event) {
    && e.Begin? && e.owner == owner && IsUuid(e.id) && e.id !in w.begun
    && StoredPending(w.browser, owner).Some?
    && !(w.browser.memory.Some? && w.browser.memory.value.ownerId == owner)
    && (e.value.None? || Submitted(e.value.value).Some?)
    && (e.f.missing || (e.f.getMarker && e.f.removeMarker && e.f.setMarker))
  }

  /** What a beginning leaves, in terms of what its read left. */
  lemma BeginLeaves(b: Browser, owner: string, value: Option<Value>, id: string, f: Faults)
    requires owner != ""
    ensures var (b1, p) := AfterRead(b, owner, f);
            var (b2, r) := AfterBegin(b, owner, value, id, f);
            var begins := p.None? && (value.None? || Submitted(value.value).Some?);
            && (begins <==> r.Some?)
            && (!begins ==> b2 == b1)
            && (begins ==> r.value.ownerId == owner && r.value.requestId == id)
            && (begins && (f.missing || f.setMarker) ==> b2 == b1.(memory := r))
            && (begins && !f.missing && !f.setMarker ==> b2 == b1.(marker := Some(Written(r.value))))
  {
  }

  lemma ReadLeaves(b: Browser, owner: string, f: Faults)
    requires owner != ""
    ensures var (b1, p) := AfterRead(b, owner, f);
            var hidden := f.missing || f.getMarker;
            && (p.None? ==> b1.memory.None?)
            && (b1.memory.Some? ==> b1.memory == b.memory && (p.Some? ==> hidden ==> b.memory.value.ownerId == owner))
            && (hidden ==> (p.Some? <==> b.memory.Some? && b.memory.value.ownerId == owner))
            && (hidden ==> b1.marker == if f.missing || f.removeMarker then b.marker else None)
            && (!hidden && p.None? ==> StoredPending(b, owner).None?)
            && (!hidden && StoredPending(b, owner).Some? ==> b1 == b && p == StoredPending(b, owner))
            && b1.marker in {b.marker, None}
  {
    hide Recognised;
  }

  lemma OwnBegin(w: World, e: Event)
    requires Consistent(w) && MarkerBegun(w) && e.Begin? && IsUuid(e.id) && e.id !in w.begun && e.owner != ""
    requires !Crowded(w.browser, e.owner)
    ensures Crowded(Step(w, e).browser, e.owner) <==> BeginsBeside(w, e.owner, e)
  {
    var b, owner, f := w.browser, e.owner, e.f;
    var (b1, p) := AfterRead(b, owner, f);
    var (b2, r) := AfterBegin(b, owner, e.value, e.id, f);
    BeginLeaves(b, owner, e.value, e.id, f);
    ReadLeaves(b, owner, f);
    StoredIsBegun(w, owner);
    SameMarkerMeans(b, b1, owner);
    if b2.marker in {b.marker, None} { SameMarkerMeans(b, b2, owner); }
    assert Step(w, e).browser == b2;
    hide AfterBegin, AfterRead, Recognised, StoredPending, Submitted, IsUuid;
  }

  /** No other step leaves an account with two requests pending that did not have them. */
  lemma OtherSteps(w: World, owner: string, e: Event)
    requires !(e.Begin? && e.owner == owner)
    ensures Crowded(Step(w, e).browser, owner) ==> Crowded(w.browser, owner)
  {
    var b, b2 := w.browser, Step(w, e).browser;
    match e
    case Begin(reader, value, id, f) =>
      if IsUuid(id) && id !in w.begun {
        BeginHasEffect(b, reader, value, id, f);
        BegunIsWell(b, reader, value, id, f);
        var p := AfterBegin(b, reader, value, id, f).1;
        if p.Some? && p.value.persistent && b2.marker == Some(Written(p.value)) {
          MarkerReadsBack(p.value, owner);
          StoredMeans(b2, p.value, owner);
        } else {
          SameMarkerMeans(b, b2, owner);
        }
      }
    case Read(reader, f) =>
      ReadSources(b, reader, f);
      SameMarkerMeans(b, b2, owner);
    case Resolve(p, orderId, f) =>
      ResolvesOnlyItsOwn(b, p, orderId, f);
      SameMarkerMeans(b, b2, owner);
    case Clear(f) => SameMarkerMeans(b, b2, owner);
    case _ => SameMarkerMeans(b, b2, owner);
    hide StoredPending, AfterBegin, AfterRead, AfterResolve, Recognised, Submitted, IsUuid;
  }

  lemma NobodyPending(b: Browser)
    ensures StoredPending(b, "").None?
  {
  }

  /** How an account comes to have two requests pending: exactly by beginning one beside a stored
      one that storage hides. */
  lemma {:induction false} CrowdedIff(draft: Option<Stored>, events: seq<Event>, owner: string, e: Event)
    requires !Crowded(Run(draft, events).browser, owner)
    ensures var w := Run(draft, events);
            Crowded(Step(w, e).browser, owner) <==> BeginsBeside(w, owner, e)
  {
    var w := Run(draft, events);
    RunConsistent(draft, events);
    if owner == "" {
      NobodyPending(Step(w, e).browser);
      NobodyPending(w.browser);
    } else if e.Begin? && e.owner == owner {
      if IsUuid(e.id) && e.id !in w.begun { OwnBegin(w, e); } else { assert Step(w, e) == w; }
    } else {
      OtherSteps(w, owner, e);
    }
  }

  lemma {:induction false} NeverCrowded(draft: Option<Stored>, events: seq<Event>, owner: string)
    requires forall n :: 0 <= n < |events| ==> !BeginsBeside(Run(draft, events[..n]), owner, events[n])
    ensures !Crowded(Run(draft, events).browser, owner)
  {
    if events != [] {
      var k := |events| - 1;
      forall n | 0 <= n < k ensures !BeginsBeside(Run(draft, events[..k][..n]), owner, events[..k][n]) {
        assert events[..k][..n] == events[..n] && events[..k][n] == events[n];
      }
      NeverCrowded(draft, events[..k], owner);
      CrowdedIff(draft, events[..k], owner, events[k]);
    }
  }

  /** A request and another one of its account, both in the browser. */
  lemma OwnsAndOther(w: World, p: Pending, f: Faults)
    requires Consistent(w) && MarkerBegun(w) && p.ownerId != ""
    requires Owns(w.browser, p, f) && OtherPending(w.browser, p)
    ensures Crowded(w.browser, p.ownerId)
  {
    if StoredMatches(w.browser, p, f) {
      MatchIsOwn(w, p, f);
      OwnMarkerSeen(w, p, f);
    }
    hide StoredPending, StoredMatches;
  }

  lemma OwnMarkerSeen(w: World, p: Pending, f: Faults)
    requires Consistent(w) && MarkerBegun(w) && StoredMatches(w.browser, p, f)
    ensures StoredPending(w.browser, p.ownerId).Some?
  {
    var b := w.browser;
    var id :| id in w.begun && w.begun[id].persistent && b.marker == Some(Written(w.begun[id]));
    MarkerFields(w.begun[id]);
    MarkerReadsBack(w.begun[id], p.ownerId);
    StoredMeans(b, w.begun[id], p.ownerId);
  }

  /** While an account has begun no request beside a stored one, none of its confirmations removes
      the draft of another pending request. */
  lemma {:induction false} NewerDraftKept(
    draft: Option<Stored>, events: seq<Event>, p: Pending, orderId: string, f: Faults)
    requires forall n :: 0 <= n < |events| ==> !BeginsBeside(Run(draft, events[..n]), p.ownerId, events[n])
    ensures var b := Run(draft, events).browser;
            var b1 := AfterResolve(b, p, orderId, f).0;
            b1.draft == b.draft || !OtherPending(b1, p)
  {
    RunConsistent(draft, events);
    NeverCrowded(draft, events, p.ownerId);
    SharedDraftLostIff(draft, events, p, orderId, f);
    var w := Run(draft, events);
    if p.ownerId == "" {
      NobodyPending(w.browser);
    } else if Owns(w.browser, p, f) && OtherPending(w.browser, p) {
      OwnsAndOther(w, p, f);
    }
  }

  const BLIND := Faults(false, true, true, true, false, false)

  /** The account's draft is shared by its requests. If storage fails while the first request's
      marker is stored, a second one is begun in memory; confirming the first then removes the
      draft of the second, which stays pending. */
  lemma SecondDraftLost(owner: string, first: string, second: string)
    requires owner != "" && IsUuid(first) && IsUuid(second) && first != second
    ensures var draft := Some(Parsed(Object(map[OWNER_ID := Text(owner)])));
            var w := Run(draft, [Begin(owner, None, first, NO_FAULTS), Begin(owner, None, second, BLIND)]);
            var t := Step(w, Resolve(Pending(owner, first, true, false, None), "order", NO_FAULTS));
            && w.browser.draft == draft && t.browser.draft == None
            && t.browser.memory == w.browser.memory == Some(Pending(owner, second, false, false, None))
  {
    hide Run, AfterBegin, AfterRead, AfterClear, IsUuid;
    var draft := Some(Parsed(Object(map[OWNER_ID := Text(owner)])));
    TwoBegun(draft, owner, first, second);
    MarkerFields(Pending(owner, first, true, false, None));
  }

  lemma TwoBegun(draft: Option<Stored>, owner: string, first: string, second: string)
    requires owner != "" && IsUuid(first) && IsUuid(second) && first != second
    ensures var p1, p2 := Pending(owner, first, true, false, None), Pending(owner, second, false, false, None);
            var w := Run(draft, [Begin(owner, None, first, NO_FAULTS), Begin(owner, None, second, BLIND)]);
            w.browser == Browser(Some(Written(p1)), draft, Some(p2)) && p1 in w.held
  {
    var e1, e2 := Begin(owner, None, first, NO_FAULTS), Begin(owner, None, second, BLIND);
    var p1 := Pending(owner, first, true, false, None);
    assert Step(Start(draft), e1) == World(Browser(Some(Written(p1)), draft, None), {p1}, map[first := p1], {}, []);
    TwoSteps(Start(draft), e1, e2);
  }

  lemma TwoSteps(w: World, e1: Event, e2: Event)
    ensures RunFrom(w, [e1, e2]) == Step(Step(w, e1), e2)
  {
    assert [e1, e2][..1] == [e1] && [e1][..0] == [];
    assert RunFrom(w, []) == w;
    assert RunFrom(w, [e1]) == Step(w, e1);
  }
}
