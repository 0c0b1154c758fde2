/** Over every run of an operator hook, with reloads, throwing storage, lost answers and late
    commits: a second POST for a target follows a read that excuses it. */
module OperatorLocksLaws {
  import opened Options
  import opened OperatorLocks

  datatype Event =
    | Reload(f: Faults)
    | Select(t: Target, f: Faults)
    | Submit(t: Target, allowed: bool, f: Faults)
    | Answered(p: Post, a: Answer, f: Faults)
    | Reconcile(t: Target)
    | ReadAnswered(d: Read, ok: bool, terminal: bool, f: Faults)
    | Edit(f: Faults)

  function Step(s: Tab, e: Event): Tab {
    match e
    case Reload(f) => AfterReload(s, f)
    case Select(t, f) => AfterSelect(s, t, f)
    case Submit(t, allowed, f) => AfterSubmit(s, t, allowed, f)
    case Answered(p, a, f) => AfterAnswer(s, p, a, f)
    case Reconcile(t) => AfterReconcile(s, t)
    case ReadAnswered(d, ok, terminal, f) => AfterRead(s, d, ok, terminal, f)
    case Edit(f) => AfterEdit(s, f)
  }

  function Run(hook: Hook, events: seq<Event>): Tab {
    if events == [] then Start(hook) else Step(Run(hook, events[..|events| - 1]), events[|events| - 1])
  }

  // ---------------------------------------------------------------- the promise

  /** After the POST at i, within the first k observations, a read was issued and then shown,
      and either it shows the target as settled, or the POST at i had been refused before the
      read was issued. */
  ghost predicate Excused(trace: seq<Observation>, i: nat, k: nat)
    requires i < k <= |trace| && trace[i].Sent?
  {
    exists m, j :: i < m < j < k
      && trace[m].ReadIssued? && trace[m].target == trace[i].target
      && trace[j].ReadShown? && trace[j].target == trace[i].target && trace[j].id == trace[m].id
      && (trace[j].terminal || RefusedWithin(trace, i, m))
  }

  /** The POST at i was refused before position m. */
  ghost predicate RefusedWithin(trace: seq<Observation>, i: nat, m: nat)
    requires i < m <= |trace| && trace[i].Sent?
  {
    exists l :: i < l < m && trace[l] == Refused(trace[i].target, trace[i].serial)
  }

  /** i and k are consecutive POSTs for one target. */
  ghost predicate Consecutive(trace: seq<Observation>, i: nat, k: nat) {
    && i < k < |trace| && trace[i].Sent? && trace[k].Sent? && trace[i].target == trace[k].target
    && forall x :: i < x < k ==> !(trace[x].Sent? && trace[x].target == trace[i].target)
  }

  ghost predicate SafeTrace(trace: seq<Observation>) {
    forall i: nat, k: nat :: Consecutive(trace, i, k) ==> Excused(trace, i, k)
  }

  // ---------------------------------------------------------------- a monitor for it

  /** What the traffic so far says about a target: nothing unexcused was sent, or the POST
      `serial` was, with the reads issued since it and since its refusal. */
  datatype Hold = Free | Held(serial: nat, refused: bool, since: set<nat>, sinceRefusal: set<nat>)

  function Observe(h: Hold, o: Observation, t: Target): Hold {
    if o.target != t then h
    else match o
      case Sent(_, n) => Held(n, false, {}, {})
      case Refused(_, n) => if h.Held? && h.serial == n then h.(refused := true) else h
      case ReadIssued(_, r) =>
        if h.Free? then h
        else h.(since := h.since + {r}, sinceRefusal := if h.refused then h.sinceRefusal + {r} else h.sinceRefusal)
      case ReadShown(_, r, terminal) =>
        if h.Held? && ((terminal && r in h.since) || r in h.sinceRefusal) then Free else h
  }

  function Status(trace: seq<Observation>, t: Target): Hold {
    if trace == [] then Free
    else Observe(Status(trace[..|trace| - 1], t), trace[|trace| - 1], t)
  }

  lemma StatusAppend(trace: seq<Observation>, o: Observation, t: Target)
    ensures Status(trace + [o], t) == Observe(Status(trace, t), o, t)
    ensures Status(trace + [], t) == Status(trace, t)
  {
    assert (trace + [o])[..|trace|] == trace;
    assert trace + [] == trace;
  }

  /** A read of the target of the POST at i was issued after it; with `refused`, after its
      refusal. */
  ghost predicate IssuedSince(trace: seq<Observation>, i: nat, r: nat, refused: bool)
    requires i < |trace| && trace[i].Sent?
  {
    exists m ::
      i < m < |trace| && trace[m] == ReadIssued(trace[i].target, r) && (refused ==> RefusedWithin(trace, i, m))
  }

  /** What the monitor's state means for the last POST, at position i. */
  ghost predicate Means(trace: seq<Observation>, i: nat, h: Hold)
    requires i < |trace| && trace[i].Sent?
  {
    match h
    case Held(n, refused, since, sinceRefusal) =>
      && n == trace[i].serial
      && (refused <==> RefusedWithin(trace, i, |trace|))
      && (forall r :: r in since <==> IssuedSince(trace, i, r, false))
      && (forall r :: r in sinceRefusal <==> IssuedSince(trace, i, r, true))
      && !Excused(trace, i, |trace|)
    case Free => Excused(trace, i, |trace|)
  }

  /** The monitor is right about the last POST for a target. */
  lemma {:induction false} StatusMeans(trace: seq<Observation>, i: nat, t: Target)
    requires i < |trace| && trace[i].Sent? && trace[i].target == t
    requires forall x :: i < x < |trace| ==> !(trace[x].Sent? && trace[x].target == t)
    ensures Means(trace, i, Status(trace, t))
    decreases |trace|
  {
    var n := |trace| - 1;
    var before, o := trace[..n], trace[n];
    if i == n {
      assert Status(trace, t) == Held(o.serial, false, {}, {});
    } else {
      StatusMeans(before, i, t);
      MeansStep(before, i, Status(before, t), o);
      assert before + [o] == trace;
    }
  }

  /** How one more observation changes what can be said about the POST at i. */
  lemma RefusedStep(before: seq<Observation>, i: nat, o: Observation, m: nat)
    requires i < m <= |before| && before[i].Sent?
    ensures RefusedWithin(before + [o], i, m) <==> RefusedWithin(before, i, m)
    ensures RefusedWithin(before + [o], i, |before| + 1)
       <==> RefusedWithin(before, i, |before|) || o == Refused(before[i].target, before[i].serial)
  {
    var trace := before + [o];
    assert forall x :: 0 <= x < |before| ==> trace[x] == before[x];
    assert trace[|before|] == o;
    if RefusedWithin(before, i, |before|) {
      var l :| i < l < |before| && before[l] == Refused(before[i].target, before[i].serial);
      assert trace[l] == Refused(trace[i].target, trace[i].serial);
    }
    if o == Refused(before[i].target, before[i].serial) {
      assert trace[|before|] == Refused(trace[i].target, trace[i].serial);
    }
  }

  lemma IssuedStep(before: seq<Observation>, i: nat, o: Observation, r: nat, refused: bool)
    requires i < |before| && before[i].Sent?
    ensures IssuedSince(before + [o], i, r, refused)
       <==> IssuedSince(before, i, r, refused)
            || (o == ReadIssued(before[i].target, r) && (refused ==> RefusedWithin(before, i, |before|)))
  {
    var trace := before + [o];
    assert forall x :: 0 <= x < |before| ==> trace[x] == before[x];
    assert trace[|before|] == o;
    forall m | i < m <= |before| ensures RefusedWithin(trace, i, m) <==> RefusedWithin(before, i, m) {
      RefusedStep(before, i, o, m);
    }
    if IssuedSince(before, i, r, refused) {
      var m :| i < m < |before| && before[m] == ReadIssued(before[i].target, r) &&
             (refused ==> RefusedWithin(before, i, m));
      assert trace[m] == ReadIssued(trace[i].target, r) && (refused ==> RefusedWithin(trace, i, m));
    }
    if o == ReadIssued(before[i].target, r) && (refused ==> RefusedWithin(before, i, |before|)) {
      assert trace[|before|] == ReadIssued(trace[i].target, r) && (refused ==> RefusedWithin(trace, i, |before|));
    }
  }

  lemma ExcusedStep(before: seq<Observation>, i: nat, o: Observation)
    requires i < |before| && before[i].Sent?
    ensures Excused(before + [o], i, |before| + 1)
       <==> Excused(before, i, |before|)
            || (o.ReadShown? && o.target == before[i].target && IssuedSince(before, i, o.id, !o.terminal))
  {
    if Excused(before + [o], i, |before| + 1) { ExcusedBefore(before, i, o); }
    if Excused(before, i, |before|)
       || (o.ReadShown? && o.target == before[i].target && IssuedSince(before, i, o.id, !o.terminal)) {
      ExcusedAfter(before, i, o);
    }
  }

  lemma ExcusedAfter(before: seq<Observation>, i: nat, o: Observation)
    requires i < |before| && before[i].Sent?
    requires Excused(before, i, |before|)
             || (o.ReadShown? && o.target == before[i].target && IssuedSince(before, i, o.id, !o.terminal))
    ensures Excused(before + [o], i, |before| + 1)
  {
    hide RefusedWithin;
    var trace := before + [o];
    assert trace[|before|] == o;
    forall m | i < m <= |before| ensures RefusedWithin(trace, i, m) <==> RefusedWithin(before, i, m) {
      RefusedStep(before, i, o, m);
    }
    if Excused(before, i, |before|) {
      var m, j :| i < m < j < |before|
        && before[m].ReadIssued? && before[m].target == before[i].target
        && before[j].ReadShown? && before[j].target == before[i].target && before[j].id == before[m].id
        && (before[j].terminal || RefusedWithin(before, i, m));
      assert trace[m].ReadIssued? && trace[j].ReadShown? && (trace[j].terminal || RefusedWithin(trace, i, m));
    } else {
      var m :| i < m < |before| && before[m] == ReadIssued(before[i].target, o.id) &&
             (!o.terminal ==> RefusedWithin(before, i, m));
      assert trace[m].ReadIssued? && trace[|before|].ReadShown? && (o.terminal || RefusedWithin(trace, i, m));
    }
  }

  lemma ExcusedBefore(before: seq<Observation>, i: nat, o: Observation)
    requires i < |before| && before[i].Sent? && Excused(before + [o], i, |before| + 1)
    ensures Excused(before, i, |before|)
            || (o.ReadShown? && o.target == before[i].target && IssuedSince(before, i, o.id, !o.terminal))
  {
    hide RefusedWithin;
    var trace := before + [o];
    var m, j :| i < m < j < |trace|
      && trace[m].ReadIssued? && trace[m].target == trace[i].target
      && trace[j].ReadShown? && trace[j].target == trace[i].target && trace[j].id == trace[m].id
      && (trace[j].terminal || RefusedWithin(trace, i, m));
    RefusedStep(before, i, o, m);
    assert before[m] == ReadIssued(before[i].target, trace[j].id);
    if j < |before| { assert before[j].ReadShown? && (before[j].terminal || RefusedWithin(before, i, m)); }
  }

  lemma MeansStep(before: seq<Observation>, i: nat, h: Hold, o: Observation)
    requires i < |before| && before[i].Sent? && Means(before, i, h)
    requires !(o.Sent? && o.target == before[i].target)
    ensures Means(before + [o], i, Observe(h, o, before[i].target))
  {
    RefusedStep(before, i, o, |before|);
    ExcusedStep(before, i, o);
    forall r, refused { IssuedStep(before, i, o, r, refused); }
  }

  /** The monitor finds every POST it allows excused. */
  ghost predicate Monitored(trace: seq<Observation>) {
    forall k :: 0 <= k < |trace| && trace[k].Sent? ==> Status(trace[..k], trace[k].target).Free?
  }

  /** The monitor decides the promise. */
  lemma {:induction false} MonitoredIsSafe(trace: seq<Observation>)
    ensures Monitored(trace) <==> SafeTrace(trace)
  {
    if Monitored(trace) {
      forall i: nat, k: nat | Consecutive(trace, i, k) ensures Excused(trace, i, k) {
        StatusMeans(trace[..k], i, trace[i].target);
        assert Status(trace[..k], trace[k].target).Free?;
        ExcusedPrefix(trace, i, k);
      }
    }
    if SafeTrace(trace) {
      forall k | 0 <= k < |trace| && trace[k].Sent? ensures Status(trace[..k], trace[k].target).Free? {
        var t := trace[k].target;
        if Status(trace[..k], t).Held? {
          var i := LastSent(trace[..k], t);
          StatusMeans(trace[..k], i, t);
          assert Consecutive(trace, i, k);
          ExcusedPrefix(trace, i, k);
        }
      }
    }
  }

  lemma ExcusedPrefix(trace: seq<Observation>, i: nat, k: nat)
    requires i < k <= |trace| && trace[i].Sent?
    ensures Excused(trace, i, k) <==> Excused(trace[..k], i, k)
  {
    var before := trace[..k];
    assert forall x :: 0 <= x < k ==> before[x] == trace[x];
    forall m | i < m <= k ensures RefusedWithin(trace, i, m) <==> RefusedWithin(before, i, m) {
      if RefusedWithin(trace, i, m) {
        var l :| i < l < m && trace[l] == Refused(trace[i].target, trace[i].serial);
        assert before[l] == Refused(before[i].target, before[i].serial);
      }
    }
    if Excused(trace, i, k) {
      var m, j :| i < m < j < k
        && trace[m].ReadIssued? && trace[m].target == trace[i].target
        && trace[j].ReadShown? && trace[j].target == trace[i].target && trace[j].id == trace[m].id
        && (trace[j].terminal || RefusedWithin(trace, i, m));
      assert before[m].ReadIssued? && before[j].ReadShown? && (before[j].terminal || RefusedWithin(before, i, m));
    }
  }

  /** A held target was sent a POST. */
  lemma {:induction false} LastSent(trace: seq<Observation>, t: Target) returns (i: nat)
    requires Status(trace, t).Held?
    ensures i < |trace| && trace[i].Sent? && trace[i].target == t
    ensures forall x :: i < x < |trace| ==> !(trace[x].Sent? && trace[x].target == t)
  {
    var n := |trace| - 1;
    if trace[n].Sent? && trace[n].target == t {
      i := n;
    } else {
      i := LastSent(trace[..n], t);
      forall x | i < x < |trace| ensures !(trace[x].Sent? && trace[x].target == t) {
        if x < n { assert trace[..n][x] == trace[x]; }
      }
    }
  }

  // ---------------------------------------------------------------- what every step keeps

  /** A request still belongs to the lock of its target. */
  predicate Current(s: Tab, t: Target, serial: nat) {
    t in s.records && s.records[t].serial == serial
  }

  /** Locks, markers and the traffic agree. */
  ghost predicate Agrees(s: Tab) {
    // every in-memory lock has a persisted marker
    && (forall t :: t in s.records ==> t in s.storage)
    // whatever is unexcused is marked, and a refusal is remembered only if there was one
    && (forall t :: Status(s.trace, t).Held? ==> t in s.storage)
    && (forall t :: t in s.storage && s.storage[t].OutcomeRejected? && Status(s.trace, t).Held? ==>
          Status(s.trace, t).refused)
    && (forall t :: t in s.records && s.records[t].rejected && Status(s.trace, t).Held? ==>
          Status(s.trace, t).refused)
  }

  /** Requests in flight and the locks they belong to. */
  ghost predicate InFlight(s: Tab) {
    && (forall t :: t in s.records ==> s.records[t].serial < s.nextSerial)
    && (forall p :: p in s.posts ==> p.serial < s.nextSerial)
    && (forall d :: d in s.checks ==> d.serial < s.nextSerial && d.id < s.nextRead)
    && (forall p :: p in s.posts && Current(s, p.target, p.serial) ==>
          var h := Status(s.trace, p.target);
          s.records[p.target].pending && h == Held(p.serial, false, {}, {}))
    && (forall d :: d in s.checks && Current(s, d.target, d.serial) ==>
          var h := Status(s.trace, d.target);
          && !s.records[d.target].pending && s.records[d.target].checking
          && (h.Held? ==> d.id in h.since && (s.records[d.target].rejected ==> d.id in h.sinceRefusal)))
    && (forall d, e :: (d in s.checks && e in s.checks && d.target == e.target
          && Current(s, d.target, d.serial) && Current(s, e.target, e.serial)) ==> d == e)
  }

  /** Busy means that one lock is waiting for its POST, and then only one. */
  ghost predicate BusyIsOnePending(s: Tab) {
    && (s.busy <==> exists t :: t in s.records && s.records[t].pending)
    && (forall t, u :: t in s.records && u in s.records && s.records[t].pending && s.records[u].pending ==> t == u)
  }

  /** The dispute hook, once it has looked for the marker of its selected target, has it as a
      lock. */
  ghost predicate SelectedLoaded(s: Tab) {
    s.hook.Dispute? && s.selected.Some? && !s.blocked && s.selected.value in s.storage ==> s.selected.value in s.records
  }

  ghost predicate Inv(s: Tab) {
    Agrees(s) && InFlight(s) && BusyIsOnePending(s) && SelectedLoaded(s)
  }

  lemma MonitoredAppend(trace: seq<Observation>, o: Observation)
    ensures Monitored(trace + [o]) <==> Monitored(trace) && (o.Sent? ==> Status(trace, o.target).Free?)
  {
    var after := trace + [o];
    assert forall k :: 0 <= k < |trace| ==> after[..k] == trace[..k] && after[k] == trace[k];
    assert after[..|trace|] == trace;
    if Monitored(after) {
      assert o.Sent? ==> after[|trace|].Sent?;
      forall k | 0 <= k < |trace| && trace[k].Sent? ensures Status(trace[..k], trace[k].target).Free? {
        assert after[k].Sent?;
      }
    }
  }

  lemma ReloadKeeps(s: Tab, f: Faults)
    requires Inv(s)
    ensures Inv(AfterReload(s, f))
  {
  }

  lemma RecoverKeeps(s: Tab, t: Target)
    requires Inv(s) && t in s.storage && t !in s.records
    ensures Inv(AfterRecover(s, t))
  {
    var s' := AfterRecover(s, t);
    assert forall u :: u != t ==> (u in s'.records <==> u in s.records);
    assert s.busy ==> s'.busy;
    if exists u :: u in s.records && s.records[u].pending {
      var u :| u in s.records && s.records[u].pending;
      assert s'.records[u].pending;
    }
  }

  lemma SelectKeeps(s: Tab, t: Target, f: Faults)
    requires Inv(s)
    ensures Inv(AfterSelect(s, t, f))
  {
    hide AfterRecover, Agrees, InFlight, BusyIsOnePending;
    LocksUnmoved(s, s.(selected := Some(t)));
    if !s.hook.Assignment? {
      var s1 := s.(selected := Some(t), blocked := s.hook.Dispute? && f.read);
      LocksUnmoved(s, s1);
      if !f.read && t in s.storage && t !in s.records {
        RecoverAfterSelect(s, s1, t);
      }
    }
  }

  /** What is selected does not concern the locks. */
  lemma LocksUnmoved(s: Tab, s1: Tab)
    requires s1 == s.(selected := s1.selected, blocked := s1.blocked)
    ensures Agrees(s) ==> Agrees(s1)
    ensures InFlight(s) ==> InFlight(s1)
    ensures BusyIsOnePending(s) ==> BusyIsOnePending(s1)
  {
    hide Status;
    assert forall u, n :: Current(s1, u, n) <==> Current(s, u, n);
  }

  lemma RecoverAfterSelect(s: Tab, s1: Tab, t: Target)
    requires Inv(s) && s1 == s.(selected := Some(t), blocked := false)
    requires t in s.storage && t !in s.records
    ensures Inv(AfterRecover(s1, t))
  {
    hide Agrees, InFlight, BusyIsOnePending;
    RecoverKeeps(s, t);
    LocksUnmoved(AfterRecover(s, t), AfterRecover(s1, t));
  }

  lemma SendStatus(s: Tab, t: Target)
    ensures forall u :: Status(AfterSend(s, t).trace, u) == Observe(Status(s.trace, u), Sent(t, s.nextSerial), u)
  {
    forall u ensures Status(AfterSend(s, t).trace, u) == Observe(Status(s.trace, u), Sent(t, s.nextSerial), u) {
      StatusAppend(s.trace, Sent(t, s.nextSerial), u);
    }
  }

  lemma SendInFlight(s: Tab, t: Target)
    requires InFlight(s) && t !in s.records
    ensures InFlight(AfterSend(s, t))
  {
    SendStatus(s, t);
    hide Status;
  }

  lemma SendAgrees(s: Tab, t: Target)
    requires Agrees(s) && t !in s.records
    ensures Agrees(AfterSend(s, t))
  {
    SendStatus(s, t);
    hide Status;
  }

  lemma SendKeeps(s: Tab, t: Target)
    requires Inv(s) && t !in s.records && !s.busy
    ensures Inv(AfterSend(s, t))
  {
    SendInFlight(s, t);
    SendAgrees(s, t);
    hide Agrees, InFlight, Status;
    assert AfterSend(s, t).records[t].pending;
  }

  /** The scan before an assignment can read the marker of its own target. */
  predicate MarkerReadable(s: Tab, e: Event) {
    s.hook.Assignment? && e.Submit? && e.t in s.storage ==> e.t !in e.f.hidden
  }

  lemma SubmitKeeps(s: Tab, t: Target, allowed: bool, f: Faults)
    requires Inv(s)
    ensures Inv(AfterSubmit(s, t, allowed, f))
  {
    BlockedKeeps(s);
    if allowed && !s.busy && t !in s.records {
      SendKeeps(s, t);
      if t in s.storage { RecoverKeeps(s, t); }
    }
    hide Inv, AfterSend, AfterRecover;
  }

  lemma BlockedKeeps(s: Tab)
    requires Inv(s)
    ensures Inv(s.(blocked := true))
  {
    hide Status;
  }

  /** The traffic of s1 is that of s and then o. */
  ghost predicate Continues(s: Tab, o: Observation, s1: Tab) {
    && s1.trace == s.trace + [o]
    && forall u :: Status(s1.trace, u) == Observe(Status(s.trace, u), o, u)
  }

  lemma ContinuesAfter(s: Tab, o: Observation, s1: Tab)
    requires s1.trace == s.trace + [o]
    ensures Continues(s, o, s1)
  {
    forall u ensures Status(s1.trace, u) == Observe(Status(s.trace, u), o, u) {
      StatusAppend(s.trace, o, u);
    }
  }

  /** Changing one lock without touching which one is pending. */
  lemma BusyKept(s: Tab, t: Target, r: Record, s1: Tab)
    requires BusyIsOnePending(s) && t in s.records && r.pending == s.records[t].pending
    requires s1.records == s.records[t := r] && s1.busy == s.busy
    ensures BusyIsOnePending(s1)
  {
    if s.busy {
      var u :| u in s.records && s.records[u].pending;
      assert u in s1.records && s1.records[u].pending;
    }
  }

  lemma ReconcileKeeps(s: Tab, t: Target)
    requires Inv(s)
    ensures Inv(AfterReconcile(s, t))
  {
    if t in s.records && !s.records[t].pending && !s.records[t].checking {
      var s1, o := AfterReconcile(s, t), ReadIssued(t, s.nextRead);
      ContinuesAfter(s, o, s1);
      BusyKept(s, t, s1.records[t], s1);
      ReconcileInFlight(s, t);
      ReconcileAgrees(s, t);
    }
  }

  lemma ReconcileInFlight(s: Tab, t: Target)
    requires Inv(s) && t in s.records && !s.records[t].pending && !s.records[t].checking
    requires Continues(s, ReadIssued(t, s.nextRead), AfterReconcile(s, t))
    ensures InFlight(AfterReconcile(s, t))
  {
    hide BusyIsOnePending, SelectedLoaded;
    var s1 := AfterReconcile(s, t);
    assert forall u, n :: Current(s1, u, n) <==> Current(s, u, n);
  }

  lemma ReconcileAgrees(s: Tab, t: Target)
    requires Agrees(s) && t in s.records && !s.records[t].pending && !s.records[t].checking
    requires Continues(s, ReadIssued(t, s.nextRead), AfterReconcile(s, t))
    ensures Agrees(AfterReconcile(s, t))
  {
    hide Status;
  }

  /** The answer is taken off the wire. */
  lemma AnswerTaken(s: Tab, p: Post, s1: Tab, refusal: bool)
    requires Inv(s) && p in s.posts
    requires s1 == s.(posts := s.posts - {p}, trace := s.trace + if refusal then [Refused(p.target, p.serial)] else [])
    ensures Inv(s1)
    ensures Current(s, p.target, p.serial) ==>
              var h := Status(s1.trace, p.target);
              s1.records[p.target].pending && h.Held? && (refusal ==> h.refused)
  {
    if refusal {
      ContinuesAfter(s, Refused(p.target, p.serial), s1);
    } else {
      assert s1.trace == s.trace;
    }
  }

  /** The lock whose POST has been answered stops waiting; its marker may be rewritten. */
  lemma Settled(s: Tab, t: Target, s1: Tab)
    requires Inv(s) && t in s.records && s.records[t].pending && t in s1.records
    requires s1 == s.(records := s.records[t := s1.records[t]], busy := false, blocked := s1.blocked,
                        storage := s1.storage)
    requires s1.records[t].serial == s.records[t].serial && !s1.records[t].pending
    requires t in s1.storage && s1.storage == s.storage[t := s1.storage[t]]
    requires s1.records[t].rejected || s1.storage[t].OutcomeRejected? ==>
               s.records[t].rejected || s.storage[t].OutcomeRejected? ||
               (Status(s.trace, t).Held? ==> Status(s.trace, t).refused)
    requires !exists p :: p in s.posts && Current(s, p.target, p.serial) && p.target == t
    requires s.blocked ==> s1.blocked
    ensures Inv(s1)
  {
    assert t in s.storage && s1.storage.Keys == s.storage.Keys;
    assert forall u, n :: Current(s1, u, n) <==> Current(s, u, n);
  }

  lemma AnswerKeeps(s: Tab, p: Post, a: Answer, f: Faults)
    requires Inv(s)
    ensures Inv(AfterAnswer(s, p, a, f))
  {
    if p in s.posts {
      var t := p.target;
      var s1 := s.(posts := s.posts - {p},
                   trace := s.trace + if a.Refusal? then [Refused(p.target, p.serial)] else []);
      AnswerTaken(s, p, s1, a.Refusal?);
      if Current(s, t, p.serial) {
        var r := s.records[t];
        var r1 := match a
          case Success => r.(pending := false)
          case Refusal => r.(pending := false, rejected := true, error := s.hook.Dispute?)
          case Ambiguous => r.(pending := false, error := true);
        var saves := !f.write && (a.Refusal? || (a.Ambiguous? && s.hook.Dispute?));
        var s2 := s1.(
          records := s.records[t := r1],
          busy := false,
          blocked := s.blocked || (s.hook.Assignment? && a.Refusal? && f.write),
          storage := if saves then s.storage[t := if a.Refusal? then OutcomeRejected else OutcomeUnknown]
                     else s.storage);
        Settled(s1, t, s2);
        if a.Success? { ReconcileKeeps(s2, t); }
      }
    }
  }

  /** The answer to a read is taken off the wire. */
  lemma ReadTaken(s: Tab, d: Read, s1: Tab, ok: bool, terminal: bool)
    requires Inv(s) && d in s.checks
    requires s1 == s.(checks := s.checks - {d},
                      trace := s.trace + if ok then [ReadShown(d.target, d.id, terminal)] else [])
    ensures Inv(s1)
    ensures Current(s, d.target, d.serial) && ok && (terminal || s.records[d.target].rejected) ==>
              Status(s1.trace, d.target).Free?
  {
    if ok {
      ContinuesAfter(s, ReadShown(d.target, d.id, terminal), s1);
    } else {
      assert s1.trace == s.trace;
    }
  }

  lemma ReadKeeps(s: Tab, d: Read, ok: bool, terminal: bool, f: Faults)
    requires Inv(s)
    ensures Inv(AfterRead(s, d, ok, terminal, f))
  {
    if d in s.checks {
      var t := d.target;
      var s1 := s.(checks := s.checks - {d},
                   trace := s.trace + if ok then [ReadShown(d.target, d.id, terminal)] else []);
      ReadTaken(s, d, s1, ok, terminal);
      if Current(s, t, d.serial) {
        var s2 := AfterRead(s, d, ok, terminal, f);
        if t in s2.records {
          CheckDone(s1, t, s2.records[t]);
        } else {
          Released(s1, t);
        }
      }
    }
  }

  /** A lock whose read has been answered may be read again. */
  lemma CheckDone(s: Tab, t: Target, r: Record)
    requires Inv(s) && t in s.records && r == s.records[t].(checking := false, error := r.error)
    requires forall d :: d in s.checks && d.target == t ==> !Current(s, t, d.serial)
    ensures Inv(s.(records := s.records[t := r]))
  {
    hide BusyIsOnePending;
    hide Status;
    var s1 := s.(records := s.records[t := r]);
    BusyKept(s, t, r, s1);
    assert forall u, n :: Current(s1, u, n) <==> Current(s, u, n);
  }

  /** A lock that is not pending is released together with its marker. */
  lemma Released(s: Tab, t: Target)
    requires Inv(s) && t in s.records && !s.records[t].pending && Status(s.trace, t).Free?
    ensures Inv(s.(records := s.records - {t}, storage := s.storage - {t}))
  {
    var s1 := s.(records := s.records - {t}, storage := s.storage - {t});
    ReleasedBusy(s, t, s1);
    ReleasedAgrees(s, t, s1);
    ReleasedInFlight(s, t, s1);
    hide BusyIsOnePending, Agrees, InFlight;
  }

  lemma ReleasedAgrees(s: Tab, t: Target, s1: Tab)
    requires Agrees(s) && Status(s.trace, t).Free? && s1.trace == s.trace
    requires s1.records == s.records - {t} && s1.storage == s.storage - {t}
    ensures Agrees(s1)
  {
    hide Status;
  }

  lemma ReleasedInFlight(s: Tab, t: Target, s1: Tab)
    requires InFlight(s) && s1 == s.(records := s.records - {t}, storage := s.storage - {t})
    ensures InFlight(s1)
  {
    hide Status;
    assert forall u, n :: Current(s1, u, n) ==> Current(s, u, n);
  }

  lemma ReleasedBusy(s: Tab, t: Target, s1: Tab)
    requires BusyIsOnePending(s) && t in s.records && !s.records[t].pending
    requires s1.records == s.records - {t} && s1.busy == s.busy
    ensures BusyIsOnePending(s1)
  {
    if s.busy {
      var u :| u in s.records && s.records[u].pending;
      assert u in s1.records && s1.records[u].pending;
    }
  }

  lemma EditKeeps(s: Tab, f: Faults)
    requires Inv(s)
    ensures Inv(AfterEdit(s, f))
  {
    if s.hook.Dispute? && s.selected.Some? && !s.blocked && s.selected.value !in s.records {
      assert s.selected.value !in s.storage;
      assert s.storage - {s.selected.value} == s.storage;
    }
  }

  lemma StepKeeps(s: Tab, e: Event)
    requires Inv(s)
    ensures Inv(Step(s, e))
  {
    hide Inv, AfterReload, AfterSelect, AfterSubmit, AfterAnswer, AfterReconcile, AfterRead, AfterEdit;
    match e
    case Reload(f) => ReloadKeeps(s, f);
    case Select(t, f) => SelectKeeps(s, t, f);
    case Submit(t, allowed, f) => SubmitKeeps(s, t, allowed, f);
    case Answered(p, a, f) => AnswerKeeps(s, p, a, f);
    case Reconcile(t) => ReconcileKeeps(s, t);
    case ReadAnswered(d, ok, terminal, f) => ReadKeeps(s, d, ok, terminal, f);
    case Edit(f) => EditKeeps(s, f);
  }

  // ---------------------------------------------------------------- which steps are safe

  /** An assignment of a held target whose lock is gone from memory, while storage works but
      getItem fails for just its marker. */
  predicate Unsafe(s: Tab, e: Event) {
    && s.hook.Assignment? && e.Submit? && Status(s.trace, e.t).Held? && e.t in e.f.hidden
    && e.allowed && !s.busy && e.t !in s.records && !e.f.read && !e.f.write
  }

  /** A step that sends no POST leaves the monitor as it was. */
  lemma QuietStep(s: Tab, e: Event)
    requires !e.Submit?
    ensures Monitored(Step(s, e).trace) <==> Monitored(s.trace)
  {
    var more := QuietTrace(s, e);
    MonitoredQuiet(s.trace, more);
  }

  /** The traffic grows by at most one observation that is no POST. */
  ghost predicate Quiet(s: Tab, s1: Tab, more: seq<Observation>) {
    s1.trace == s.trace + more && |more| <= 1 && forall o :: o in more ==> !o.Sent?
  }

  lemma AnswerQuiet(s: Tab, p: Post, a: Answer, f: Faults) returns (more: seq<Observation>)
    ensures Quiet(s, AfterAnswer(s, p, a, f), more)
  {
    var t := AfterAnswer(s, p, a, f);
    if t.trace == s.trace {
      more := [];
      assert s.trace + more == s.trace;
    } else {
      more := [t.trace[|s.trace|]];
    }
  }

  lemma ReadQuiet(s: Tab, d: Read, ok: bool, terminal: bool, f: Faults) returns (more: seq<Observation>)
    ensures Quiet(s, AfterRead(s, d, ok, terminal, f), more)
  {
    more := if d in s.checks && ok then [ReadShown(d.target, d.id, terminal)] else [];
    if more == [] { assert s.trace + more == s.trace; }
  }

  lemma QuietTrace(s: Tab, e: Event) returns (more: seq<Observation>)
    requires !e.Submit?
    ensures Quiet(s, Step(s, e), more)
  {
    assert s.trace + [] == s.trace;
    match e
    case Answered(p, a, f) => more := AnswerQuiet(s, p, a, f);
    case ReadAnswered(d, ok, terminal, f) => more := ReadQuiet(s, d, ok, terminal, f);
    case Reconcile(t) => more := Step(s, e).trace[|s.trace|..];
    case _ => more := [];
  }

  lemma MonitoredQuiet(trace: seq<Observation>, more: seq<Observation>)
    requires |more| <= 1 && forall o :: o in more ==> !o.Sent?
    ensures Monitored(trace + more) <==> Monitored(trace)
  {
    if more == [] {
      assert trace + more == trace;
    } else {
      assert more == [more[0]];
      MonitoredAppend(trace, more[0]);
    }
  }

  /** Whether a submission sends, and in which cases its target is held then. */
  lemma SubmitSends(s: Tab, t: Target, allowed: bool, f: Faults)
    requires Inv(s)
    ensures var after := AfterSubmit(s, t, allowed, f).trace;
            var sent := Sent(t, s.nextSerial);
            && after in {s.trace, s.trace + [sent]}
            && (Unsafe(s, Submit(t, allowed, f)) ==> after == s.trace + [sent])
            && (after == s.trace + [sent] ==>
                  (Unsafe(s, Submit(t, allowed, f)) <==> Status(s.trace, t).Held?))
  {
    hide InFlight, BusyIsOnePending, Status;
  }

  lemma StepSafeIff(s: Tab, e: Event)
    requires Inv(s)
    ensures Monitored(Step(s, e).trace) <==> Monitored(s.trace) && !Unsafe(s, e)
  {
    if e.Submit? {
      SubmitSends(s, e.t, e.allowed, e.f);
      MonitoredAppend(s.trace, Sent(e.t, s.nextSerial));
      hide Unsafe, Inv, Monitored, Status, AfterSubmit;
      assert Step(s, e) == AfterSubmit(s, e.t, e.allowed, e.f);
      assert s.trace != s.trace + [Sent(e.t, s.nextSerial)];
    } else {
      QuietStep(s, e);
    }
  }

  // ---------------------------------------------------------------- whole runs

  lemma {:induction false} RunKeeps(hook: Hook, events: seq<Event>)
    ensures Inv(Run(hook, events))
  {
    if events != [] {
      RunKeeps(hook, events[..|events| - 1]);
      StepKeeps(Run(hook, events[..|events| - 1]), events[|events| - 1]);
    }
  }

  /** In every run of every hook, whatever storage does: every in-memory lock has a persisted
      marker, and busy means one pending lock. */
  lemma {:induction false} LocksHaveMarkers(hook: Hook, events: seq<Event>)
    ensures var s := Run(hook, events);
            (forall t :: t in s.records ==> t in s.storage) && BusyIsOnePending(s)
  {
    RunKeeps(hook, events);
  }

  /** No step of the run is unsafe. */
  ghost predicate NoneUnsafe(hook: Hook, events: seq<Event>) {
    events == [] ||
    (var k := |events| - 1; NoneUnsafe(hook, events[..k]) && !Unsafe(Run(hook, events[..k]), events[k]))
  }

  lemma {:induction false} MonitoredIff(hook: Hook, events: seq<Event>)
    ensures Monitored(Run(hook, events).trace) <==> NoneUnsafe(hook, events)
  {
    if events != [] {
      var k := |events| - 1;
      MonitoredIff(hook, events[..k]);
      RunKeeps(hook, events[..k]);
      StepSafeIff(Run(hook, events[..k]), events[k]);
      hide Monitored, Unsafe, Step, Inv;
    }
  }

  /** No second POST for a target goes out without a read that excuses it, if and only if no step
      of the run is unsafe. */
  lemma {:induction false} NoUnexcusedPost(hook: Hook, events: seq<Event>)
    ensures SafeTrace(Run(hook, events).trace) <==> NoneUnsafe(hook, events)
  {
    MonitoredIff(hook, events);
    MonitoredIsSafe(Run(hook, events).trace);
  }

  /** The verification and dispute hooks keep the promise in every run. */
  lemma {:induction false} NoUnexcusedDecision(hook: Hook, events: seq<Event>)
    requires !hook.Assignment?
    ensures SafeTrace(Run(hook, events).trace)
  {
    DecisionsNeverUnsafe(hook, events);
    NoUnexcusedPost(hook, events);
  }

  lemma {:induction false} DecisionsNeverUnsafe(hook: Hook, events: seq<Event>)
    requires !hook.Assignment?
    ensures NoneUnsafe(hook, events)
  {
    if events != [] {
      HookKept(hook, events[..|events| - 1]);
      DecisionsNeverUnsafe(hook, events[..|events| - 1]);
    }
  }

  lemma {:induction false} HookKept(hook: Hook, events: seq<Event>)
    ensures Run(hook, events).hook == hook
  {
    if events != [] {
      HookKept(hook, events[..|events| - 1]);
      HookStays(Run(hook, events[..|events| - 1]), events[|events| - 1]);
    }
  }

  lemma HookStays(s: Tab, e: Event)
    ensures Step(s, e).hook == s.hook
  {
  }

  /** In the state of an unsafe step the marker is there but cannot be read, and the step breaks
      the promise. */
  lemma {:induction false} UnreadableMarkerBreaks(hook: Hook, events: seq<Event>, e: Event)
    requires NoneUnsafe(hook, events) && Unsafe(Run(hook, events), e)
    ensures var s := Run(hook, events);
            && e.t in s.storage && !MarkerReadable(s, e)
            && SafeTrace(s.trace) && !SafeTrace(Step(s, e).trace)
  {
    var s := Run(hook, events);
    RunKeeps(hook, events);
    MonitoredIff(hook, events);
    StepSafeIff(s, e);
    MonitoredIsSafe(s.trace);
    MonitoredIsSafe(Step(s, e).trace);
  }

  /** One assignment in any state the protocol can reach: exactly when it keeps the promise. */
  lemma {:induction false} AssignmentSafeIff(s: Tab, t: Target, allowed: bool, f: Faults)
    requires Inv(s) && s.hook.Assignment? && SafeTrace(s.trace)
    ensures SafeTrace(AfterSubmit(s, t, allowed, f).trace)
       <==> !(&& Status(s.trace, t).Held? && t in f.hidden
              && allowed && !s.busy && t !in s.records && !f.read && !f.write)
  {
    MonitoredIsSafe(s.trace);
    StepSafeIff(s, Submit(t, allowed, f));
    MonitoredIsSafe(AfterSubmit(s, t, allowed, f).trace);
  }

  /** Such a run: assign, reload, assign again, with getItem failing for the marker both times. */
  lemma UnreadableMarkerExample(t: Target)
    ensures var hidden := Faults(false, {t}, false);
            var events := [Submit(t, true, hidden), Reload(hidden), Submit(t, true, hidden)];
            && Run(Assignment, events).trace == [Sent(t, 0), Sent(t, 2)]
            && !SafeTrace(Run(Assignment, events).trace)
  {
    var hidden := Faults(false, {t}, false);
    var e1, e2, e3 := Submit(t, true, hidden), Reload(hidden), Submit(t, true, hidden);
    var s1 := Step(Start(Assignment), e1);
    var s2 := Step(s1, e2);
    var s3 := Step(s2, e3);
    assert [e1, e2, e3][..2] == [e1, e2] && [e1, e2][..1] == [e1] && [e1][..0] == [];
    assert Run(Assignment, [e1]) == s1;
    assert Run(Assignment, [e1, e2]) == s2;
    assert Run(Assignment, [e1, e2, e3]) == s3;
    assert s3.trace == [Sent(t, 0), Sent(t, 2)];
    assert Consecutive(s3.trace, 0, 1);
  }
}
