/** What every run of racing workers keeps: how often the webhook is called, what the statuses
    mean, and how far apart the attempts are. */
module AlertDeliveryLaws {
  import opened Options
  import opened AlertDelivery

  datatype Event =
    | Insert(id: Id, alertId: Id, now: int)
    | Deliver(id: Id, now: int)
    | AlertLoaded(c: Claim, found: bool)
    | CallWebhook(c: Claim)
    | WebhookAnswered(c: Claim, ok: bool)
    | StoreSent(c: Claim, ok: bool)
    | TouchAlert(c: Claim, ok: bool)
    | MarkFailure(c: Claim, now: int, ok: bool)
    | Crash(c: Claim)

  function Step(s: System, e: Event): System {
    match e
    case Insert(id, alertId, now) => AfterInsert(s, id, alertId, now)
    case Deliver(id, now) => AfterClaim(s, id, now)
    case AlertLoaded(c, found) => AfterLoad(s, c, found)
    case CallWebhook(c) => AfterCall(s, c)
    case WebhookAnswered(c, ok) => AfterResponse(s, c, ok)
    case StoreSent(c, ok) => AfterStore(s, c, ok)
    case TouchAlert(c, ok) => AfterTouch(s, c, ok)
    case MarkFailure(c, now, ok) => AfterMarkFailure(s, c, now, ok)
    case Crash(c) => AfterEnd(s, c)
  }

  function RunFrom(s: System, events: seq<Event>): System {
    if events == [] then s else Step(RunFrom(s, events[..|events| - 1]), events[|events| - 1])
  }

  function Run(maxAttempts: nat, events: seq<Event>): System {
    RunFrom(System(maxAttempts, map[], map[], []), events)
  }

  lemma {:induction false} RunOn(s: System, events: seq<Event>, more: seq<Event>)
    ensures RunFrom(s, events + more) == RunFrom(RunFrom(s, events), more)
  {
    hide Step;
    if more == [] {
      assert events + more == events;
    } else {
      var n := |more| - 1;
      assert (events + more)[..|events| + n] == events + more[..n];
      RunOn(s, events, more[..n]);
    }
  }

  lemma RunCons(s: System, e: Event, more: seq<Event>)
    ensures RunFrom(s, [e] + more) == RunFrom(Step(s, e), more)
  {
    RunOn(s, [e], more);
    assert [e][..0] == [];
    assert RunFrom(s, []) == s;
  }

  // ---------------------------------------------------------------- counting

  /** Webhook calls made for the row. */
  function Calls(trace: seq<Observation>, id: Id): nat {
    if trace == [] then 0
    else Calls(trace[..|trace| - 1], id) + (var o := trace[|trace| - 1]; if o.Call? && o.id == id then 1 else 0)
  }

  /** Exhausted audit events written for the row. */
  function Events(trace: seq<Observation>, id: Id): nat {
    if trace == [] then 0
    else
      var o := trace[|trace| - 1];
      Events(trace[..|trace| - 1], id) + (if o.ExhaustedEvent? && o.id == id then 1 else 0)
  }

  /** When the row was first claimed. */
  function FirstAttempt(trace: seq<Observation>, id: Id): Option<int> {
    if trace == [] then None
    else
      var first, o := FirstAttempt(trace[..|trace| - 1], id), trace[|trace| - 1];
      if first.None? && o.Attempt? && o.id == id then Some(o.at) else first
  }

  lemma Append(trace: seq<Observation>, o: Observation, id: Id)
    ensures Calls(trace + [o], id) == Calls(trace, id) + if o.Call? && o.id == id then 1 else 0
    ensures Events(trace + [o], id) == Events(trace, id) + if o.ExhaustedEvent? && o.id == id then 1 else 0
    ensures FirstAttempt(trace + [o], id)
         == if FirstAttempt(trace, id).None? && o.Attempt? && o.id == id then Some(o.at) else FirstAttempt(trace, id)
    ensures trace + [] == trace
  {
    assert (trace + [o])[..|trace|] == trace;
  }

  // ---------------------------------------------------------------- what every step keeps

  /** Status and attempt count fit together. */
  predicate RowOk(r: Row, maxAttempts: nat) {
    && r.attemptCount <= maxAttempts
    && match r.status
       case PENDING => r.attemptCount == 0
       case FAILED => 0 < r.attemptCount < maxAttempts
       case EXHAUSTED => 0 < r.attemptCount == maxAttempts
       case SENDING => r.attemptCount > 0
       case SENT => r.attemptCount > 0
  }

  /** A live worker holds the last claim of its row, and the row waits for it. */
  predicate WorkerOk(s: System, c: Claim)
    requires c in s.workers
  {
    && c.id in s.rows && c.attempt == s.rows[c.id].attemptCount
    && (match s.rows[c.id].status
        case SENDING => s.workers[c] != Stored
        case SENT => s.workers[c] == Stored || s.workers[c] == Failing
        case _ => false)
  }

  /** The traffic of a row: calls and exhausted events against its status. */
  ghost predicate TrafficOk(s: System, id: Id) {
    if id !in s.rows then Calls(s.trace, id) == 0 && Events(s.trace, id) == 0
    else
      var r := s.rows[id];
      var c := Claim(id, r.attemptCount);
      && Calls(s.trace, id) <= r.attemptCount
      && (c in s.workers && (s.workers[c] == Claimed || s.workers[c] == Found) ==> Calls(s.trace, id) < r.attemptCount)
      && Events(s.trace, id) <= 1
      && (r.status == EXHAUSTED ==> Events(s.trace, id) == 1)
      && (r.status != EXHAUSTED && (r.status == SENT ==> c in s.workers) ==> Events(s.trace, id) == 0)
  }

  ghost predicate Inv(s: System) {
    && (forall id :: id in s.rows ==> RowOk(s.rows[id], s.maxAttempts))
    && (forall c :: c in s.workers ==> WorkerOk(s, c))
    && (forall id :: TrafficOk(s, id))
  }

  /** A step about one row leaves the traffic of the others alone. */
  lemma OthersKept(s: System, s1: System, id: Id)
    requires Inv(s)
    requires forall i :: i != id ==> (i in s1.rows <==> i in s.rows) && (i in s.rows ==> s1.rows[i] == s.rows[i])
    requires forall c: Claim :: c.id != id ==>
               (c in s1.workers <==> c in s.workers) && (c in s.workers ==> s1.workers[c] == s.workers[c])
    requires s1.trace == s.trace || exists o :: s1.trace == s.trace + [o] && o.id == id
    ensures forall i :: i != id ==> TrafficOk(s1, i)
  {
    forall i | i != id ensures TrafficOk(s1, i) {
      assert TrafficOk(s, i);
      if s1.trace != s.trace {
        var o :| s1.trace == s.trace + [o] && o.id == id;
        Append(s.trace, o, i);
      }
    }
  }

  lemma ClaimKeeps(s: System, id: Id, now: int)
    requires Inv(s)
    ensures Inv(AfterClaim(s, id, now))
  {
    if Claimable(s, id, now) {
      var s1 := AfterClaim(s, id, now);
      OthersKept(s, s1, id);
      ClaimTraffic(s, id, now);
      forall i ensures TrafficOk(s1, i) { if i == id { } else { assert TrafficOk(s1, i); } }
      ClaimWorkers(s, id, now);
    }
  }

  lemma ClaimTraffic(s: System, id: Id, now: int)
    requires TrafficOk(s, id) && Claimable(s, id, now)
    ensures TrafficOk(AfterClaim(s, id, now), id)
  {
    Append(s.trace, Attempt(id, s.rows[id].attemptCount + 1, now), id);
  }

  lemma ClaimWorkers(s: System, id: Id, now: int)
    requires Claimable(s, id, now) && forall c :: c in s.workers ==> WorkerOk(s, c)
    ensures forall c :: c in AfterClaim(s, id, now).workers ==> WorkerOk(AfterClaim(s, id, now), c)
  {
    var s1 := AfterClaim(s, id, now);
    forall c | c in s1.workers ensures WorkerOk(s1, c) { if c in s.workers { assert WorkerOk(s, c); } }
  }

  /** A worker moves on without writing anything. */
  lemma MoveKeeps(s: System, c: Claim, p: Phase)
    requires Inv(s) && c in s.workers && p != Claimed && (p == Found ==> s.workers[c] == Claimed)
    requires WorkerOk(s, c) ==> if s.rows[c.id].status == SENDING then p != Stored else p == Failing
    ensures Inv(Goes(s, c, p))
  {
    OthersKept(s, Goes(s, c, p), c.id);
    assert WorkerOk(s, c) && TrafficOk(s, c.id);
    assert TrafficOk(Goes(s, c, p), c.id);
  }

  lemma StoreKeeps(s: System, c: Claim)
    requires Inv(s) && At(s, c, Accepted)
    ensures Inv(AfterStore(s, c, true))
  {
    var s1 := AfterStore(s, c, true);
    assert WorkerOk(s, c) && TrafficOk(s, c.id);
    OthersKept(s, s1, c.id);
    assert TrafficOk(s1, c.id);
  }

  lemma EndKeeps(s: System, c: Claim)
    requires Inv(s) && c in s.workers
    ensures Inv(AfterEnd(s, c))
  {
    OthersKept(s, AfterEnd(s, c), c.id);
    assert WorkerOk(s, c) && TrafficOk(s, c.id);
    assert TrafficOk(AfterEnd(s, c), c.id);
  }

  lemma CallKeeps(s: System, c: Claim)
    requires Inv(s) && At(s, c, Found)
    ensures Inv(AfterCall(s, c))
  {
    Append(s.trace, Call(c.id, c.attempt), c.id);
    OthersKept(s, AfterCall(s, c), c.id);
    assert WorkerOk(s, c) && TrafficOk(s, c.id);
    assert TrafficOk(AfterCall(s, c), c.id);
  }

  lemma FailureKeeps(s: System, c: Claim, now: int)
    requires Inv(s) && At(s, c, Failing)
    ensures Inv(AfterMarkFailure(s, c, now, true))
  {
    OthersKept(s, AfterMarkFailure(s, c, now, true), c.id);
    assert WorkerOk(s, c) && RowOk(s.rows[c.id], s.maxAttempts);
    FailureTraffic(s, c, now);
  }

  lemma FailureTraffic(s: System, c: Claim, now: int)
    requires At(s, c, Failing) && WorkerOk(s, c) && TrafficOk(s, c.id) && RowOk(s.rows[c.id], s.maxAttempts)
    ensures TrafficOk(AfterMarkFailure(s, c, now, true), c.id)
  {
    Append(s.trace, ExhaustedEvent(c.id, c.attempt), c.id);
  }

  lemma InsertKeeps(s: System, id: Id, alertId: Id, now: int)
    requires Inv(s)
    ensures Inv(AfterInsert(s, id, alertId, now))
  {
    OthersKept(s, AfterInsert(s, id, alertId, now), id);
    assert TrafficOk(s, id);
    assert TrafficOk(AfterInsert(s, id, alertId, now), id);
  }

  lemma StepKeeps(s: System, e: Event)
    requires Inv(s)
    ensures Inv(Step(s, e))
  {
    match e
    case Insert(id, alertId, now) => InsertKeeps(s, id, alertId, now);
    case Deliver(id, now) => ClaimKeeps(s, id, now);
    case AlertLoaded(c, found) => if At(s, c, Claimed) { MoveKeeps(s, c, if found then Found else Failing); }
    case CallWebhook(c) => if At(s, c, Found) { CallKeeps(s, c); }
    case WebhookAnswered(c, ok) => if At(s, c, Requested) { MoveKeeps(s, c, if ok then Accepted else Failing); }
    case StoreSent(c, ok) => if At(s, c, Accepted) { if ok { StoreKeeps(s, c); } else { MoveKeeps(s, c, Failing); } }
    case TouchAlert(c, ok) => if At(s, c, Stored) { if ok { EndKeeps(s, c); } else { MoveKeeps(s, c, Failing); } }
    case MarkFailure(c, now, ok) =>
      if At(s, c, Failing) { if ok { FailureKeeps(s, c, now); } else { EndKeeps(s, c); } }
    case Crash(c) => if c in s.workers { EndKeeps(s, c); } else { assert s.workers - {c} == s.workers; }
  }

  lemma {:induction false} RunKeeps(maxAttempts: nat, events: seq<Event>)
    ensures Inv(Run(maxAttempts, events)) && Run(maxAttempts, events).maxAttempts == maxAttempts
  {
    if events != [] {
      RunKeeps(maxAttempts, events[..|events| - 1]);
      StepKeeps(Run(maxAttempts, events[..|events| - 1]), events[|events| - 1]);
    }
  }

  // ---------------------------------------------------------------- the promises

  /** With any number of racing workers, duplicate jobs and crashes: each row has at most
      maxAttempts webhook calls and at most one live worker; FAILED means there is an attempt
      left; EXHAUSTED means there is none and exactly one audit event says so. */
  lemma {:induction false} DeliveryLimits(maxAttempts: nat, events: seq<Event>, id: Id)
    requires id in Run(maxAttempts, events).rows
    ensures var s := Run(maxAttempts, events);
            var r := s.rows[id];
            && Calls(s.trace, id) <= r.attemptCount <= maxAttempts
            && (r.status == FAILED ==> r.attemptCount < maxAttempts)
            && (r.status == EXHAUSTED ==> r.attemptCount == maxAttempts && Events(s.trace, id) == 1)
            && Events(s.trace, id) <= 1
            && (forall c :: c in s.workers && c.id == id ==> c == Claim(id, r.attemptCount))
            && (r.status in {PENDING, FAILED, EXHAUSTED} ==> forall c :: c in s.workers ==> c.id != id)
  {
    RunKeeps(maxAttempts, events);
    var s := Run(maxAttempts, events);
    assert TrafficOk(s, id) && RowOk(s.rows[id], s.maxAttempts);
    forall c | c in s.workers && c.id == id
      ensures c == Claim(id, s.rows[id].attemptCount) && s.rows[id].status in {SENDING, SENT}
    {
      assert WorkerOk(s, c);
    }
  }

  /** SENT and EXHAUSTED are final: from then on the row never changes, in any run. */
  lemma {:induction false} FinalStays(maxAttempts: nat, events: seq<Event>, more: seq<Event>, id: Id)
    requires var s := Run(maxAttempts, events); id in s.rows && s.rows[id].status in {SENT, EXHAUSTED}
    ensures var s := RunFrom(Run(maxAttempts, events), more);
            id in s.rows && s.rows[id] == Run(maxAttempts, events).rows[id]
  {
    if more != [] {
      FinalStays(maxAttempts, events, more[..|more| - 1], id);
      FinalStep(RunFrom(Run(maxAttempts, events), more[..|more| - 1]), more[|more| - 1], id);
    }
  }

  lemma FinalStep(s: System, e: Event, id: Id)
    requires id in s.rows && s.rows[id].status in {SENT, EXHAUSTED}
    ensures id in Step(s, e).rows && Step(s, e).rows[id] == s.rows[id]
  {
  }

  /** No worker of the row is alive. */
  predicate Abandoned(s: System, id: Id) { forall c :: c in s.workers ==> c.id != id }

  lemma AbandonedStep(s: System, e: Event, id: Id)
    requires id in s.rows && s.rows[id].status == SENDING && Abandoned(s, id)
    ensures id in Step(s, e).rows && Step(s, e).rows[id] == s.rows[id] && Abandoned(Step(s, e), id)
  {
  }

  /** A row whose worker stopped while sending is never taken up again, in any run. */
  lemma {:induction false} AbandonedStays(maxAttempts: nat, events: seq<Event>, more: seq<Event>, id: Id)
    requires var s := Run(maxAttempts, events); id in s.rows && s.rows[id].status == SENDING && Abandoned(s, id)
    ensures var s := RunFrom(Run(maxAttempts, events), more);
            id in s.rows && s.rows[id] == Run(maxAttempts, events).rows[id] && Abandoned(s, id)
  {
    if more != [] {
      AbandonedStays(maxAttempts, events, more[..|more| - 1], id);
      AbandonedStep(RunFrom(Run(maxAttempts, events), more[..|more| - 1]), more[|more| - 1], id);
    }
  }

  /** The row is not what it was after these further steps. */
  ghost predicate Changes(s: System, more: seq<Event>, id: Id)
    requires id in s.rows
  {
    var t := RunFrom(s, more); id !in t.rows || t.rows[id] != s.rows[id]
  }

  /** Steps left until a worker has recorded a failure. */
  function Distance(p: Phase): nat {
    match p case Found => 2 case Requested => 1 case Claimed => 1 case Accepted => 1 case Stored => 1 case Failing => 0
  }

  /** The unlucky next step of a worker. */
  function Unlucky(c: Claim, p: Phase): Event {
    match p
    case Claimed => AlertLoaded(c, false)
    case Found => CallWebhook(c)
    case Requested => WebhookAnswered(c, false)
    case Accepted => StoreSent(c, false)
    case Stored => TouchAlert(c, false)
    case Failing => MarkFailure(c, 0, true)
  }

  lemma UnluckyStep(s: System, c: Claim)
    requires c in s.workers && s.workers[c] != Failing
    ensures var t := Step(s, Unlucky(c, s.workers[c]));
            && t.rows == s.rows && t.maxAttempts == s.maxAttempts
            && c in t.workers && Distance(t.workers[c]) < Distance(s.workers[c])
  {
  }

  /** A live worker can come to record a failure. */
  lemma {:induction false} Fails(s: System, c: Claim) returns (more: seq<Event>)
    requires c in s.workers && c.id in s.rows
    ensures var t := RunFrom(s, more);
            t.rows == s.rows && t.maxAttempts == s.maxAttempts && At(t, c, Failing)
    decreases Distance(s.workers[c])
  {
    if s.workers[c] == Failing {
      more := [];
    } else {
      var e := Unlucky(c, s.workers[c]);
      UnluckyStep(s, c);
      more := Fails(Step(s, e), c);
      RunCons(s, e, more);
      more := [e] + more;
    }
  }

  lemma Snoc(s: System, more: seq<Event>, e: Event)
    ensures RunFrom(s, more + [e]) == Step(RunFrom(s, more), e)
  {
    assert (more + [e])[..|more|] == more;
  }

  lemma WorkerChanges(s: System, c: Claim)
    requires c in s.workers && c.id in s.rows && s.rows[c.id].status == SENDING
    ensures exists more :: Changes(s, more, c.id)
  {
    var more := Fails(s, c);
    Snoc(s, more, MarkFailure(c, 0, true));
    assert Changes(s, more + [MarkFailure(c, 0, true)], c.id);
  }

  lemma DueChanges(s: System, id: Id)
    requires Inv(s) && s.maxAttempts >= 1 && id in s.rows && s.rows[id].status in {PENDING, FAILED}
    ensures exists more :: Changes(s, more, id)
  {
    var e := Deliver(id, s.rows[id].nextAttemptAt);
    assert RowOk(s.rows[id], s.maxAttempts);
    Snoc(s, [], e);
    assert RunFrom(s, []) == s;
    assert Changes(s, [] + [e], id);
  }

  /** A row can still change if and only if it is waiting for an attempt, or being sent by a
      worker that is alive. */
  lemma {:induction false} ChangesIff(maxAttempts: nat, events: seq<Event>, id: Id)
    requires maxAttempts >= 1 && id in Run(maxAttempts, events).rows
    ensures var s := Run(maxAttempts, events);
            (exists more :: Changes(s, more, id))
            <==> s.rows[id].status in {PENDING, FAILED} || (s.rows[id].status == SENDING && !Abandoned(s, id))
  {
    var s := Run(maxAttempts, events);
    RunKeeps(maxAttempts, events);
    match s.rows[id].status
    case PENDING => DueChanges(s, id);
    case FAILED => DueChanges(s, id);
    case SENDING =>
      if Abandoned(s, id) {
        forall more ensures !Changes(s, more, id) { AbandonedStays(maxAttempts, events, more, id); }
      } else {
        var c :| c in s.workers && c.id == id;
        WorkerChanges(s, c);
      }
    case _ =>
      forall more ensures !Changes(s, more, id) { FinalStays(maxAttempts, events, more, id); }
  }

  // ---------------------------------------------------------------- an exhausted event for a sent row

  /** Sent, not yet reported as exhausted, and no worker left that could. */
  ghost predicate SentQuietly(s: System, id: Id) {
    && id in s.rows && s.rows[id].status == SENT && Events(s.trace, id) == 0
    && Claim(id, s.maxAttempts) !in s.workers
  }

  /** What a step adds to the trace. */
  lemma AddsTo(s: System, e: Event) returns (more: seq<Observation>)
    ensures Step(s, e).trace == s.trace + more && |more| <= 1
    ensures more != [] && more[0].ExhaustedEvent? ==>
              e.MarkFailure? && e.c in s.workers && e.c.attempt >= s.maxAttempts && more[0].id == e.c.id
  {
    var t := Step(s, e);
    more := t.trace[|s.trace|..];
  }

  lemma QuietStep(s: System, e: Event, id: Id)
    requires Inv(s) && SentQuietly(s, id)
    ensures SentQuietly(Step(s, e), id)
  {
    FinalStep(s, e, id);
    var more := AddsTo(s, e);
    NoLastClaim(s, e, id);
    if more == [] {
      assert s.trace + more == s.trace;
    } else {
      assert more == [more[0]];
      Append(s.trace, more[0], id);
      if more[0].ExhaustedEvent? { assert WorkerOk(s, e.c) && RowOk(s.rows[id], s.maxAttempts); }
    }
    hide Step, Inv;
  }

  lemma NoLastClaim(s: System, e: Event, id: Id)
    requires id in s.rows && s.rows[id].status == SENT && Claim(id, s.maxAttempts) !in s.workers
    ensures Claim(id, s.maxAttempts) !in Step(s, e).workers && Step(s, e).maxAttempts == s.maxAttempts
  {
  }

  lemma {:induction false} QuietStays(s: System, more: seq<Event>, id: Id)
    requires Inv(s) && SentQuietly(s, id)
    ensures Inv(RunFrom(s, more)) && SentQuietly(RunFrom(s, more), id)
  {
    if more != [] {
      var t := RunFrom(s, more[..|more| - 1]);
      QuietStays(s, more[..|more| - 1], id);
      QuietStep(t, more[|more| - 1], id);
      StepKeeps(t, more[|more| - 1]);
    }
  }

  lemma Reports(t: System, c: Claim)
    requires At(t, c, Failing) && c.attempt == t.maxAttempts
    ensures Events(Step(t, MarkFailure(c, 0, true)).trace, c.id) > 0
  {
    Append(t.trace, ExhaustedEvent(c.id, c.attempt), c.id);
  }

  lemma LastWorkerReports(s: System, c: Claim)
    requires c in s.workers && c.id in s.rows && c.attempt == s.maxAttempts
    ensures exists more :: Events(RunFrom(s, more).trace, c.id) > 0
  {
    var more := Fails(s, c);
    var e := MarkFailure(c, 0, true);
    Reports(RunFrom(s, more), c);
    hide Events, Step, At;
    Snoc(s, more, e);
    assert Events(RunFrom(s, more + [e]).trace, c.id) > 0;
  }

  /** A row that is SENT without an exhausted event can still get one if and only if the worker
      of the last attempt has not finished: touching the alert fails and it records a failure. */
  lemma {:induction false} SentMayExhaustIff(maxAttempts: nat, events: seq<Event>, id: Id)
    requires var s := Run(maxAttempts, events);
             id in s.rows && s.rows[id].status == SENT && Events(s.trace, id) == 0
    ensures var s := Run(maxAttempts, events);
            (exists more :: Events(RunFrom(s, more).trace, id) > 0) <==> Claim(id, maxAttempts) in s.workers
  {
    var s := Run(maxAttempts, events);
    RunKeeps(maxAttempts, events);
    if Claim(id, maxAttempts) in s.workers {
      LastWorkerReports(s, Claim(id, maxAttempts));
    } else {
      forall more ensures Events(RunFrom(s, more).trace, id) == 0 { QuietStays(s, more, id); }
    }
  }

  /** Four lucky steps of a worker. */
  lemma Sends(s: System, c: Claim)
    requires At(s, c, Claimed) && c.id in s.rows && s.rows[c.id].status == SENDING
    ensures var s2 := Step(Step(s, AlertLoaded(c, true)), CallWebhook(c));
            var s4 := Step(Step(s2, WebhookAnswered(c, true)), StoreSent(c, true));
            && s4.maxAttempts == s.maxAttempts && c in s4.workers
            && c.id in s4.rows && s4.rows[c.id].status == SENT
            && s4.trace == s.trace + [Call(c.id, c.attempt)]
  {
  }

  lemma TwoMore(s: System, events: seq<Event>, e1: Event, e2: Event)
    ensures RunFrom(s, events + [e1] + [e2]) == Step(Step(RunFrom(s, events), e1), e2)
  {
    Snoc(s, events, e1);
    Snoc(s, events + [e1], e2);
  }

  lemma FirstClaim(id: Id)
    ensures var s := Step(Step(System(1, map[], map[], []), Insert(id, id, 0)), Deliver(id, 0));
            && s.maxAttempts == 1 && id in s.rows && s.rows[id].status == SENDING
            && At(s, Claim(id, 1), Claimed) && s.trace == [Attempt(id, 1, 0)]
  {
  }

  /** Such a row is reached: with one attempt, when the webhook answers well. */
  lemma LastAttemptSent(id: Id) returns (events: seq<Event>)
    ensures var s := Run(1, events);
            id in s.rows && s.rows[id].status == SENT && Events(s.trace, id) == 0 && Claim(id, 1) in s.workers
  {
    var s, c := System(1, map[], map[], []), Claim(id, 1);
    assert RunFrom(s, []) == s;
    TwoMore(s, [], Insert(id, id, 0), Deliver(id, 0));
    FirstClaim(id);
    var first := [] + [Insert(id, id, 0)] + [Deliver(id, 0)];
    Sends(RunFrom(s, first), c);
    Append([Attempt(id, 1, 0)], Call(id, 1), id);
    Append([], Attempt(id, 1, 0), id);
    assert [] + [Attempt(id, 1, 0)] == [Attempt(id, 1, 0)];
    hide Step, RunFrom;
    TwoMore(s, first, AlertLoaded(c, true), CallWebhook(c));
    var second := first + [AlertLoaded(c, true)] + [CallWebhook(c)];
    TwoMore(s, second, WebhookAnswered(c, true), StoreSent(c, true));
    events := second + [WebhookAnswered(c, true)] + [StoreSent(c, true)];
  }

  /** An attempt is always claimed from PENDING or FAILED, so a row being sent is never claimed
      again: a second Deliver for it, at whatever time, changes nothing. */
  lemma {:induction false} NoSecondClaim(maxAttempts: nat, events: seq<Event>, id: Id, now: int)
    requires !Abandoned(Run(maxAttempts, events), id)
    ensures Run(maxAttempts, events + [Deliver(id, now)]) == Run(maxAttempts, events)
  {
    RunKeeps(maxAttempts, events);
    assert (events + [Deliver(id, now)])[..|events|] == events;
  }

  // ---------------------------------------------------------------- backoff

  /** Delays grow and stay between a minute and an hour. */
  lemma {:induction false} DelayRange(n: nat)
    ensures 60 <= DelaySeconds(n) <= 3600
    ensures DelaySeconds(n) <= DelaySeconds(n + 1)
  {
    PowPositive(if n == 0 then 0 else n - 1);
  }

  lemma {:induction false} PowPositive(n: nat)
    ensures Pow2(n) >= 1
    ensures n >= 6 ==> Pow2(n) >= 64
  {
    if n > 0 { PowPositive(n - 1); }
    if n == 6 { assert Pow2(5) == 32 by { assert Pow2(3) == 8; } }
  }

  /** Seconds between the first attempt and the n-th: the delays in between. */
  function Offset(n: nat): nat {
    if n <= 1 then 0 else Offset(n - 1) + DelaySeconds(n - 1)
  }

  /** The closed form: the delays double up to the seventh attempt, then stay at an hour. */
  lemma {:induction false} OffsetClosed(n: nat)
    requires n >= 1
    ensures n <= 7 ==> Offset(n) == 60 * (Pow2(n - 1) - 1)
    ensures n >= 7 ==> Offset(n) == 3780 + 3600 * (n - 7)
  {
    PowPositive(n - 1);
    if n > 1 {
      OffsetClosed(n - 1);
      PowPositive(n - 2);
      if n <= 7 { PowMonotone(n - 2, 5); }
    }
    if n == 7 { assert Pow2(6) == 64 by { assert Pow2(3) == 8; } }
  }

  lemma {:induction false} PowMonotone(a: nat, b: nat)
    requires a <= b
    ensures Pow2(a) <= Pow2(b)
    decreases b - a
  {
    if a < b { PowMonotone(a, b - 1); }
  }

  /** A failure is not recorded at a time before its own claim. */
  predicate Stamped(s: System, e: Event) {
    Records(s, e) && s.rows[e.c.id].lastAttemptAt.Some? ==> s.rows[e.c.id].lastAttemptAt.value <= e.now
  }

  /** The step records a failure in the row. */
  predicate Records(s: System, e: Event) {
    && e.MarkFailure? && e.ok && At(s, e.c, Failing)
    && e.c.id in s.rows && s.rows[e.c.id].status == SENDING
  }

  /** The only thing asked of the clocks: not of one worker's against another's, nor of claims. */
  ghost predicate FailuresFollowClaims(maxAttempts: nat, events: seq<Event>) {
    forall n :: 0 <= n < |events| ==> Stamped(Run(maxAttempts, events[..n]), events[n])
  }

  /** Spacing of one row's attempts. */
  ghost predicate Spaced(s: System, id: Id)
    requires id in s.rows
  {
    var r, first := s.rows[id], FirstAttempt(s.trace, id);
    && (r.attemptCount == 0 <==> first.None?)
    && (r.attemptCount > 0 ==>
          r.lastAttemptAt.Some? && first.value + 1000 * Offset(r.attemptCount) <= r.lastAttemptAt.value)
    && (r.status == FAILED ==> first.Some? && first.value + 1000 * Offset(r.attemptCount + 1) <= r.nextAttemptAt)
  }

  ghost predicate AllSpaced(s: System) {
    && (forall id :: id in s.rows ==> Spaced(s, id))
    && (forall id :: id !in s.rows ==> FirstAttempt(s.trace, id).None?)
    && (forall o :: o in s.trace && o.Attempt? ==>
          FirstAttempt(s.trace, o.id).Some?
          && FirstAttempt(s.trace, o.id).value + 1000 * Offset(o.attempt) <= o.at)
  }

  lemma ClaimSpaced(s: System, id: Id, at: int)
    requires Inv(s) && AllSpaced(s)
    ensures AllSpaced(AfterClaim(s, id, at))
  {
    hide Inv, Offset, FirstAttempt, RowOk;
    if Claimable(s, id, at) {
      ClaimSpacedRow(s, id, at);
      var o := Attempt(id, s.rows[id].attemptCount + 1, at);
      var s1 := AfterClaim(s, id, at);
      forall i
        ensures FirstAttempt(s1.trace, i)
             == if FirstAttempt(s.trace, i).None? && i == id then Some(at) else FirstAttempt(s.trace, i)
      {
        Append(s.trace, o, i);
      }
      forall i | i in s1.rows ensures Spaced(s1, i) { if i != id { assert Spaced(s, i); } }
      ClaimSpacedTrace(s, o, s1.trace);
    }
  }

  lemma ClaimSpacedTrace(s: System, o: Observation, trace: seq<Observation>)
    requires trace == s.trace + [o] && o.Attempt?
    requires forall p :: p in s.trace && p.Attempt? ==>
               FirstAttempt(s.trace, p.id).Some?
               && FirstAttempt(s.trace, p.id).value + 1000 * Offset(p.attempt) <= p.at
    requires FirstAttempt(trace, o.id).Some? && FirstAttempt(trace, o.id).value + 1000 * Offset(o.attempt) <= o.at
    ensures forall p :: p in trace && p.Attempt? ==>
              FirstAttempt(trace, p.id).Some?
              && FirstAttempt(trace, p.id).value + 1000 * Offset(p.attempt) <= p.at
  {
    forall p | p in trace && p.Attempt?
      ensures FirstAttempt(trace, p.id).Some? && FirstAttempt(trace, p.id).value + 1000 * Offset(p.attempt) <= p.at
    {
      if p in s.trace { Append(s.trace, o, p.id); }
    }
  }

  lemma ClaimSpacedRow(s: System, id: Id, at: int)
    requires Inv(s) && AllSpaced(s) && Claimable(s, id, at)
    ensures var s1, n := AfterClaim(s, id, at), s.rows[id].attemptCount + 1;
            && Spaced(s1, id)
            && FirstAttempt(s1.trace, id).Some? && FirstAttempt(s1.trace, id).value + 1000 * Offset(n) <= at
  {
    var n := s.rows[id].attemptCount + 1;
    Append(s.trace, Attempt(id, n, at), id);
    assert Spaced(s, id) && RowOk(s.rows[id], s.maxAttempts);
    assert n == 1 ==> Offset(n) == 0;
  }

  lemma FailureSpaced(s: System, c: Claim, at: int)
    requires Inv(s) && AllSpaced(s) && At(s, c, Failing) && Stamped(s, MarkFailure(c, at, true))
    ensures AllSpaced(AfterMarkFailure(s, c, at, true))
  {
    var o, s1 := ExhaustedEvent(c.id, c.attempt), AfterMarkFailure(s, c, at, true);
    forall i ensures FirstAttempt(s1.trace, i) == FirstAttempt(s.trace, i) { Append(s.trace, o, i); }
    assert Spaced(s, c.id) && WorkerOk(s, c);
    forall i | i in s1.rows ensures Spaced(s1, i) { if i != c.id { assert Spaced(s, i); } }
  }

  /** Steps that read no clock touch neither attempt counts nor retry times, and a row changes
      only to SENT. */
  ghost predicate Untimed(s: System, s1: System) {
    && (forall i :: i in s.rows ==> i in s1.rows && s1.rows[i] in {s.rows[i], s.rows[i].(status := SENT)})
    && (forall i :: i in s1.rows && i !in s.rows ==> s1.rows[i].attemptCount == 0 && s1.rows[i].status == PENDING)
    && (s1.trace == s.trace || exists id, n :: s1.trace == s.trace + [Call(id, n)])
  }

  lemma UntimedEffect(s: System, e: Event)
    requires !e.Deliver? && !e.MarkFailure?
    ensures Untimed(s, Step(s, e))
  {
  }

  lemma SameAttempts(s: System, s1: System, i: Id)
    requires Untimed(s, s1)
    ensures FirstAttempt(s1.trace, i) == FirstAttempt(s.trace, i)
    ensures forall o :: o in s1.trace && o.Attempt? ==> o in s.trace
  {
    if s1.trace != s.trace {
      var id, n :| s1.trace == s.trace + [Call(id, n)];
      Append(s.trace, Call(id, n), i);
    }
  }

  lemma UntimedSpaced(s: System, s1: System)
    requires AllSpaced(s) && Untimed(s, s1)
    ensures AllSpaced(s1)
  {
    forall i ensures FirstAttempt(s1.trace, i) == FirstAttempt(s.trace, i) { SameAttempts(s, s1, i); }
    forall i | i in s1.rows ensures Spaced(s1, i) { if i in s.rows { assert Spaced(s, i); } }
    forall o | o in s1.trace && o.Attempt? ensures o in s.trace { SameAttempts(s, s1, o.id); }
  }

  lemma SpacedStep(s: System, e: Event)
    requires Inv(s) && AllSpaced(s) && Stamped(s, e)
    ensures AllSpaced(Step(s, e))
  {
    match e
    case Deliver(id, at) => ClaimSpaced(s, id, at);
    case MarkFailure(c, at, ok) => if At(s, c, Failing) && ok { FailureSpaced(s, c, at); }
    case _ =>
      UntimedEffect(s, e);
      UntimedSpaced(s, Step(s, e));
  }

  lemma {:induction false} RunSpaced(maxAttempts: nat, events: seq<Event>)
    requires FailuresFollowClaims(maxAttempts, events)
    ensures AllSpaced(Run(maxAttempts, events))
  {
    if events != [] {
      var k := |events| - 1;
      forall n | 0 <= n < k ensures Stamped(Run(maxAttempts, events[..k][..n]), events[..k][n]) {
        assert events[..k][..n] == events[..n];
      }
      RunKeeps(maxAttempts, events[..k]);
      RunSpaced(maxAttempts, events[..k]);
      SpacedStep(Run(maxAttempts, events[..k]), events[k]);
    }
  }

  /** Seconds, in closed form, between the first attempt and the n-th at the least. */
  function Spacing(n: nat): int
    requires n >= 1
  {
    if n <= 7 then 60 * (Pow2(n - 1) - 1) else 3780 + 3600 * (n - 7)
  }

  lemma OffsetIsSpacing(n: nat)
    requires n >= 1
    ensures Offset(n) == Spacing(n)
  {
    OffsetClosed(n);
  }

  /** The n-th attempt of a row starts no sooner after the first than the delays add up to:
      60 (2^(n-1) - 1) seconds up to the seventh, and 3600 more for each one after it. */
  lemma {:induction false} AttemptsSpaced(maxAttempts: nat, events: seq<Event>, o: Observation)
    requires FailuresFollowClaims(maxAttempts, events)
    requires o in Run(maxAttempts, events).trace && o.Attempt? && o.attempt >= 1
    ensures var first := FirstAttempt(Run(maxAttempts, events).trace, o.id);
            first.Some? && o.at >= first.value + 1000 * Spacing(o.attempt)
  {
    RunSpaced(maxAttempts, events);
    OffsetIsSpacing(o.attempt);
  }
}
