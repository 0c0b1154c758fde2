/** What becomes of a delivery: SENT only after the webhook answered well, and otherwise tried again
    at exactly the time the backoff gives, until no attempt is left. */
module AlertOutcomes {
  import opened Options
  import opened AlertDelivery
  import opened AlertDeliveryLaws

  // ---------------------------------------------------------------- sent means answered

  /** The webhook was called for the claim and then answered with success. */
  ghost predicate Answered(maxAttempts: nat, events: seq<Event>, c: Claim) {
    exists n :: 0 <= n < |events| && events[n] == WebhookAnswered(c, true)
                && Call(c.id, c.attempt) in Run(maxAttempts, events[..n]).trace
  }

  /** What a phase or status says about the claim. */
  ghost predicate Answers(maxAttempts: nat, events: seq<Event>) {
    var s := Run(maxAttempts, events);
    && (forall c :: c in s.workers && s.workers[c] == Requested ==> Call(c.id, c.attempt) in s.trace)
    && (forall c :: c in s.workers && s.workers[c] in {Accepted, Stored} ==> Answered(maxAttempts, events, c))
    && (forall id :: id in s.rows && s.rows[id].status == SENT ==>
          Answered(maxAttempts, events, Claim(id, s.rows[id].attemptCount)))
  }

  lemma AnsweredStays(maxAttempts: nat, events: seq<Event>, e: Event, c: Claim)
    requires Answered(maxAttempts, events, c)
    ensures Answered(maxAttempts, events + [e], c)
  {
    var n :| 0 <= n < |events| && events[n] == WebhookAnswered(c, true)
             && Call(c.id, c.attempt) in Run(maxAttempts, events[..n]).trace;
    var longer := events + [e];
    assert longer[n] == events[n] && longer[..n] == events[..n];
  }

  lemma AnsweredNow(maxAttempts: nat, events: seq<Event>, c: Claim)
    requires Call(c.id, c.attempt) in Run(maxAttempts, events).trace
    ensures Answered(maxAttempts, events + [WebhookAnswered(c, true)], c)
  {
    var longer, n := events + [WebhookAnswered(c, true)], |events|;
    assert longer[n] == WebhookAnswered(c, true) && longer[..n] == events;
  }

  lemma StepAnswers(maxAttempts: nat, events: seq<Event>, e: Event)
    requires Answers(maxAttempts, events) && Inv(Run(maxAttempts, events))
    ensures Answers(maxAttempts, events + [e])
  {
    hide Answered, Step, Inv;
    var s, longer := Run(maxAttempts, events), events + [e];
    assert longer[..|events|] == events;
    var t := Run(maxAttempts, longer);
    assert t == Step(s, e);
    forall c | Answered(maxAttempts, events, c) ensures Answered(maxAttempts, longer, c) {
      AnsweredStays(maxAttempts, events, e, c);
    }
    forall c | c in t.workers
      ensures t.workers[c] == Requested ==> Call(c.id, c.attempt) in t.trace
      ensures t.workers[c] in {Accepted, Stored} ==> Answered(maxAttempts, longer, c)
    {
      PhaseStep(s, e, c);
      if e == WebhookAnswered(c, true) && At(s, c, Requested) { AnsweredNow(maxAttempts, events, c); }
    }
    forall id | id in t.rows && t.rows[id].status == SENT
      ensures Answered(maxAttempts, longer, Claim(id, t.rows[id].attemptCount))
    {
      SentStep(s, e, id);
    }
  }

  /** How a worker comes to a phase. */
  lemma PhaseStep(s: System, e: Event, c: Claim)
    requires c in Step(s, e).workers
    ensures var t := Step(s, e);
            && (t.workers[c] == Requested ==> At(s, c, Requested) || Call(c.id, c.attempt) in t.trace)
            && (t.workers[c] in {Accepted, Stored} ==>
                  At(s, c, Accepted) || At(s, c, Stored) || (e == WebhookAnswered(c, true) && At(s, c, Requested)))
            && (forall o :: o in s.trace ==> o in t.trace)
  {
  }

  /** How a row comes to be SENT. */
  lemma SentStep(s: System, e: Event, id: Id)
    requires Inv(s) && id in Step(s, e).rows && Step(s, e).rows[id].status == SENT
    ensures var r := Step(s, e).rows[id];
            || (id in s.rows && s.rows[id].status == SENT && s.rows[id].attemptCount == r.attemptCount)
            || At(s, Claim(id, r.attemptCount), Accepted)
  {
    hide TrafficOk, RowOk;
    if e.StoreSent? && At(s, e.c, Accepted) { assert WorkerOk(s, e.c); }
  }

  lemma {:induction false} RunAnswers(maxAttempts: nat, events: seq<Event>)
    ensures Answers(maxAttempts, events)
  {
    hide Step, Inv, Answered;
    if events != [] {
      var n := |events| - 1;
      RunAnswers(maxAttempts, events[..n]);
      RunKeeps(maxAttempts, events[..n]);
      StepAnswers(maxAttempts, events[..n], events[n]);
      assert events[..n] + [events[n]] == events;
    }
  }

  /** In every run, a row is SENT only if the webhook was called for its last claim and answered
      that call with success. */
  lemma {:induction false} SentWasAnswered(maxAttempts: nat, events: seq<Event>, id: Id)
    requires var s := Run(maxAttempts, events); id in s.rows && s.rows[id].status == SENT
    ensures Answered(maxAttempts, events, Claim(id, Run(maxAttempts, events).rows[id].attemptCount))
  {
    RunAnswers(maxAttempts, events);
  }

  // ---------------------------------------------------------------- failed means tried again

  /** A row waiting for its next attempt changes only by being claimed when it is due. */
  lemma WaitingStep(s: System, e: Event, id: Id)
    requires Inv(s) && id in s.rows && s.rows[id].status == FAILED
    requires !(e.Deliver? && e.id == id && e.now >= s.rows[id].nextAttemptAt)
    ensures id in Step(s, e).rows && Step(s, e).rows[id] == s.rows[id]
  {
    hide TrafficOk, RowOk;
    assert forall c :: c in s.workers && c.id == id ==> WorkerOk(s, c);
  }

  lemma {:induction false} WaitingStays(s: System, more: seq<Event>, id: Id, due: int)
    requires Inv(s) && id in s.rows && s.rows[id].status == FAILED && s.rows[id].nextAttemptAt == due
    requires forall e :: e in more && e.Deliver? && e.id == id ==> e.now < due
    ensures var t := RunFrom(s, more);
            Inv(t) && id in t.rows && t.rows[id] == s.rows[id] && t.maxAttempts == s.maxAttempts
  {
    hide Step, Inv;
    if more != [] {
      var n := |more| - 1;
      assert more[n] in more && forall e :: e in more[..n] ==> e in more;
      WaitingStays(s, more[..n], id, due);
      WaitingStep(RunFrom(s, more[..n]), more[n], id);
      StepKeeps(RunFrom(s, more[..n]), more[n]);
      LimitKept(RunFrom(s, more[..n]), more[n]);
    }
  }

  lemma LimitKept(s: System, e: Event)
    ensures Step(s, e).maxAttempts == s.maxAttempts
  {
  }

  /** The delay after the n-th attempt is the step of the closed form. */
  lemma DelayIsStep(n: nat)
    requires n >= 1
    ensures DelaySeconds(n) == Spacing(n + 1) - Spacing(n)
  {
    OffsetIsSpacing(n);
    OffsetIsSpacing(n + 1);
  }

  /** A failure recorded at time now, with an attempt left, makes the row FAILED; from then on,
      until it is claimed, it can be claimed at exactly the times from the end of the delay on, and
      a claim is the next attempt. */
  lemma {:induction false} RetryAfterFailure(
    maxAttempts: nat, events: seq<Event>, c: Claim, now: int, more: seq<Event>, at: int)
    requires var s := Run(maxAttempts, events);
             At(s, c, Failing) && c.id in s.rows && s.rows[c.id].status == SENDING && 1 <= c.attempt < maxAttempts
    requires forall e :: e in more && e.Deliver? && e.id == c.id ==>
               e.now < now + 1000 * (Spacing(c.attempt + 1) - Spacing(c.attempt))
    ensures var t := RunFrom(Step(Run(maxAttempts, events), MarkFailure(c, now, true)), more);
            var due := now + 1000 * (Spacing(c.attempt + 1) - Spacing(c.attempt));
            && c.id in t.rows && t.rows[c.id].status == FAILED
            && (Claimable(t, c.id, at) <==> at >= due)
            && (at >= due ==> AfterClaim(t, c.id, at).trace == t.trace + [Attempt(c.id, c.attempt + 1, at)])
  {
    RunKeeps(maxAttempts, events);
    var s := Run(maxAttempts, events);
    var failed := Step(s, MarkFailure(c, now, true));
    StepKeeps(s, MarkFailure(c, now, true));
    DelayIsStep(c.attempt);
    assert WorkerOk(s, c);
    WaitingStays(failed, more, c.id, now + 1000 * DelaySeconds(c.attempt));
  }

  // ---------------------------------------------------------------- one attempt

  /** How one attempt goes: the alert is found, the webhook answers well, SENT is stored, the alert
      is touched, and a failure is recorded at time now. */
  datatype Course = Course(found: bool, answered: bool, stored: bool, touched: bool, now: int, recorded: bool)

  /** deliver from its claim to its end; steps that are not reached do nothing. */
  function Attempted(s: System, id: Id, at: int, k: Course): System
    requires id in s.rows
  {
    var c := Claim(id, s.rows[id].attemptCount + 1);
    var s1 := Step(Step(s, Deliver(id, at)), AlertLoaded(c, k.found));
    var s2 := Step(Step(s1, CallWebhook(c)), WebhookAnswered(c, k.answered));
    var s3 := Step(Step(s2, StoreSent(c, k.stored)), TouchAlert(c, k.touched));
    Step(s3, MarkFailure(c, k.now, k.recorded))
  }

  predicate Succeeds(k: Course) { k.found && k.answered && k.stored }

  /** The claimed row before the alert is touched. */
  ghost predicate Reaches(x: System, c: Claim, k: Course, y: System)
    requires c.id in x.rows
  {
    && y.maxAttempts == x.maxAttempts
    && y.workers == x.workers[c := if Succeeds(k) then Stored else Failing]
    && y.rows == (if Succeeds(k) then x.rows[c.id := x.rows[c.id].(status := SENT)] else x.rows)
    && y.trace == x.trace + if k.found then [Call(c.id, c.attempt)] else []
  }

  lemma CallReaches(x: System, c: Claim, k: Course)
    requires At(x, c, Claimed) && c.id in x.rows && x.rows[c.id].status == SENDING
    ensures var y := Step(Step(Step(x, AlertLoaded(c, k.found)), CallWebhook(c)), WebhookAnswered(c, k.answered));
            Reaches(x, c, k, Step(y, StoreSent(c, k.stored)))
  {
    var x1 := Step(x, AlertLoaded(c, k.found));
    var x2 := Step(x1, CallWebhook(c));
    var x3 := Step(x2, WebhookAnswered(c, k.answered));
    assert x1.workers == x.workers[c := if k.found then Found else Failing] && x1.trace == x.trace;
    assert x2.workers == x.workers[c := if k.found then Requested else Failing];
    assert x3.workers == x.workers[c := if k.found && k.answered then Accepted else Failing];
  }

  /** The end of a worker that reached Stored or has an error to record. */
  lemma WorkerEnds(y: System, c: Claim, k: Course)
    requires c in y.workers && c.id in y.rows
    requires if Succeeds(k) then y.workers[c] == Stored && y.rows[c.id].status == SENT
             else y.workers[c] == Failing && y.rows[c.id].status == SENDING
    ensures var t := Step(Step(y, TouchAlert(c, k.touched)), MarkFailure(c, k.now, k.recorded));
            var failed := !Succeeds(k) && k.recorded;
            && t.workers == y.workers - {c} && t.maxAttempts == y.maxAttempts
            && t.trace == y.trace + (if k.recorded && c.attempt >= y.maxAttempts && !(Succeeds(k) && k.touched)
                                     then [ExhaustedEvent(c.id, c.attempt)] else [])
            && t.rows == (if failed then
                            y.rows[c.id := y.rows[c.id].(
                                     status := if c.attempt >= y.maxAttempts then EXHAUSTED else FAILED,
                                     nextAttemptAt := k.now + 1000 * DelaySeconds(c.attempt))]
                          else y.rows)
  {
    hide DelaySeconds;
    var y1 := Step(y, TouchAlert(c, k.touched));
    assert y1.workers - {c} == y.workers - {c};
  }

  /** What an attempt that nothing interrupts leaves of its row, in every case and from every state
      a run can reach. */
  lemma AttemptOutcome(s: System, id: Id, at: int, k: Course)
    requires Inv(s) && Claimable(s, id, at)
    ensures var n := s.rows[id].attemptCount + 1;
            var t := Attempted(s, id, at, k);
            && id in t.rows && t.rows[id].attemptCount == n && t.workers == s.workers
            && t.rows[id].status == (if Succeeds(k) then SENT else if !k.recorded then SENDING
                                     else if n < s.maxAttempts then FAILED else EXHAUSTED)
            && (t.rows[id].status == FAILED ==>
                  t.rows[id].nextAttemptAt == k.now + 1000 * (Spacing(n + 1) - Spacing(n)))
            && Calls(t.trace, id) == Calls(s.trace, id) + (if k.found then 1 else 0)
            && Events(t.trace, id) == Events(s.trace, id)
               + (if k.recorded && n == s.maxAttempts && !(Succeeds(k) && k.touched) then 1 else 0)
            && forall i :: i != id ==> (i in t.rows <==> i in s.rows) && (i in s.rows ==> t.rows[i] == s.rows[i])
  {
    hide Calls, Events, Spacing, DelaySeconds, AfterLoad, AfterCall, AfterResponse, AfterStore, AfterTouch,
      AfterMarkFailure, RowOk, TrafficOk;
    var n := s.rows[id].attemptCount + 1;
    var c := Claim(id, n);
    assert c in s.workers ==> WorkerOk(s, c);
    DelayIsStep(n);
    var x := Step(s, Deliver(id, at));
    CallReaches(x, c, k);
    var y := Step(Step(Step(Step(x, AlertLoaded(c, k.found)), CallWebhook(c)), WebhookAnswered(c, k.answered)),
                  StoreSent(c, k.stored));
    WorkerEnds(y, c, k);
    AttemptTraffic(s.trace, id, n, at, k.found, k.recorded && n >= s.maxAttempts && !(Succeeds(k) && k.touched));
  }

  lemma AttemptTraffic(trace: seq<Observation>, id: Id, n: nat, at: int, called: bool, exhausted: bool)
    ensures var after := (trace + [Attempt(id, n, at)] + if called then [Call(id, n)] else [])
                         + if exhausted then [ExhaustedEvent(id, n)] else [];
            && Calls(after, id) == Calls(trace, id) + (if called then 1 else 0)
            && Events(after, id) == Events(trace, id) + (if exhausted then 1 else 0)
  {
    hide Calls, Events;
    var one := trace + [Attempt(id, n, at)];
    var two := one + if called then [Call(id, n)] else [];
    Append(trace, Attempt(id, n, at), id);
    Append(one, Call(id, n), id);
    Append(two, ExhaustedEvent(id, n), id);
  }
}
