/** When a locked target is let go: exactly after which reads, that every lock can still be let go,
    and that a released target can be sent again. */
module OperatorRelease {
  import opened Options
  import opened OperatorLocks
  import opened OperatorLocksLaws

  const NO_FAULTS := Faults(false, {}, false)

  predicate Locked(s: Tab, t: Target) { t in s.records && t in s.storage }

  predicate Released(s: Tab, t: Target) { t !in s.records && t !in s.storage }

  function RunFrom(s: Tab, events: seq<Event>): Tab {
    if events == [] then s else Step(RunFrom(s, events[..|events| - 1]), events[|events| - 1])
  }

  // ---------------------------------------------------------------- a read lets go

  /** In every run, an answered read of a current lock lets its target go, in memory and in storage,
      if and only if it succeeded, storage can be written, and it shows the target as done or the
      attempt was refused; otherwise the target stays locked and marked. */
  lemma {:induction false} ReleasedIff(
    hook: Hook, events: seq<Event>, d: Read, ok: bool, terminal: bool, f: Faults)
    requires var s := Run(hook, events); d in s.checks && Current(s, d.target, d.serial)
    ensures var s := Run(hook, events);
            var u := Step(s, ReadAnswered(d, ok, terminal, f));
            && (Released(u, d.target) <==> ok && !f.write && (terminal || s.records[d.target].rejected))
            && (!Released(u, d.target) ==> Locked(u, d.target))
  {
    LocksHaveMarkers(hook, events);
  }

  // ---------------------------------------------------------------- refusals are remembered

  /** Whatever is known of the target says that its attempt was refused. */
  predicate KnownRefused(s: Tab, t: Target) {
    && (t in s.storage ==> s.storage[t].OutcomeRejected?)
    && (t in s.records ==> s.records[t].rejected && !s.records[t].pending)
  }

  /** The event sends no POST for the target. */
  predicate NotSending(s: Tab, e: Event, t: Target) {
    Step(s, e).trace != s.trace + [Sent(t, s.nextSerial)]
  }

  lemma RefusedAnswer(s: Tab, p: Post, a: Answer, f: Faults, t: Target)
    requires InFlight(s) && KnownRefused(s, t)
    ensures KnownRefused(AfterAnswer(s, p, a, f), t)
  {
    hide InFlight, Status;
    if p in s.posts && Current(s, p.target, p.serial) {
      PostIsPending(s, p);
      assert p.target != t;
      var u := AfterAnswer(s, p, a, f);
      assert !a.Success? ==> u.records == s.records[p.target := u.records[p.target]];
    }
  }

  lemma PostIsPending(s: Tab, p: Post)
    requires InFlight(s) && p in s.posts && Current(s, p.target, p.serial)
    ensures s.records[p.target].pending
  {
    hide Status;
  }

  lemma RefusedSubmit(s: Tab, u: Target, allowed: bool, f: Faults, t: Target)
    requires KnownRefused(s, t) && AfterSubmit(s, u, allowed, f).trace != s.trace + [Sent(t, s.nextSerial)]
    ensures KnownRefused(AfterSubmit(s, u, allowed, f), t)
  {
  }

  lemma RefusedStep(s: Tab, e: Event, t: Target)
    requires Inv(s) && KnownRefused(s, t) && NotSending(s, e, t)
    ensures KnownRefused(Step(s, e), t)
  {
    hide Agrees, InFlight, BusyIsOnePending, SelectedLoaded, AfterSubmit, AfterAnswer, AfterReload, AfterSelect,
      AfterReconcile, AfterRead, AfterEdit, KnownRefused;
    match e
    case Submit(u, allowed, f) => RefusedSubmit(s, u, allowed, f, t);
    case Answered(p, a, f) => RefusedAnswer(s, p, a, f, t);
    case _ => RefusedOther(s, e, t);
  }

  lemma RefusedOther(s: Tab, e: Event, t: Target)
    requires KnownRefused(s, t) && !e.Submit? && !e.Answered?
    ensures KnownRefused(Step(s, e), t)
  {
  }

  /** A refusal that storage took is remembered through any steps, reloads included, until the
      target is sent again: whenever it is locked, the lock says refused. */
  lemma {:induction false} RefusalRemembered(s: Tab, more: seq<Event>, t: Target)
    requires Inv(s) && KnownRefused(s, t)
    requires forall n :: 0 <= n < |more| ==> NotSending(RunFrom(s, more[..n]), more[n], t)
    ensures Inv(RunFrom(s, more)) && KnownRefused(RunFrom(s, more), t)
  {
    hide Inv, KnownRefused, Step;
    if more != [] {
      var k := |more| - 1;
      forall n | 0 <= n < k ensures NotSending(RunFrom(s, more[..k][..n]), more[..k][n], t) {
        assert more[..k][..n] == more[..n] && more[..k][n] == more[n];
      }
      RefusalRemembered(s, more[..k], t);
      StepKeeps(RunFrom(s, more[..k]), more[k]);
      RefusedStep(RunFrom(s, more[..k]), more[k], t);
    }
  }

  lemma RefusalStored(s: Tab, p: Post, f: Faults)
    requires Inv(s) && p in s.posts && Current(s, p.target, p.serial) && !f.write
    ensures KnownRefused(Step(s, Answered(p, Refusal, f)), p.target)
  {
    hide Agrees, InFlight, BusyIsOnePending, SelectedLoaded;
  }

  /** After a refusal, whatever follows short of another POST for the target, any successful read of
      its lock lets it go while storage works, even one that does not show it as done. */
  lemma {:induction false} RefusedIsReleased(
    hook: Hook, events: seq<Event>, p: Post, f: Faults, more: seq<Event>, d: Read, terminal: bool, g: Faults)
    requires var s := Run(hook, events); p in s.posts && Current(s, p.target, p.serial) && !f.write && !g.write
    requires var s := Step(Run(hook, events), Answered(p, Refusal, f));
             forall n :: 0 <= n < |more| ==> NotSending(RunFrom(s, more[..n]), more[n], p.target)
    requires var s := RunFrom(Step(Run(hook, events), Answered(p, Refusal, f)), more);
             d in s.checks && d.target == p.target && Current(s, d.target, d.serial)
    ensures var s := RunFrom(Step(Run(hook, events), Answered(p, Refusal, f)), more);
            Released(Step(s, ReadAnswered(d, true, terminal, g)), p.target)
  {
    RunKeeps(hook, events);
    var s := Run(hook, events);
    var refused := Step(s, Answered(p, Refusal, f));
    RefusalStored(s, p, f);
    StepKeeps(s, Answered(p, Refusal, f));
    RefusalRemembered(refused, more, p.target);
    LetsGo(RunFrom(refused, more), d, terminal, g);
  }

  lemma LetsGo(s: Tab, d: Read, terminal: bool, g: Faults)
    requires d in s.checks && Current(s, d.target, d.serial) && !g.write
    requires terminal || KnownRefused(s, d.target)
    ensures Released(Step(s, ReadAnswered(d, true, terminal, g)), d.target)
  {
  }

  // ---------------------------------------------------------------- and may be sent again

  /** What an allowed submission needs besides a free target. */
  predicate Ready(s: Tab, t: Target, f: Faults) {
    && !s.busy && !f.write
    && match s.hook
       case Assignment => !f.read
       case Verification => !f.read && s.selected == Some(t)
       case Dispute => !s.blocked && s.selected == Some(t)
  }

  /** For a target that was let go, a submission sends exactly one POST if it is allowed, nothing
      else is pending, the target is the selected one where one is selected, and storage works;
      otherwise none. */
  lemma {:induction false} ReleasedSendsIff(s: Tab, t: Target, allowed: bool, f: Faults)
    requires Released(s, t)
    ensures var u := Step(s, Submit(t, allowed, f));
            if allowed && Ready(s, t, f)
            then u.trace == s.trace + [Sent(t, s.nextSerial)] && Post(t, s.nextSerial) in u.posts && Locked(u, t)
            else u.trace == s.trace && u.posts == s.posts
  {
  }

  // ---------------------------------------------------------------- every lock can be let go

  /** Every lock that waits has its request in flight. */
  ghost predicate Awaited(s: Tab) {
    forall t :: t in s.records ==>
      var r := s.records[t];
      && (r.pending ==> Post(t, r.serial) in s.posts)
      && (r.checking ==> exists d :: d in s.checks && d.target == t && d.serial == r.serial)
  }

  lemma AnswerAwaited(s: Tab, p: Post, a: Answer, f: Faults)
    requires Awaited(s)
    ensures Awaited(AfterAnswer(s, p, a, f))
  {
    var u := AfterAnswer(s, p, a, f);
    if p in s.posts && Current(s, p.target, p.serial) && a.Success? && !s.records[p.target].checking {
      assert Read(s.nextRead, p.target, p.serial) in u.checks;
    }
    forall t | t in u.records && u.records[t].checking
      ensures exists d :: d in u.checks && d.target == t && d.serial == u.records[t].serial
    {
      if s.records[t].checking {
        var d :| d in s.checks && d.target == t && d.serial == s.records[t].serial;
        assert d in u.checks;
      }
    }
  }

  lemma ReconcileAwaited(s: Tab, t: Target)
    requires Awaited(s)
    ensures Awaited(AfterReconcile(s, t))
  {
    var u := AfterReconcile(s, t);
    forall v | v in u.records && u.records[v].checking
      ensures exists d :: d in u.checks && d.target == v && d.serial == u.records[v].serial
    {
      if s.records[v].checking {
        var d :| d in s.checks && d.target == v && d.serial == s.records[v].serial;
        assert d in u.checks;
      } else {
        assert Read(s.nextRead, t, s.records[t].serial) in u.checks;
      }
    }
  }

  lemma ReadAwaited(s: Tab, d: Read, ok: bool, terminal: bool, f: Faults)
    requires Awaited(s)
    ensures Awaited(AfterRead(s, d, ok, terminal, f))
  {
    var u := AfterRead(s, d, ok, terminal, f);
    forall t | t in u.records && u.records[t].checking
      ensures exists e :: e in u.checks && e.target == t && e.serial == u.records[t].serial
    {
      var e :| e in s.checks && e.target == t && e.serial == s.records[t].serial;
      assert e in u.checks;
    }
  }

  lemma SubmitAwaited(s: Tab, t: Target, allowed: bool, f: Faults)
    requires Awaited(s)
    ensures Awaited(AfterSubmit(s, t, allowed, f))
  {
    var u := AfterSubmit(s, t, allowed, f);
    assert u.checks == s.checks && s.posts <= u.posts;
  }

  lemma StepAwaited(s: Tab, e: Event)
    requires Awaited(s)
    ensures Awaited(Step(s, e))
  {
    hide AfterAnswer, AfterReconcile, AfterRead, AfterSubmit;
    match e
    case Submit(t, allowed, f) => SubmitAwaited(s, t, allowed, f);
    case Answered(p, a, f) => AnswerAwaited(s, p, a, f);
    case Reconcile(t) => ReconcileAwaited(s, t);
    case ReadAnswered(d, ok, terminal, f) => ReadAwaited(s, d, ok, terminal, f);
    case _ =>
  }

  lemma {:induction false} RunAwaited(hook: Hook, events: seq<Event>)
    ensures Awaited(Run(hook, events))
  {
    if events != [] {
      RunAwaited(hook, events[..|events| - 1]);
      StepAwaited(Run(hook, events[..|events| - 1]), events[|events| - 1]);
    }
  }

  lemma OneMore(s: Tab, more: seq<Event>, e: Event)
    ensures RunFrom(s, []) == s && RunFrom(s, more + [e]) == Step(RunFrom(s, more), e)
  {
    assert (more + [e])[..|more|] == more;
  }

  /** The answer to the POST of a lock, or a read asked for, leads to a current read in flight. */
  lemma ReadFollows(s: Tab, t: Target) returns (more: seq<Event>, d: Read)
    requires Awaited(s) && t in s.records
    ensures var u := RunFrom(s, more);
            |more| <= 1 && d in u.checks && d.target == t && Current(u, t, d.serial)
  {
    var r := s.records[t];
    if r.checking && !r.pending {
      more := [];
      OneMore(s, [], Reconcile(t));
      d :| d in s.checks && d.target == t && d.serial == r.serial;
    } else {
      var e := if r.pending then Answered(Post(t, r.serial), Success, NO_FAULTS) else Reconcile(t);
      more := [] + [e];
      OneMore(s, [], e);
      StepAwaited(s, e);
      var u := Step(s, e);
      assert t in u.records && u.records[t].serial == r.serial && u.records[t].checking;
      d :| d in u.checks && d.target == t && d.serial == r.serial;
    }
  }

  /** From every state of every run, each lock can still be let go: its POST or a fresh read is
      answered, and then a read that shows the target as done. */
  lemma {:induction false} EveryLockCanGo(hook: Hook, events: seq<Event>, t: Target) returns (more: seq<Event>)
    requires t in Run(hook, events).records
    ensures Released(RunFrom(Run(hook, events), more), t) && |more| <= 2
  {
    var s := Run(hook, events);
    RunAwaited(hook, events);
    var before, d := ReadFollows(s, t);
    LetsGo(RunFrom(s, before), d, true, NO_FAULTS);
    OneMore(s, before, ReadAnswered(d, true, true, NO_FAULTS));
    more := before + [ReadAnswered(d, true, true, NO_FAULTS)];
  }

  // ---------------------------------------------------------------- reloads

  /** What a reload restores in any run: the assignment hook locks exactly the targets whose marker it
      can read, or says that storage failed; the other hooks lock a target when it is selected. */
  lemma {:induction false} ReloadRestores(hook: Hook, events: seq<Event>, f: Faults, t: Target, g: Faults)
    ensures var s := Run(hook, events);
            var u := Step(s, Reload(f));
            && u.storage == s.storage && u.trace == s.trace && !u.busy && u.selected == None
            && (u.blocked <==> hook == Assignment && f.read)
            && (t in u.records <==> hook == Assignment && !f.read && t in s.storage && t !in f.hidden)
            && (t in u.records ==> !u.records[t].pending && !u.records[t].checking
                                   && (u.records[t].rejected <==> s.storage[t] == OutcomeRejected))
            && (hook != Assignment ==>
                  var v := Step(u, Select(t, g));
                  && v.selected == Some(t)
                  && (t in v.records <==> t in s.storage && !g.read)
                  && (hook == Dispute ==> (v.blocked <==> g.read)))
  {
    HookKept(hook, events);
  }

  // ---------------------------------------------------------------- answers

  /** What the answer to a lock's own POST leaves: nothing is pending any more. A success starts the
      read that will tell; a refusal is remembered, in storage too where it can be written; anything
      else leaves the outcome unknown. The target stays locked and marked in every case. */
  lemma {:induction false} AnswerLeaves(hook: Hook, events: seq<Event>, p: Post, a: Answer, f: Faults)
    requires var s := Run(hook, events); p in s.posts && Current(s, p.target, p.serial)
    ensures var s := Run(hook, events);
            var u := Step(s, Answered(p, a, f));
            && Locked(u, p.target) && !u.records[p.target].pending && !u.busy
            && (a == Refusal ==> u.records[p.target].rejected && !u.records[p.target].checking
                                 && (!f.write ==> u.storage[p.target] == OutcomeRejected))
            && (a != Refusal ==> u.records[p.target].rejected == s.records[p.target].rejected)
            && (a == Success ==> u.records[p.target].checking
                                 && ReadIssued(p.target, s.nextRead) in u.trace)
            && (a == Ambiguous ==> u.records[p.target].error && !u.records[p.target].checking
                                   && u.trace == s.trace)
  {
    LocksHaveMarkers(hook, events);
    RunFree(hook, events);
    hide Inv;
    var s := Run(hook, events);
    var u := Step(s, Answered(p, a, f));
    PostIsPendingIn(hook, events, p);
    assert !WaitsTwice(s, p.target);
    if a == Success { assert u.trace[|s.trace|] == ReadIssued(p.target, s.nextRead); }
  }

  lemma {:induction false} PostIsPendingIn(hook: Hook, events: seq<Event>, p: Post)
    requires p in Run(hook, events).posts && Current(Run(hook, events), p.target, p.serial)
    ensures Run(hook, events).records[p.target].pending
  {
    RunKeeps(hook, events);
    PostIsPending(Run(hook, events), p);
  }

  predicate WaitsTwice(s: Tab, t: Target) { t in s.records && s.records[t].pending && s.records[t].checking }

  /** A lock waits for its POST or for a read, never for both. */
  lemma {:induction false} RunFree(hook: Hook, events: seq<Event>)
    ensures forall t :: !WaitsTwice(Run(hook, events), t)
  {
    hide Step;
    if events != [] {
      RunFree(hook, events[..|events| - 1]);
      StepFree(Run(hook, events[..|events| - 1]), events[|events| - 1]);
    }
  }

  lemma StepFree(s: Tab, e: Event)
    requires forall t :: !WaitsTwice(s, t)
    ensures forall t :: !WaitsTwice(Step(s, e), t)
  {
    forall t ensures !WaitsTwice(Step(s, e), t) { assert !WaitsTwice(s, t); }
  }
}
