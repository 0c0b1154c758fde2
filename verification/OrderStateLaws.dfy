/** Every command is based on a read issued after all earlier commands on that order ended. */
module OrderStateLaws {
  import opened Options
  import opened OrderState

  datatype Event =
    | Render(id: string, changed: bool)
    | RunEffect
    | Unmount
    | Refresh(id: string)
    | NetworkState(online: bool)
    | ReadAnswered(id: string, request: nat, ok: bool)
    | Mutate(c: Closure, onLine: bool)
    | ActionDone

  /** Any event may come at any time, except that a render waits for pending effects, and a
      read is answered only after it was issued. */
  predicate Enabled(s: Hook, e: Event) {
    match e
    case Render(_, _) => !s.effectPending
    case RunEffect => s.effectPending
    case ReadAnswered(id, request, _) => ReadIssued(id, request) in s.trace
    case _ => true
  }

  function Step(s: Hook, e: Event): Hook {
    if !Enabled(s, e) then s
    else match e
      case Render(id, changed) => AfterRender(s, id, changed)
      case RunEffect => AfterEffect(s)
      case Unmount => AfterUnmount(s)
      case Refresh(id) => AfterLoad(s, id)
      case NetworkState(online) => s.(online := online)
      case ReadAnswered(id, request, ok) => AfterRead(s, id, request, ok)
      case Mutate(c, onLine) => AfterMutate(s, c, onLine)
      case ActionDone => AfterAction(s)
  }

  function Run(id: string, events: seq<Event>): Hook {
    if events == [] then Start(id) else Step(Run(id, events[..|events| - 1]), events[|events| - 1])
  }

  // ---------------------------------------------------------------- the promise

  /** The read of this generation and id was issued, and no command on the id ended since. */
  ghost predicate IssuedSinceLast(trace: seq<Observation>, id: string, generation: nat) {
    exists m :: 0 <= m < |trace| && trace[m] == ReadIssued(id, generation)
      && forall j :: m < j < |trace| ==> !(trace[j].Completed? && trace[j].id == id)
  }

  /** Every command was based on such a read. */
  ghost predicate FreshlyBased(trace: seq<Observation>) {
    forall k :: 0 <= k < |trace| && trace[k].Dispatched? ==>
      IssuedSinceLast(trace[..k], trace[k].id, trace[k].generation)
  }

  /** Commands come one after the other: each ends before the next is dispatched. */
  ghost predicate OneAtATime(trace: seq<Observation>) {
    forall i, k :: 0 <= i < k < |trace| && trace[i].Dispatched? && trace[k].Dispatched? ==>
      exists j :: i < j < k && trace[j] == Completed(trace[i].number, trace[i].id)
  }

  // ---------------------------------------------------------------- what every step keeps

  ghost predicate Inv(s: Hook) {
    && FreshlyBased(s.trace) && OneAtATime(s.trace) && CommandsEnd(s)
    // what is verified is the newest read
    && (s.verified.Some? ==>
          s.verified.value.generation == s.generation && ReadIssued(s.verified.value.id, s.generation) in s.trace)
    && (!s.effectPending && s.effectId.Some? ==> s.effectId == Some(s.activeId))
    && (s.locked <==> s.command.Some?)
    && NewestRead(s)
  }

  /** No generation is issued ahead of the current one. Unless an effect is due, the read of the
      current one is for the order shown; and while its order is shown, no command on that
      order has ended since. */
  ghost predicate NewestRead(s: Hook) {
    && (forall o :: o in s.trace && o.ReadIssued? ==> o.generation <= s.generation)
    && (forall id :: ReadIssued(id, s.generation) in s.trace && !s.effectPending ==> id == s.activeId)
    && (forall id :: ReadIssued(id, s.generation) in s.trace && id == s.activeId ==>
          IssuedSinceLast(s.trace, id, s.generation))
  }

  /** Whatever was dispatched has ended, except the command in its action. */
  ghost predicate CommandsEnd(s: Hook) {
    forall i :: 0 <= i < |s.trace| && s.trace[i].Dispatched? ==>
      || Ended(s.trace, i)
      || s.command == Some(InAction(s.trace[i].number, s.trace[i].id))
  }

  ghost predicate Ended(trace: seq<Observation>, i: int)
    requires 0 <= i < |trace| && trace[i].Dispatched?
  {
    exists j :: i < j < |trace| && trace[j] == Completed(trace[i].number, trace[i].id)
  }

  lemma IssuedKept(trace: seq<Observation>, o: Observation, id: string, generation: nat)
    requires IssuedSinceLast(trace, id, generation) && !(o.Completed? && o.id == id)
    ensures IssuedSinceLast(trace + [o], id, generation)
  {
    var after := trace + [o];
    var m :| 0 <= m < |trace| && trace[m] == ReadIssued(id, generation)
      && forall j :: m < j < |trace| ==> !(trace[j].Completed? && trace[j].id == id);
    assert after[m] == trace[m];
    assert forall j :: m < j < |after| ==> !(after[j].Completed? && after[j].id == id);
  }

  lemma BasedKept(trace: seq<Observation>, o: Observation)
    requires FreshlyBased(trace) && (o.Dispatched? ==> IssuedSinceLast(trace, o.id, o.generation))
    ensures FreshlyBased(trace + [o])
  {
    var after := trace + [o];
    forall k | 0 <= k < |after| && after[k].Dispatched?
      ensures IssuedSinceLast(after[..k], after[k].id, after[k].generation) {
      if k < |trace| { assert after[..k] == trace[..k]; } else { assert after[..k] == trace; }
    }
  }

  lemma EndedKept(trace: seq<Observation>, o: Observation)
    ensures forall i :: 0 <= i < |trace| && trace[i].Dispatched? && Ended(trace, i) ==> Ended(trace + [o], i)
  {
    var after := trace + [o];
    forall i | 0 <= i < |trace| && trace[i].Dispatched? && Ended(trace, i) ensures Ended(after, i) {
      var j :| i < j < |trace| && trace[j] == Completed(trace[i].number, trace[i].id);
      assert after[j] == Completed(after[i].number, after[i].id);
    }
  }

  lemma OneAtATimeKept(trace: seq<Observation>, o: Observation)
    requires OneAtATime(trace)
    requires o.Dispatched? ==> forall i :: 0 <= i < |trace| && trace[i].Dispatched? ==> Ended(trace, i)
    ensures OneAtATime(trace + [o])
  {
    var after := trace + [o];
    forall i, k | 0 <= i < k < |after| && after[i].Dispatched? && after[k].Dispatched?
      ensures exists j :: i < j < k && after[j] == Completed(after[i].number, after[i].id)
    {
      if k < |trace| {
        var j :| i < j < k && trace[j] == Completed(trace[i].number, trace[i].id);
        assert after[j] == trace[j];
      } else {
        assert trace[i].Dispatched? && Ended(trace, i);
        var j :| i < j < |trace| && trace[j] == Completed(trace[i].number, trace[i].id);
        assert after[j] == trace[j];
      }
    }
  }

  /** A read is issued for the order that is shown. */
  lemma LoadKeeps(s: Hook, id: string)
    requires Inv(s)
    ensures Inv(AfterLoad(s, id))
  {
    if s.activeId == id {
      var o := ReadIssued(id, s.generation + 1);
      BasedKept(s.trace, o);
      EndedKept(s.trace, o);
      OneAtATimeKept(s.trace, o);
      var s1 := AfterLoad(s, id);
      assert s1.trace[|s.trace|] == o;
      assert IssuedSinceLast(s1.trace, id, s.generation + 1);
    }
  }

  lemma MutateKeeps(s: Hook, c: Closure, onLine: bool)
    requires Inv(s)
    ensures Inv(AfterMutate(s, c, onLine))
  {
    if MayDispatch(s, c, onLine) {
      var o := Dispatched(s.commands, c.id, c.generation);
      BasedKept(s.trace, o);
      EndedKept(s.trace, o);
      OneAtATimeKept(s.trace, o);
      forall id | ReadIssued(id, s.generation) in s.trace && id == s.activeId
        ensures IssuedSinceLast(s.trace + [o], id, s.generation)
      {
        IssuedKept(s.trace, o, id, s.generation);
      }
    }
  }

  /** The command leaves its action; if another order is shown, nothing is read. */
  lemma ActionKeeps(s: Hook)
    requires Inv(s)
    ensures Inv(AfterAction(s))
  {
    if s.command.Some? && s.command.value.InAction? {
      var n, id := s.command.value.number, s.command.value.id;
      var o := Completed(n, id);
      var s1 := s.(trace := s.trace + [o]);
      BasedKept(s.trace, o);
      EndedKept(s.trace, o);
      OneAtATimeKept(s.trace, o);
      LastEnds(s, s1);
      if s.activeId == id {
        ReloadKeeps(s1, n, id);
      } else {
        forall i | ReadIssued(i, s.generation) in s.trace && i == s.activeId
          ensures IssuedSinceLast(s1.trace, i, s.generation)
        {
          IssuedKept(s.trace, o, i, s.generation);
        }
      }
    }
  }

  lemma LastEnds(s: Hook, s1: Hook)
    requires CommandsEnd(s) && s.command.Some? && s.command.value.InAction?
    requires s1 == s.(trace := s.trace + [Completed(s.command.value.number, s.command.value.id)])
    ensures forall i :: 0 <= i < |s1.trace| && s1.trace[i].Dispatched? ==> Ended(s1.trace, i)
  {
    EndedKept(s.trace, Completed(s.command.value.number, s.command.value.id));
    forall i | 0 <= i < |s1.trace| && s1.trace[i].Dispatched? ensures Ended(s1.trace, i) {
      assert s.trace[i] == s1.trace[i];
      if !Ended(s.trace, i) { assert s1.trace[|s.trace|] == Completed(s1.trace[i].number, s1.trace[i].id); }
    }
  }

  /** After a command ended, the read that follows it is issued. */
  lemma ReloadKeeps(s1: Hook, n: nat, id: string)
    requires FreshlyBased(s1.trace) && OneAtATime(s1.trace) && s1.activeId == id && s1.locked
    requires forall i :: 0 <= i < |s1.trace| && s1.trace[i].Dispatched? ==> Ended(s1.trace, i)
    requires !s1.effectPending && s1.effectId.Some? ==> s1.effectId == Some(s1.activeId)
    requires forall o :: o in s1.trace && o.ReadIssued? ==> o.generation <= s1.generation
    ensures var s2 := AfterLoad(s1, id); Inv(s2.(command := Some(InReload(n, id, s2.generation))))
  {
    var o := ReadIssued(id, s1.generation + 1);
    BasedKept(s1.trace, o);
    EndedKept(s1.trace, o);
    OneAtATimeKept(s1.trace, o);
    var s2 := AfterLoad(s1, id);
    assert s2.trace[|s1.trace|] == o;
    assert IssuedSinceLast(s2.trace, id, s1.generation + 1);
  }

  lemma EffectKeeps(s: Hook)
    requires Inv(s)
    ensures Inv(AfterEffect(s))
  {
    hide FreshlyBased, OneAtATime, Ended, IssuedSinceLast;
    var s1 := if s.effectId.Some? then s.(mounted := false, verified := None, generation := s.generation + 1) else s;
    CleanupKeeps(s, s1);
    var s2 := s1.(mounted := true, effectId := Some(s.activeId), effectPending := true);
    LoadKeeps(s2, s.activeId);
    assert AfterEffect(s) == AfterLoad(s2, s.activeId).(effectPending := false);
  }

  /** The cleanup moves the generation on, so that nothing is verified. */
  lemma CleanupKeeps(s: Hook, s1: Hook)
    requires Inv(s)
    requires s1 == if s.effectId.Some? then s.(mounted := false, verified := None, generation := s.generation + 1)
                   else s
    ensures Inv(s1.(mounted := true, effectId := Some(s.activeId), effectPending := true))
  {
    hide FreshlyBased, OneAtATime, Ended, IssuedSinceLast;
  }

  lemma RenderKeeps(s: Hook, id: string, changed: bool)
    requires Inv(s) && !s.effectPending
    ensures Inv(AfterRender(s, id, changed))
  {
  }

  lemma UnmountKeeps(s: Hook)
    requires Inv(s)
    ensures Inv(AfterUnmount(s))
  {
  }

  lemma ReadKeeps(s: Hook, id: string, request: nat, ok: bool)
    requires Inv(s) && ReadIssued(id, request) in s.trace
    ensures Inv(AfterRead(s, id, request, ok))
  {
  }

  lemma StepKeeps(s: Hook, e: Event)
    requires Inv(s)
    ensures Inv(Step(s, e))
  {
    if Enabled(s, e) {
      match e
      case Render(id, changed) => RenderKeeps(s, id, changed);
      case RunEffect => EffectKeeps(s);
      case Unmount => UnmountKeeps(s);
      case Refresh(id) => LoadKeeps(s, id);
      case NetworkState(online) =>
      case ReadAnswered(id, request, ok) => ReadKeeps(s, id, request, ok);
      case Mutate(c, onLine) => MutateKeeps(s, c, onLine);
      case ActionDone => ActionKeeps(s);
    }
  }

  lemma {:induction false} RunKeeps(id: string, events: seq<Event>)
    ensures Inv(Run(id, events))
  {
    if events != [] {
      RunKeeps(id, events[..|events| - 1]);
      StepKeeps(Run(id, events[..|events| - 1]), events[|events| - 1]);
    }
  }

  /** Over every run, with refreshes, switches of the order there and back, unmounting and late
      answers in any order: every command is based on a read of its order that was issued after
      every earlier command on that order had ended, and commands never overlap. */
  lemma {:induction false} CommandsAreFreshlyBased(id: string, events: seq<Event>)
    ensures FreshlyBased(Run(id, events).trace)
    ensures OneAtATime(Run(id, events).trace)
  {
    RunKeeps(id, events);
  }
}
