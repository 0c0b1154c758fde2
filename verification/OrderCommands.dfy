/** When a render may still dispatch its command: exactly while nothing has happened to the order
    since it was captured. And it can come to that from every state. */
module OrderCommands {
  import opened Options
  import opened OrderState
  import opened OrderStateLaws

  function RunFrom(s: Hook, events: seq<Event>): Hook {
    if events == [] then s else Step(RunFrom(s, events[..|events| - 1]), events[|events| - 1])
  }

  /** The order is shown, read in this generation, and no command is on its way. */
  predicate Ready(s: Hook, id: string, generation: nat) {
    && s.mounted && s.activeId == id && s.effectId == Some(id) && !s.locked && s.command.None?
    && s.verified == Some(Verified(id, generation)) && s.generation == generation
  }

  /** What ends it: another order, its effect, unmounting, a newer read of this order, or a command. */
  predicate Disturbs(s: Hook, e: Event) {
    match e
    case Render(id, _) => Enabled(s, e) && id != s.activeId
    case RunEffect => s.effectPending
    case Unmount => true
    case Refresh(id) => id == s.activeId
    case Mutate(c, onLine) => MayDispatch(s, c, onLine)
    case _ => false
  }

  ghost predicate Undisturbed(s: Hook, events: seq<Event>) {
    events == [] ||
    (var k := |events| - 1; Undisturbed(s, events[..k]) && !Disturbs(RunFrom(s, events[..k]), events[k]))
  }

  /** It will not be ready again: the generation has moved on, another order is about to be read, or
      a command on this order runs, after which it is read again. */
  predicate Past(s: Hook, id: string, generation: nat) {
    || s.generation > generation
    || (s.activeId != id && s.effectPending)
    || (s.activeId == id && s.effectId == Some(id) && s.locked
        && s.command.Some? && s.command.value.InAction? && s.command.value.id == id)
  }

  lemma ReadyStep(s: Hook, e: Event, id: string, generation: nat)
    requires Ready(s, id, generation)
    ensures if Disturbs(s, e) then Past(Step(s, e), id, generation) else Ready(Step(s, e), id, generation)
  {
  }

  lemma PastStep(s: Hook, e: Event, id: string, generation: nat)
    requires Past(s, id, generation) && s.generation >= generation
    ensures Past(Step(s, e), id, generation) && Step(s, e).generation >= generation
  {
    hide Step;
    GenerationRises(s, e);
    if s.generation == generation {
      if s.activeId != id && s.effectPending { OtherShownStep(s, e, id); } else { RunningStep(s, e, id); }
    }
  }

  lemma OtherShownStep(s: Hook, e: Event, id: string)
    requires s.activeId != id && s.effectPending
    ensures var t := Step(s, e); t.generation > s.generation || (t.activeId != id && t.effectPending)
  {
    hide AfterLoad, AfterEffect, AfterAction, MayDispatch;
    match e
    case RunEffect => EffectRises(s);
    case Refresh(i) => LoadRises(s, i);
    case ActionDone => ActionRises(s);
    case _ =>
  }

  lemma RunningStep(s: Hook, e: Event, id: string)
    requires Past(s, id, s.generation) && !(s.activeId != id && s.effectPending)
    ensures Past(Step(s, e), id, s.generation)
  {
  }

  lemma {:induction false} ReadyOrPast(s: Hook, more: seq<Event>, id: string, generation: nat)
    requires Ready(s, id, generation)
    ensures var t := RunFrom(s, more);
            && t.generation >= generation
            && if Undisturbed(s, more) then Ready(t, id, generation) else Past(t, id, generation)
  {
    hide Step, Disturbs, Past;
    if more != [] {
      var k := |more| - 1;
      ReadyOrPast(s, more[..k], id, generation);
      var t := RunFrom(s, more[..k]);
      if Undisturbed(s, more[..k]) {
        ReadyStep(t, more[k], id, generation);
        GenerationRises(t, more[k]);
      } else {
        PastStep(t, more[k], id, generation);
      }
    }
  }

  /** The same order is shown. */
  predicate SameShown(s: Hook, t: Hook) { t.activeId == s.activeId && t.effectPending == s.effectPending }

  lemma LoadRises(s: Hook, id: string)
    ensures AfterLoad(s, id).generation == s.generation + if id == s.activeId then 1 else 0
    ensures SameShown(s, AfterLoad(s, id))
  {
  }

  lemma EffectRises(s: Hook)
    ensures AfterEffect(s).generation > s.generation
  {
    hide AfterLoad;
    var s1 := if s.effectId.Some? then s.(mounted := false, verified := None, generation := s.generation + 1) else s;
    LoadRises(s1.(mounted := true, effectId := Some(s.activeId), effectPending := false), s.activeId);
  }

  lemma ActionRises(s: Hook)
    ensures AfterAction(s).generation >= s.generation && SameShown(s, AfterAction(s))
  {
    hide AfterLoad;
    if s.command.Some? && s.command.value.InAction? {
      var c := s.command.value;
      LoadRises(s.(trace := s.trace + [Completed(c.number, c.id)]), c.id);
    }
  }

  lemma GenerationRises(s: Hook, e: Event)
    ensures Step(s, e).generation >= s.generation
  {
    hide AfterLoad, AfterEffect, AfterAction, MayDispatch;
    match e
    case RunEffect => EffectRises(s);
    case Refresh(id) => LoadRises(s, id);
    case ActionDone => ActionRises(s);
    case _ =>
  }

  /** A render of a verified order, called at any later time, dispatches its command if and only if it
      was fresh and on line, the browser is on line, and nothing has happened to the order since. */
  lemma {:induction false} CapturedDispatchesIff(id: string, events: seq<Event>, more: seq<Event>, onLine: bool)
    requires var s := Run(id, events); Ready(s, s.activeId, s.generation)
    ensures var s := Run(id, events);
            var t := RunFrom(s, more);
            && (MayDispatch(t, Captured(s), onLine) <==> s.isFresh && s.online && onLine && Undisturbed(s, more))
            && (Undisturbed(s, more) && s.isFresh && s.online && onLine ==>
                  Step(t, Mutate(Captured(s), onLine)).trace
                  == t.trace + [Dispatched(t.commands, s.activeId, s.generation)])
  {
    var s := Run(id, events);
    hide RunFrom, Undisturbed;
    ReadyOrPast(s, more, s.activeId, s.generation);
  }

  // ---------------------------------------------------------------- it comes to that

  lemma OneMore(s: Hook, more: seq<Event>, e: Event)
    ensures RunFrom(s, []) == s && RunFrom(s, more + [e]) == Step(RunFrom(s, more), e)
  {
    assert (more + [e])[..|more|] == more;
  }

  /** The read a command waits for has been issued. */
  predicate Awaits(s: Hook) {
    && (s.locked <==> s.command.Some?)
    && (s.command.Some? && s.command.value.InReload? ==>
          ReadIssued(s.command.value.id, s.command.value.request) in s.trace)
  }

  lemma StepAwaits(s: Hook, e: Event)
    requires Awaits(s)
    ensures Awaits(Step(s, e))
  {
  }

  lemma {:induction false} RunAwaits(id: string, events: seq<Event>)
    ensures Awaits(Run(id, events))
  {
    hide Step;
    if events != [] {
      RunAwaits(id, events[..|events| - 1]);
      StepAwaits(Run(id, events[..|events| - 1]), events[|events| - 1]);
    }
  }

  lemma ActionEnds(s: Hook)
    requires Awaits(s) && s.command.Some? && s.command.value.InAction?
    ensures var t := Step(s, ActionDone); Awaits(t) && (t.locked ==> t.command.value.InReload?)
  {
  }

  lemma ReloadEnds(s: Hook, ok: bool)
    requires Awaits(s) && s.command.Some? && s.command.value.InReload?
    ensures var c := s.command.value; !Step(s, ReadAnswered(c.id, c.request, ok)).locked
    ensures var c := s.command.value; Awaits(Step(s, ReadAnswered(c.id, c.request, ok)))
  {
  }

  /** A command on its way can end: its action, and then its read, whatever that says. */
  lemma {:induction false} LockOpens(s: Hook, ok: bool) returns (more: seq<Event>)
    requires Awaits(s)
    ensures var t := RunFrom(s, more); Awaits(t) && !t.locked
    ensures |more| <= 2 && forall e :: e in more ==> e.ActionDone? || (e.ReadAnswered? && e.ok == ok)
  {
    hide Step, RunFrom;
    more := [];
    OneMore(s, [], ActionDone);
    if s.command.Some? && s.command.value.InAction? {
      more := [] + [ActionDone];
      ActionEnds(s);
    }
    var t := RunFrom(s, more);
    if t.locked {
      var e := ReadAnswered(t.command.value.id, t.command.value.request, ok);
      ReloadEnds(t, ok);
      OneMore(s, more, e);
      more := more + [e];
    }
  }

  /** An order that is shown anew and read is ready. */
  lemma ShownAndRead(s: Hook)
    requires !s.locked && Awaits(s)
    ensures var s1 := if s.effectPending then s else Step(s, Render(s.activeId, true));
            var s2 := Step(s1, RunEffect);
            var s3 := Step(s2, ReadAnswered(s.activeId, s2.generation, true));
            var s4 := Step(s3, NetworkState(true));
            Ready(s4, s.activeId, s4.generation) && s4.isFresh && s4.online && s4.activeId == s.activeId
  {
    var s1 := if s.effectPending then s else Step(s, Render(s.activeId, true));
    var s2 := Step(s1, RunEffect);
    assert ReadIssued(s.activeId, s2.generation) in s2.trace;
  }

  /** From every state of every run a render of the order shown can come to dispatch its command. */
  lemma {:induction false} CanDispatch(id: string, events: seq<Event>) returns (more: seq<Event>)
    ensures var t := RunFrom(Run(id, events), more);
            t.activeId == Run(id, events).activeId && MayDispatch(t, Captured(t), true)
    ensures |more| <= 6
  {
    var s := Run(id, events);
    RunAwaits(id, events);
    more := LockOpens(s, true);
    var t := RunFrom(s, more);
    ShownAndRead(t);
    ShownStays(s, more);
    hide Step, Ready, Awaits;
    if !t.effectPending {
      OneMore(s, more, Render(t.activeId, true));
      more := more + [Render(t.activeId, true)];
    }
    var s1 := RunFrom(s, more);
    OneMore(s, more, RunEffect);
    more := more + [RunEffect];
    var read := ReadAnswered(t.activeId, Step(s1, RunEffect).generation, true);
    OneMore(s, more, read);
    more := more + [read];
    OneMore(s, more, NetworkState(true));
    more := more + [NetworkState(true)];
    ReadyMayDispatch(RunFrom(s, more));
  }

  lemma ReadyMayDispatch(s: Hook)
    requires Ready(s, s.activeId, s.generation) && s.isFresh && s.online
    ensures MayDispatch(s, Captured(s), true)
  {
  }

  /** Answers do not change which order is shown. */
  lemma {:induction false} ShownStays(s: Hook, more: seq<Event>)
    requires forall e :: e in more ==> e.ActionDone? || e.ReadAnswered?
    ensures RunFrom(s, more).activeId == s.activeId
  {
    if more != [] {
      assert more[|more| - 1] in more && forall e :: e in more[..|more| - 1] ==> e in more;
      ShownStays(s, more[..|more| - 1]);
    }
  }

  // ---------------------------------------------------------------- unmounting

  /** Until its effect runs again an unmounted hook verifies nothing and sends no command, whatever is
      rendered, read or called. */
  lemma {:induction false} UnmountedIsSilent(s: Hook, more: seq<Event>)
    requires forall e :: e in more ==> !e.RunEffect?
    ensures var u := Step(s, Unmount);
            var t := RunFrom(u, more);
            && !t.mounted && t.verified.None?
            && forall o :: o in t.trace && o.Dispatched? ==> o in s.trace
  {
    hide Step;
    UnmountSilences(s);
    if more != [] {
      assert more[|more| - 1] in more && forall e :: e in more[..|more| - 1] ==> e in more;
      UnmountedIsSilent(s, more[..|more| - 1]);
      SilentStep(RunFrom(Step(s, Unmount), more[..|more| - 1]), more[|more| - 1]);
    }
  }

  lemma UnmountSilences(s: Hook)
    ensures var t := Step(s, Unmount); !t.mounted && t.verified.None? && t.trace == s.trace
  {
  }

  lemma SilentStep(s: Hook, e: Event)
    requires !s.mounted && s.verified.None? && !e.RunEffect?
    ensures var t := Step(s, e);
            !t.mounted && t.verified.None? && forall o :: o in t.trace && o.Dispatched? ==> o in s.trace
  {
  }
}
