/** Guarded reads and commands on an order (packages/ui/src/useOrderState.ts).

    Refs are fields. Every await is a step boundary: a read and the command in flight are
    answered in later steps, in any order. A render captures a closure that may be called at any
    later time. React runs the effects of one render before it renders the component again;
    Render requires that. */
module OrderState {
  import opened Options

  /** What a render captured: its id, renderedGeneration, and the fresh and online states. */
  datatype Closure = Closure(id: string, generation: nat, isFresh: bool, online: bool)

  /** verified.current */
  datatype Verified = Verified(id: string, generation: nat)

  /** A command between its dispatch and the release of the lock: in its action, or in the
      load that follows it. */
  datatype Command =
    | InAction(number: nat, id: string)
    | InReload(number: nat, id: string, request: nat)

  datatype Observation =
    | ReadIssued(id: string, generation: nat)
    | Dispatched(number: nat, id: string, generation: nat)
    | Completed(number: nat, id: string)

  datatype Hook = Hook(
    generation: nat, locked: bool, mounted: bool, activeId: string, verified: Option<Verified>,
    isFresh: bool, online: bool,
    effectId: Option<string>, effectPending: bool,
    command: Option<Command>, commands: nat,
    trace: seq<Observation>)

  function Start(id: string): Hook {
    Hook(0, false, false, id, None, false, true, None, true, None, 0, [])
  }

  /** A render with the given id; changed: another dependency of the effect has changed. */
  function AfterRender(s: Hook, id: string, changed: bool): Hook {
    s.(activeId := id, effectPending := s.effectPending || changed || s.effectId != Some(id))
  }

  function Captured(s: Hook): Closure {
    Closure(s.activeId, s.generation, s.isFresh, s.online)
  }

  /** load() of a render with this id, up to its read. */
  function AfterLoad(s: Hook, id: string): Hook {
    if s.activeId != id then s
    else
      s.(verified := None, isFresh := false, generation := s.generation + 1,
         trace := s.trace + [ReadIssued(id, s.generation + 1)])
  }

  /** The pending effect: the cleanup of the previous one, then its own body. */
  function AfterEffect(s: Hook): Hook {
    var s1 := if s.effectId.Some? then s.(mounted := false, verified := None, generation := s.generation + 1) else s;
    AfterLoad(s1.(mounted := true, effectId := Some(s.activeId), effectPending := false), s.activeId)
  }

  /** The cleanup on unmounting. */
  function AfterUnmount(s: Hook): Hook {
    s.(mounted := false, verified := None, generation := s.generation + 1, effectPending := false, effectId := None)
  }

  /** The read with this id and generation has answered. */
  function AfterRead(s: Hook, id: string, request: nat, ok: bool): Hook {
    var s1 := if ok && s.mounted && s.activeId == id && s.generation == request
              then s.(verified := Some(Verified(id, request)), isFresh := true) else s;
    // the command that awaited this read releases the lock
    match s1.command
    case Some(InReload(_, _, r)) => if r == request then s1.(command := None, locked := false) else s1
    case _ => s1
  }

  /** The guard of mutate, as called from the closure c with the network state onLine. */
  predicate MayDispatch(s: Hook, c: Closure, onLine: bool) {
    && s.mounted && s.activeId == c.id && !s.locked
    && s.verified == Some(Verified(c.id, c.generation)) && s.generation == c.generation
    && c.isFresh && c.online && onLine
  }

  function AfterMutate(s: Hook, c: Closure, onLine: bool): Hook {
    if !MayDispatch(s, c, onLine) then s
    else
      s.(locked := true, command := Some(InAction(s.commands, c.id)), commands := s.commands + 1,
         trace := s.trace + [Dispatched(s.commands, c.id, c.generation)])
  }

  /** The action of the command in flight has completed or failed. */
  function AfterAction(s: Hook): Hook {
    match s.command
    case Some(InAction(n, id)) =>
      var s1 := s.(trace := s.trace + [Completed(n, id)]);
      if s.activeId == id then
        var s2 := AfterLoad(s1, id);
        s2.(command := Some(InReload(n, id, s2.generation)))
      else s1.(command := None, locked := false)
    case _ => s
  }

  class UseOrderState {
    var generation: nat
    var locked: bool
    var mounted: bool
    var activeId: string
    var verified: Option<Verified>
    var isFresh: bool
    var online: bool
    var effectId: Option<string>
    var effectPending: bool
    var command: Option<Command>
    var commands: nat
    ghost var trace: seq<Observation>

    ghost function Abs(): Hook
      reads this
    {
      Hook(generation, locked, mounted, activeId, verified, isFresh, online, effectId,
           effectPending, command, commands, trace)
    }

    constructor (id: string)
      ensures Abs() == Start(id)
    {
      generation, locked, mounted, activeId, verified := 0, false, false, id, None;
      isFresh, online, effectId, effectPending, command := false, true, None, true, None;
      commands, trace := 0, [];
    }

    method Render(id: string, changed: bool) returns (c: Closure)
      requires !effectPending
      modifies this
      ensures Abs() == AfterRender(old(Abs()), id, changed) && c == Captured(Abs())
    {
      activeId := id;
      if changed || effectId != Some(id) { effectPending := true; }
      c := Closure(id, generation, isFresh, online);
    }

    method Load(id: string) returns (request: Option<nat>)
      modifies this
      ensures Abs() == AfterLoad(old(Abs()), id)
      ensures request == if old(activeId) == id then Some(generation) else None
    {
      if activeId != id { return None; }
      verified := None;
      isFresh := false;
      generation := generation + 1;
      trace := trace + [ReadIssued(id, generation)];
      return Some(generation);
    }

    method RunEffect()
      requires effectPending
      modifies this
      ensures Abs() == AfterEffect(old(Abs()))
    {
      if effectId.Some? {
        mounted := false;
        verified := None;
        generation := generation + 1;
      }
      mounted := true;
      effectId, effectPending := Some(activeId), false;
      var _ := Load(activeId);
    }

    method Unmount()
      modifies this
      ensures Abs() == AfterUnmount(old(Abs()))
    {
      mounted := false;
      verified := None;
      generation := generation + 1;
      effectPending, effectId := false, None;
    }

    method ReadAnswered(id: string, request: nat, ok: bool)
      modifies this
      ensures Abs() == AfterRead(old(Abs()), id, request, ok)
    {
      if ok && mounted && activeId == id && generation == request {
        verified := Some(Verified(id, request));
        isFresh := true;
      }
      if command.Some? && command.value.InReload? && command.value.request == request {
        command, locked := None, false;
      }
    }

    /** mutate, up to the dispatch of its action */
    method Mutate(c: Closure, onLine: bool) returns (dispatched: bool)
      modifies this
      ensures Abs() == AfterMutate(old(Abs()), c, onLine)
      ensures dispatched <==> old(MayDispatch(Abs(), c, onLine))
    {
      if !mounted || activeId != c.id || locked || verified.None? || verified.value.id != c.id
         || verified.value.generation != c.generation || generation != c.generation
         || !c.isFresh || !c.online || !onLine {
        return false;
      }
      locked := true;
      command := Some(InAction(commands, c.id));
      trace := trace + [Dispatched(commands, c.id, c.generation)];
      commands := commands + 1;
      return true;
    }

    /** mutate, after its action */
    method ActionDone()
      requires command.Some? && command.value.InAction?
      modifies this
      ensures Abs() == AfterAction(old(Abs()))
    {
      var number, id := command.value.number, command.value.id;
      trace := trace + [Completed(number, id)];
      if activeId == id {
        var request := Load(id);
        command := Some(InReload(number, id, generation));
      } else {
        command, locked := None, false;
      }
    }
  }
}
