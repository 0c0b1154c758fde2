/** Guarded reads of an operator page (apps/operator/lib/useOperatorRead.ts:4-22). Refs are
    fields, the await of a read is a step boundary, and a render captures the state it shows.
    Aborting a read always comes with a new generation, so the abort signal is not repeated. */
module OperatorRead {
  import opened Options

  /** An owner, path and reader; the serial number stands for object identity. */
  datatype Lifetime = Lifetime(serial: nat, owner: Option<string>, path: string)

  /** The React state. source: the read the data came from. */
  datatype View = View(life: Lifetime, source: Option<nat>, isFresh: bool, readGeneration: nat)

  /** What a render captured for isVerifiedCurrent. */
  datatype Closure = Closure(life: Lifetime, view: View)

  datatype Observation = ReadIssued(request: nat, life: Lifetime) | Answered(request: nat, life: Lifetime)

  datatype Hook = Hook(
    current: Lifetime, mounted: bool, generation: nat, pending: bool, view: View, captured: set<Closure>,
    trace: seq<Observation>)

  function Blank(l: Lifetime, generation: nat): View { View(l, None, false, generation) }

  function Start(owner: Option<string>, path: string): Hook {
    var l := Lifetime(0, owner, path);
    Hook(l, true, 1, false, Blank(l, 1), {}, [])
  }

  /** The layout effect of another owner or path: the cleanup of the old one, then its own body. */
  function AfterReplace(s: Hook, owner: Option<string>, path: string): Hook {
    var l := Lifetime(s.current.serial + 1, owner, path);
    s.(current := l, mounted := true, generation := s.generation + 2, pending := false,
         view := Blank(l, s.generation + 2))
  }

  function AfterUnmount(s: Hook): Hook {
    s.(mounted := false, generation := s.generation + 1, pending := false)
  }

  predicate HasOwner(l: Lifetime) { l.owner.Some? && l.owner.value != "" }

  predicate MayRead(s: Hook, l: Lifetime) { HasOwner(l) && s.mounted && s.current == l && !s.pending }

  /** retry of a render with this lifetime, up to its read. */
  function AfterRetry(s: Hook, l: Lifetime): Hook {
    if !MayRead(s, l) then s
    else
      s.(pending := true, generation := s.generation + 1,
         view := s.view.(isFresh := false, readGeneration := s.generation + 1),
         trace := s.trace + [ReadIssued(s.generation + 1, l)])
  }

  /** The read answers or fails. */
  function AfterAnswer(s: Hook, request: nat, l: Lifetime, ok: bool): Hook {
    if !(s.mounted && s.current == l && s.generation == request) then s
    else if ok then
      s.(pending := false, view := View(l, Some(request), true, request), trace := s.trace + [Answered(request, l)])
    else s.(pending := false, view := s.view.(isFresh := false))
  }

  /** What a render with this lifetime shows. */
  function Shown(s: Hook, l: Lifetime): View {
    if s.view.life == l then s.view else Blank(l, s.generation)
  }

  function AfterRender(s: Hook, l: Lifetime): Hook {
    s.(captured := s.captured + {Closure(l, Shown(s, l))})
  }

  predicate IsVerifiedCurrent(s: Hook, c: Closure) {
    && HasOwner(c.life) && s.mounted && s.current == c.life
    && s.generation == c.view.readGeneration && c.view.isFresh && !s.pending
  }

  class UseOperatorRead {
    var current: Lifetime
    var mounted: bool
    var generation: nat
    var pending: bool
    var view: View
    ghost var captured: set<Closure>
    ghost var trace: seq<Observation>

    ghost function Abs(): Hook
      reads this
    {
      Hook(current, mounted, generation, pending, view, captured, trace)
    }

    constructor (owner: Option<string>, path: string)
      ensures Abs() == Start(owner, path)
    {
      var l := Lifetime(0, owner, path);
      current, mounted, generation, pending, view := l, true, 1, false, View(l, None, false, 1);
      captured, trace := {}, [];
    }

    method Replace(owner: Option<string>, path: string)
      modifies this
      ensures Abs() == AfterReplace(old(Abs()), owner, path)
    {
      mounted, generation, pending := false, generation + 1, false;
      current := Lifetime(current.serial + 1, owner, path);
      mounted, generation := true, generation + 1;
      view := View(current, None, false, generation);
    }

    method Unmount()
      modifies this
      ensures Abs() == AfterUnmount(old(Abs()))
    {
      mounted, generation, pending := false, generation + 1, false;
    }

    method Retry(l: Lifetime) returns (request: Option<nat>)
      modifies this
      ensures Abs() == AfterRetry(old(Abs()), l)
      ensures request == if old(MayRead(Abs(), l)) then Some(generation) else None
    {
      if l.owner.None? || l.owner.value == "" || !mounted || current != l || pending { return None; }
      pending := true;
      generation := generation + 1;
      view := view.(isFresh := false, readGeneration := generation);
      trace := trace + [ReadIssued(generation, l)];
      return Some(generation);
    }

    method ReadAnswered(request: nat, l: Lifetime, ok: bool)
      modifies this
      ensures Abs() == AfterAnswer(old(Abs()), request, l, ok)
    {
      if !mounted || current != l || generation != request { return; }
      if ok {
        view := View(l, Some(request), true, request);
        trace := trace + [Answered(request, l)];
      } else {
        view := view.(isFresh := false);
      }
      pending := false;
    }

    method Render(l: Lifetime) returns (c: Closure)
      modifies this
      ensures Abs() == AfterRender(old(Abs()), l) && c == Closure(l, old(Shown(Abs(), l)))
    {
      c := Closure(l, if view.life == l then view else View(l, None, false, generation));
      captured := captured + {c};
    }

    method Verified(c: Closure) returns (verified: bool)
      ensures verified == IsVerifiedCurrent(Abs(), c)
    {
      return c.life.owner.Some? && c.life.owner.value != "" && mounted && current == c.life
             && generation == c.view.readGeneration && c.view.isFresh && !pending;
    }
  }

  // ---------------------------------------------------------------- runs

  datatype Event =
    | Replace(owner: Option<string>, path: string)
    | Unmount
    | Retry(life: Lifetime)
    | ReadAnswered(request: nat, life: Lifetime, ok: bool)
    | Render(life: Lifetime)

  /** Reads are answered late, in any order, but only after they were issued. */
  function Step(s: Hook, e: Event): Hook {
    match e
    case Replace(owner, path) => AfterReplace(s, owner, path)
    case Unmount => AfterUnmount(s)
    case Retry(l) => AfterRetry(s, l)
    case ReadAnswered(request, l, ok) => if ReadIssued(request, l) in s.trace then AfterAnswer(s, request, l, ok) else s
    case Render(l) => AfterRender(s, l)
  }

  function Run(s: Hook, events: seq<Event>): Hook {
    if events == [] then s else Step(Run(s, events[..|events| - 1]), events[|events| - 1])
  }

  /** Data shown as fresh came from the read whose generation it carries, issued and answered
      for its owner and path. */
  ghost predicate Sourced(s: Hook, v: View) {
    && v.readGeneration <= s.generation
    && (v.isFresh ==>
          && v.source == Some(v.readGeneration)
          && ReadIssued(v.readGeneration, v.life) in s.trace
          && Answered(v.readGeneration, v.life) in s.trace)
  }

  ghost predicate Inv(s: Hook) {
    && Sourced(s, s.view)
    && (forall c :: c in s.captured ==> c.view.life == c.life && Sourced(s, c.view))
    && (forall request: nat, l :: ReadIssued(request, l) in s.trace ==> request <= s.generation)
    // a read of the current generation that is still pending has not been shown
    && (s.pending ==> forall l :: Answered(s.generation, l) !in s.trace)
    && (forall request: nat, l :: Answered(request, l) in s.trace ==> request <= s.generation)
  }

  lemma StepKeeps(s: Hook, e: Event)
    requires Inv(s)
    ensures Inv(Step(s, e))
  {
    var t := Step(s, e);
    assert forall v :: Sourced(s, v) && (forall o :: o in s.trace ==> o in t.trace) ==> Sourced(t, v);
  }

  lemma {:induction false} RunKeeps(s: Hook, events: seq<Event>)
    requires Inv(s)
    ensures Inv(Run(s, events))
  {
    if events != [] {
      RunKeeps(s, events[..|events| - 1]);
      StepKeeps(Run(s, events[..|events| - 1]), events[|events| - 1]);
    }
  }

  /** Whenever a render calls its data verified, that data came from the newest read ever issued,
      and that read was for the owner and path shown now. */
  lemma {:induction false} VerifiedIsNewest(owner: Option<string>, path: string, events: seq<Event>, c: Closure)
    ensures var s := Run(Start(owner, path), events);
            c in s.captured && IsVerifiedCurrent(s, c) ==>
              && c.view.source == Some(s.generation)
              && ReadIssued(s.generation, s.current) in s.trace
              && Answered(s.generation, s.current) in s.trace
              && (forall request: nat, l :: ReadIssued(request, l) in s.trace ==> request <= s.generation)
  {
    RunKeeps(Start(owner, path), events);
  }

  lemma {:induction false} GenerationsGrow(s: Hook, events: seq<Event>)
    ensures Run(s, events).generation >= s.generation
  {
    if events != [] { GenerationsGrow(s, events[..|events| - 1]); }
  }

  /** Once a newer read, another owner or path, or an unmount has moved the generation on, the
      render is never verified again. */
  lemma {:induction false} StaleForever(s: Hook, c: Closure, later: seq<Event>)
    requires c.view.readGeneration < s.generation
    ensures !IsVerifiedCurrent(Run(s, later), c)
  {
    GenerationsGrow(s, later);
  }

  /** Every read that starts, every replacement and every unmount does so. */
  lemma MovesOn(s: Hook, e: Event)
    requires e.Replace? || e.Unmount? || (e.Retry? && MayRead(s, e.life))
    ensures Step(s, e).generation > s.generation
  {
  }
}
