/** How long a render of an operator page stays verified, and that it can always come to be. */
module OperatorReads {
  import opened Options
  import opened OperatorRead

  /** What ends it: another owner or path, unmounting, or a newer read of the page. */
  predicate Disturbs(s: Hook, e: Event) {
    e.Replace? || e.Unmount? || (e.Retry? && MayRead(s, e.life))
  }

  ghost predicate Undisturbed(s: Hook, events: seq<Event>) {
    events == [] ||
    (var k := |events| - 1; Undisturbed(s, events[..k]) && !Disturbs(Run(s, events[..k]), events[k]))
  }

  lemma QuietStep(s: Hook, e: Event)
    requires !Disturbs(s, e) && !s.pending
    ensures var t := Step(s, e);
            t.current == s.current && t.mounted == s.mounted && t.generation == s.generation && !t.pending
  {
  }

  lemma {:induction false} Quiet(s: Hook, more: seq<Event>)
    requires Undisturbed(s, more) && !s.pending
    ensures var t := Run(s, more);
            t.current == s.current && t.mounted == s.mounted && t.generation == s.generation && !t.pending
  {
    hide Step, Disturbs;
    if more != [] {
      Quiet(s, more[..|more| - 1]);
      QuietStep(Run(s, more[..|more| - 1]), more[|more| - 1]);
    }
  }

  lemma {:induction false} Moved(s: Hook, more: seq<Event>)
    requires !Undisturbed(s, more)
    ensures Run(s, more).generation > s.generation
  {
    var k := |more| - 1;
    if Undisturbed(s, more[..k]) {
      GenerationsGrow(s, more[..k]);
      MovesOn(Run(s, more[..k]), more[k]);
    } else {
      Moved(s, more[..k]);
      GenerationsGrow(Run(s, more[..k]), [more[k]]);
      OneStep(Run(s, more[..k]), more[k]);
    }
  }

  lemma OneStep(s: Hook, e: Event)
    ensures Run(s, []) == s && Run(s, [e]) == Step(s, e)
  {
    assert [e][..0] == [];
  }

  /** A render that is verified stays so exactly until another owner or path is shown, the page is
      unmounted, or a newer read of it starts; late answers of older reads do not matter. */
  lemma {:induction false} VerifiedUntil(s: Hook, c: Closure, more: seq<Event>)
    requires IsVerifiedCurrent(s, c)
    ensures IsVerifiedCurrent(Run(s, more), c) <==> Undisturbed(s, more)
  {
    if Undisturbed(s, more) { Quiet(s, more); } else { Moved(s, more); }
  }

  /** The read a hook waits for has been issued. */
  predicate Awaits(s: Hook) { s.pending ==> s.mounted && ReadIssued(s.generation, s.current) in s.trace }

  lemma {:induction false} RunAwaits(s: Hook, events: seq<Event>)
    requires Awaits(s)
    ensures Awaits(Run(s, events))
  {
    if events != [] { RunAwaits(s, events[..|events| - 1]); }
  }

  /** In every state of every run, while the page is mounted and has an owner, a read and its answer
      make the next render verified; a read already under way serves as well. */
  lemma {:induction false} CanBeVerified(owner: Option<string>, path: string, events: seq<Event>)
    requires var s := Run(Start(owner, path), events); s.mounted && HasOwner(s.current)
    ensures var s := Run(Start(owner, path), events);
            var s1 := Step(s, Retry(s.current));
            var s2 := Step(s1, ReadAnswered(s1.generation, s.current, true));
            && IsVerifiedCurrent(s2, Closure(s.current, OperatorRead.Shown(s2, s.current)))
            && s2.view.source == Some(s1.generation)
  {
    RunAwaits(Start(owner, path), events);
    var s := Run(Start(owner, path), events);
    var s1 := Step(s, Retry(s.current));
    assert ReadIssued(s1.generation, s.current) in s1.trace;
  }
}
