/** Over every run: one read or command at a time in a lifetime, at most one POST per command and
    only on proof that nothing changed, and nothing from a replaced lifetime. */
module PlannedOrderLaws {
  import opened Options
  import opened PlannedOrder

  datatype Event =
    | Replace(owner: Option<string>, id: string, assignedOnly: bool)
    | Unmount
    | GoneOffline
    | Refresh(life: Lifetime)
    | Act(life: Lifetime, action: Action, validValues: bool, onLine: bool)
    | Answer(number: nat, get: Get, failed: bool, unavailable: bool, balance: Option<real>, onLine: bool)

  /** Closures of any lifetime may be called at any time, and answers come in any order. */
  function Step(s: Hook, e: Event): Hook {
    match e
    case Replace(owner, id, assignedOnly) => AfterReplace(s, owner, id, assignedOnly)
    case Unmount => AfterUnmount(s)
    case GoneOffline => if s.mounted then s.(isFresh := false) else s
    case Refresh(l) => AfterRefresh(s, l)
    case Act(l, action, validValues, onLine) => AfterAct(s, l, action, validValues, onLine)
    case Answer(k, get, failed, unavailable, balance, onLine) =>
      if k in s.tasks && s.tasks[k].life.owner.Some? then
        AfterAnswer(s, k, s.tasks[k], get, failed, unavailable, balance, onLine)
      else s
  }

  function AfterAnswer(s: Hook, k: nat, t: Task, get: Get, failed: bool, unavailable: bool, balance: Option<real>,
                       onLine: bool): Hook
    requires t.life.owner.Some?
  {
    match t.stage
    case Refreshing => AfterRefreshed(s, k, t.life, get)
    case Checking(action, prior) => AfterChecked(s, k, t.life, action, prior, get, onLine)
    case Balancing(action, before) => AfterBalance(s, k, t.life, action, before, failed, unavailable, balance, onLine)
    case Posting(action, before) => AfterPosted(s, k, t.life, action, before, failed)
    case Confirming(action, before, postFailed) => AfterConfirmed(s, k, t.life, action, before, postFailed, get)
  }

  function Run(s: Hook, events: seq<Event>): Hook {
    if events == [] then s else Step(Run(s, events[..|events| - 1]), events[|events| - 1])
  }

  // ---------------------------------------------------------------- the promises

  /** In its command the first GET showed the order unchanged with the action still allowed. */
  ghost predicate BasedOn(trace: seq<Observation>, k: nat, l: Lifetime, action: Action, prior: Order, before: Order) {
    && Begun(k, l, action, prior) in trace
    && Showed(k, before) in trace
    && Unchanged(prior, before)
    && l.owner.Some? && action in PlannedActions(before, l.owner.value)
  }

  ghost predicate NeverPosted(trace: seq<Observation>, k: nat) {
    forall l, action :: Posted(k, l, action) !in trace
  }

  ghost predicate MayPost(trace: seq<Observation>, k: nat, l: Lifetime, action: Action) {
    && NeverPosted(trace, k)
    && Ended(l) !in trace
    && exists prior, before :: BasedOn(trace, k, l, action, prior, before)
         && (action == BIDS && before.mode != FREE_PILOT ==> Funded(k) in trace)
  }

  /** Every POST was the first of its command, rested on that command's own GET (and for a paid
      bid on the balance), and was sent before its lifetime ended. */
  ghost predicate PostsAreProven(trace: seq<Observation>) {
    forall i :: 0 <= i < |trace| && trace[i].Posted? ==>
      MayPost(trace[..i], trace[i].number, trace[i].life, trace[i].action)
  }

  /** Reads and commands of one lifetime do not overlap. */
  ghost predicate OneAtATime(s: Hook) {
    forall j, k :: j in s.tasks && k in s.tasks && s.tasks[j].life == s.tasks[k].life ==> j == k
  }

  // ---------------------------------------------------------------- what every step keeps

  ghost predicate TaskKept(s: Hook, k: nat, t: Task) {
    && k < s.next
    && t.life.serial <= s.current.serial
    && (t.life.serial == s.current.serial ==> t.life == s.current && (s.mounted ==> s.locked))
    && match t.stage
       case Refreshing => true
       case Checking(action, prior) => NeverPosted(s.trace, k) && Begun(k, t.life, action, prior) in s.trace
       case Balancing(action, before) =>
         NeverPosted(s.trace, k) && exists prior :: BasedOn(s.trace, k, t.life, action, prior, before)
       case Posting(_, _) => true
       case Confirming(_, _, _) => true
  }

  ghost predicate Numbered(s: Hook) {
    forall k: nat, l, action :: Posted(k, l, action) in s.trace ==> k < s.next
  }

  ghost predicate Lifetimes(s: Hook) {
    forall l :: Ended(l) in s.trace ==> l.serial < s.current.serial || (l.serial == s.current.serial && !s.mounted)
  }

  ghost predicate Inv(s: Hook) {
    && (forall k :: k in s.tasks ==> TaskKept(s, k, s.tasks[k]))
    && OneAtATime(s) && Numbered(s) && Lifetimes(s) && PostsAreProven(s.trace)
  }

  lemma Appended(trace: seq<Observation>, o: Observation)
    requires PostsAreProven(trace) && (o.Posted? ==> MayPost(trace, o.number, o.life, o.action))
    ensures PostsAreProven(trace + [o])
  {
    var after := trace + [o];
    forall i | 0 <= i < |after| && after[i].Posted?
      ensures MayPost(after[..i], after[i].number, after[i].life, after[i].action)
    {
      if i < |trace| { assert after[..i] == trace[..i]; } else { assert after[..i] == trace; }
    }
  }

  lemma BasedKept(trace: seq<Observation>, o: Observation, k: nat, l: Lifetime, action: Action, before: Order)
    requires exists prior :: BasedOn(trace, k, l, action, prior, before)
    ensures exists prior :: BasedOn(trace + [o], k, l, action, prior, before)
  {
    var prior :| BasedOn(trace, k, l, action, prior, before);
    assert BasedOn(trace + [o], k, l, action, prior, before);
  }

  /** Tasks keep their facts when something that is not their POST is observed. */
  lemma TaskStays(s: Hook, t: Hook, k: nat, task: Task, more: seq<Observation>)
    requires TaskKept(s, k, task) && s.next <= t.next
    requires t.trace == s.trace + more && |more| <= 1
    requires forall o :: o in more && o.Posted? ==> o.number != k
    requires task.life.serial <= t.current.serial
    requires task.life.serial == t.current.serial ==> task.life == t.current && (t.mounted ==> t.locked)
    ensures TaskKept(t, k, task)
  {
    if more == [] {
      assert t.trace == s.trace;
    } else {
      assert more == [more[0]];
      if task.stage.Balancing? { BasedKept(s.trace, more[0], k, task.life, task.stage.action, task.stage.before); }
    }
  }

  // ---------------------------------------------------------------- lifetimes

  lemma ReplaceKeeps(s: Hook, owner: Option<string>, id: string, assignedOnly: bool)
    requires Inv(s)
    ensures Inv(AfterReplace(s, owner, id, assignedOnly))
  {
    var t := AfterReplace(s, owner, id, assignedOnly);
    forall k | k in t.tasks ensures TaskKept(t, k, t.tasks[k]) {
      TaskStays(s, t, k, s.tasks[k], [Ended(s.current)]);
    }
    Appended(s.trace, Ended(s.current));
  }

  lemma UnmountKeeps(s: Hook)
    requires Inv(s)
    ensures Inv(AfterUnmount(s))
  {
    var t := AfterUnmount(s);
    forall k | k in t.tasks ensures TaskKept(t, k, t.tasks[k]) {
      TaskStays(s, t, k, s.tasks[k], [Ended(s.current)]);
    }
    Appended(s.trace, Ended(s.current));
  }

  lemma RefreshKeeps(s: Hook, l: Lifetime)
    requires Inv(s)
    ensures Inv(AfterRefresh(s, l))
  {
    if MayRefresh(s, l) {
      var t := AfterRefresh(s, l);
      forall k | k in t.tasks ensures TaskKept(t, k, t.tasks[k]) {
        if k in s.tasks { TaskStays(s, t, k, s.tasks[k], []); }
      }
    }
  }

  lemma ActKeeps(s: Hook, l: Lifetime, action: Action, validValues: bool, onLine: bool)
    requires Inv(s)
    ensures Inv(AfterAct(s, l, action, validValues, onLine))
  {
    if MayAct(s, l, action, validValues, onLine) {
      var t := AfterAct(s, l, action, validValues, onLine);
      forall k | k in t.tasks ensures TaskKept(t, k, t.tasks[k]) {
        if k in s.tasks { TaskStays(s, t, k, s.tasks[k], [Begun(s.next, l, action, s.latest.value)]); }
      }
      Appended(s.trace, t.trace[|s.trace|]);
    }
  }

  // ---------------------------------------------------------------- answers

  /** A step that may end task k and writes no trace. */
  lemma EndingKeeps(s: Hook, t: Hook, k: nat)
    requires Inv(s) && k in s.tasks
    requires t.tasks == s.tasks - {k} && t.next == s.next && t.trace == s.trace
    requires t.current == s.current && t.mounted == s.mounted
    requires t.locked == s.locked || Live(s, s.tasks[k].life)
    ensures Inv(t)
  {
    forall j | j in t.tasks ensures TaskKept(t, j, t.tasks[j]) {
      TaskStays(s, t, j, s.tasks[j], []);
    }
  }

  lemma RefreshedKeeps(s: Hook, k: nat, get: Get)
    requires Inv(s) && k in s.tasks && s.tasks[k].life.owner.Some?
    ensures Inv(AfterRefreshed(s, k, s.tasks[k].life, get))
  {
    EndingKeeps(s, AfterRefreshed(s, k, s.tasks[k].life, get), k);
  }

  /** Task k goes on to a stage that claims nothing of the trace. */
  lemma MovingKeeps(s: Hook, k: nat, stage: Stage)
    requires Inv(s) && k in s.tasks && (stage.Confirming? || stage.Posting?)
    ensures Inv(Waiting(s, k, s.tasks[k].life, stage))
  {
    var t := Waiting(s, k, s.tasks[k].life, stage);
    forall j | j in t.tasks ensures TaskKept(t, j, t.tasks[j]) {
      if j != k { TaskStays(s, t, j, s.tasks[j], []); }
    }
  }

  /** The trace grows by what a GET or the balance showed, or by a POST of task k. */
  lemma ObservedKeeps(s: Hook, k: nat, o: Observation)
    requires Inv(s) && k in s.tasks && (o.Showed? || o.Funded? || (o.Posted? && o.number == k))
    requires o.Posted? ==>
               MayPost(s.trace, k, o.life, o.action) && !s.tasks[k].stage.Checking? && !s.tasks[k].stage.Balancing?
    ensures Inv(s.(trace := s.trace + [o]))
  {
    var t := s.(trace := s.trace + [o]);
    assert t.trace[|s.trace|] == o;
    forall j | j in t.tasks ensures TaskKept(t, j, t.tasks[j]) {
      if j == k && o.Posted? { } else { TaskStays(s, t, j, s.tasks[j], [o]); }
    }
    Appended(s.trace, o);
  }

  lemma GuardsKeep(s: Hook, k: nat, action: Action, prior: Order, before: Order, onLine: bool)
    requires Inv(s) && k in s.tasks && Live(s, s.tasks[k].life) && NeverPosted(s.trace, k)
    requires BasedOn(s.trace, k, s.tasks[k].life, action, prior, before)
    requires action == BIDS && before.mode != FREE_PILOT ==> Funded(k) in s.trace
    ensures Inv(AfterGuards(s, k, s.tasks[k].life, action, before, onLine))
  {
    var l := s.tasks[k].life;
    if onLine {
      MovingKeeps(s, k, Posting(action, before));
      assert MayPost(s.trace, k, l, action);
      var s1 := Waiting(s, k, l, Posting(action, before));
      ObservedKeeps(s1, k, Posted(k, l, action));
      assert AfterGuards(s, k, l, action, before, onLine) == s1.(trace := s.trace + [Posted(k, l, action)]);
    } else {
      EndingKeeps(s, AfterGuards(s, k, l, action, before, onLine), k);
    }
  }

  lemma BalancingKeeps(s: Hook, k: nat, action: Action, prior: Order, before: Order)
    requires Inv(s) && k in s.tasks && NeverPosted(s.trace, k)
    requires BasedOn(s.trace, k, s.tasks[k].life, action, prior, before)
    ensures Inv(Waiting(s, k, s.tasks[k].life, Balancing(action, before)))
  {
    var t := Waiting(s, k, s.tasks[k].life, Balancing(action, before));
    forall j | j in t.tasks ensures TaskKept(t, j, t.tasks[j]) {
      if j != k { TaskStays(s, t, j, s.tasks[j], []); }
    }
  }

  lemma CheckedKeeps(s: Hook, k: nat, action: Action, prior: Order, get: Get, onLine: bool)
    requires Inv(s) && k in s.tasks && s.tasks[k].life.owner.Some? && s.tasks[k].stage == Checking(action, prior)
    ensures Inv(AfterChecked(s, k, s.tasks[k].life, action, prior, get, onLine))
  {
    var l := s.tasks[k].life;
    var t := AfterChecked(s, k, l, action, prior, get, onLine);
    if Reads(get, l) && Live(s, l) && Unchanged(prior, get.order) &&
       action in PlannedActions(get.order, l.owner.value) {
      var o := Showed(k, get.order);
      var s1 := s.(trace := s.trace + [o]);
      assert TaskKept(s, k, s.tasks[k]);
      ObservedKeeps(s, k, o);
      assert BasedOn(s1.trace, k, l, action, prior, get.order) && NeverPosted(s1.trace, k);
      if action == BIDS && get.order.mode != FREE_PILOT {
        BalancingKeeps(s1, k, action, prior, get.order);
      } else {
        GuardsKeep(s1, k, action, prior, get.order, onLine);
      }
    } else {
      EndingKeeps(s, t, k);
    }
  }

  lemma BalanceKeeps(s: Hook, k: nat, action: Action, before: Order, failed: bool, unavailable: bool,
                     balance: Option<real>, onLine: bool)
    requires Inv(s) && k in s.tasks && s.tasks[k].stage == Balancing(action, before)
    ensures Inv(AfterBalance(s, k, s.tasks[k].life, action, before, failed, unavailable, balance, onLine))
  {
    var l := s.tasks[k].life;
    if !failed && Live(s, l) && balance.Some? && balance.value >= 1.0 {
      assert TaskKept(s, k, s.tasks[k]);
      var prior :| BasedOn(s.trace, k, l, action, prior, before);
      var s1 := s.(trace := s.trace + [Funded(k)]);
      ObservedKeeps(s, k, Funded(k));
      assert BasedOn(s1.trace, k, l, action, prior, before) && NeverPosted(s1.trace, k);
      GuardsKeep(s1, k, action, prior, before, onLine);
    } else {
      EndingKeeps(s, AfterBalance(s, k, l, action, before, failed, unavailable, balance, onLine), k);
    }
  }

  lemma PostedKeeps(s: Hook, k: nat, action: Action, before: Order, failed: bool)
    requires Inv(s) && k in s.tasks
    ensures Inv(AfterPosted(s, k, s.tasks[k].life, action, before, failed))
  {
    if Live(s, s.tasks[k].life) {
      MovingKeeps(s, k, Confirming(action, before, failed));
    } else {
      EndingKeeps(s, AfterPosted(s, k, s.tasks[k].life, action, before, failed), k);
    }
  }

  /** At most what is shown differs. */
  predicate Shown(s: Hook, t: Hook) {
    t == s.(latest := t.latest, isFresh := t.isFresh, ended := t.ended, issue := t.issue)
  }

  lemma OnlyShown(s: Hook, l: Lifetime)
    ensures forall o, issue :: Shown(s, Accepted(s, l, o, issue))
    ensures forall g, issue :: Shown(s, ReadFailed(s, l, g, issue))
  {
  }

  ghost predicate Ends(s: Hook, t: Hook, k: nat, l: Lifetime) {
    && t.tasks == s.tasks - {k} && t.next == s.next && t.trace == s.trace
    && t.current == s.current && t.mounted == s.mounted
    && (t.locked == s.locked || Live(s, l))
  }

  lemma FinishedEnds(s: Hook, k: nat, l: Lifetime)
    ensures forall t :: Shown(s, t) ==> Ends(s, Finished(t, k, l), k, l)
  {
  }

  lemma ConfirmedEnds(s: Hook, k: nat, l: Lifetime, action: Action, before: Order, postFailed: bool, get: Get)
    requires l.owner.Some?
    ensures Ends(s, AfterConfirmed(s, k, l, action, before, postFailed, get), k, l)
  {
    hide Applied, Accepted, ReadFailed, Finished, Live, Ends;
    OnlyShown(s, l);
    FinishedEnds(s, k, l);
  }

  lemma ConfirmedKeeps(s: Hook, k: nat, action: Action, before: Order, postFailed: bool, get: Get)
    requires Inv(s) && k in s.tasks && s.tasks[k].life.owner.Some?
    ensures Inv(AfterConfirmed(s, k, s.tasks[k].life, action, before, postFailed, get))
  {
    hide Inv, AfterConfirmed, Live;
    ConfirmedEnds(s, k, s.tasks[k].life, action, before, postFailed, get);
    EndingKeeps(s, AfterConfirmed(s, k, s.tasks[k].life, action, before, postFailed, get), k);
  }

  lemma AnswerKeeps(s: Hook, k: nat, get: Get, failed: bool, unavailable: bool, balance: Option<real>, onLine: bool)
    requires Inv(s) && k in s.tasks && s.tasks[k].life.owner.Some?
    ensures Inv(AfterAnswer(s, k, s.tasks[k], get, failed, unavailable, balance, onLine))
  {
    match s.tasks[k].stage
    case Refreshing => RefreshedKeeps(s, k, get);
    case Checking(action, prior) => CheckedKeeps(s, k, action, prior, get, onLine);
    case Balancing(action, before) => BalanceKeeps(s, k, action, before, failed, unavailable, balance, onLine);
    case Posting(action, before) => PostedKeeps(s, k, action, before, failed);
    case Confirming(action, before, postFailed) => ConfirmedKeeps(s, k, action, before, postFailed, get);
  }

  lemma StepKeeps(s: Hook, e: Event)
    requires Inv(s)
    ensures Inv(Step(s, e))
  {
    match e
    case Replace(owner, id, assignedOnly) => ReplaceKeeps(s, owner, id, assignedOnly);
    case Unmount => UnmountKeeps(s);
    case GoneOffline =>
    case Refresh(l) => RefreshKeeps(s, l);
    case Act(l, action, validValues, onLine) => ActKeeps(s, l, action, validValues, onLine);
    case Answer(k, get, failed, unavailable, balance, onLine) =>
      if k in s.tasks && s.tasks[k].life.owner.Some? { AnswerKeeps(s, k, get, failed, unavailable, balance, onLine); }
  }

  lemma {:induction false} RunKeeps(s: Hook, events: seq<Event>)
    requires Inv(s)
    ensures Inv(Run(s, events))
  {
    if events != [] {
      RunKeeps(s, events[..|events| - 1]);
      StepKeeps(Run(s, events[..|events| - 1]), events[|events| - 1]);
    }
  }

  /** For any interleaving of calls, answers and replacements. */
  lemma {:induction false} CommandsAreProven(owner: Option<string>, id: string, assignedOnly: bool, events: seq<Event>)
    ensures var s := Run(Start(owner, id, assignedOnly), events);
            && OneAtATime(s)
            && PostsAreProven(s.trace)
            && (forall k :: k in s.tasks && s.mounted && s.tasks[k].life == s.current ==> s.locked)
  {
    RunKeeps(Start(owner, id, assignedOnly), events);
    var s := Run(Start(owner, id, assignedOnly), events);
    assert forall k :: k in s.tasks ==> TaskKept(s, k, s.tasks[k]);
  }

  /** Nothing is shown for a lifetime that is over. */
  lemma NothingShown(s: Hook, l: Lifetime)
    requires !Live(s, l)
    ensures forall k :: Finished(s, k, l) == s.(tasks := s.tasks - {k})
    ensures forall o, issue :: Accepted(s, l, o, issue) == s
    ensures forall unavailable, issue :: Failed(s, l, unavailable, issue) == s
    ensures forall g, issue :: ReadFailed(s, l, g, issue) == s
  {
  }

  /** An answer for a lifetime that is over ends its task and does nothing else: no request, no
      unlocking, no order shown. */
  lemma ReplacedIsInert(s: Hook, e: Event)
    requires e.Answer? && e.number in s.tasks && s.tasks[e.number].life.owner.Some? && !Live(s, s.tasks[e.number].life)
    ensures Step(s, e) == s.(tasks := s.tasks - {e.number})
  {
    hide Finished, Accepted, Failed, ReadFailed, PlannedActions, Unchanged, Applied, Live;
    NothingShown(s, s.tasks[e.number].life);
  }
}
