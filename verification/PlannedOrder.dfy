/** Reads and commands of a master on one planned order
    (apps/master/lib/usePlannedOrder.ts:15-87, apps/master/lib/plannedFeed.ts:45-65).

    Refs are fields. Every await is a step boundary: a refresh or a command in flight is a task,
    which belongs to the lifetime (owner and order) it was started in and goes on when its
    answer arrives, however late. */
module PlannedOrder {
  import opened Options

  datatype Action = BIDS | CONFIRM | DECLINE | ON_SITE | COMPLETE | CANCEL

  datatype Mode = FREE_PILOT | PAID_MOCK | PAID_LIVE

  datatype Bid = Bid(masterUserId: string)

  /** selectedBidId: absent, null or a text. bidCount: _count.bids. */
  datatype Order = Order(
    id: string, legacy: bool, mode: Mode, status: string, masterId: Option<string>,
    selectedBidId: Option<Option<string>>, ownBid: Option<Bid>, bids: Option<seq<Bid>>, bidCount: Option<nat>)

  // ---------------------------------------------------------------- guards

  predicate HasOwnBid(o: Order, owner: string) {
    if o.ownBid.Some? then o.ownBid.value.masterUserId == owner
    else o.bids.Some? && exists i :: 0 <= i < |o.bids.value| && o.bids.value[i].masterUserId == owner
  }

  function BidsShown(o: Order): nat {
    if o.bidCount.Some? then o.bidCount.value else if o.bids.Some? then |o.bids.value| else 5
  }

  /** plannedActions. */
  function PlannedActions(o: Order, owner: string): set<Action> {
    if !o.legacy then {}
    else if o.masterId == Some(owner) && o.status == "MASTER_SELECTED" then {CONFIRM, DECLINE}
    else if o.masterId == Some(owner) && o.status == "CONFIRMED" then {ON_SITE, CANCEL}
    else if o.masterId == Some(owner) && o.status == "IN_PROGRESS" then {COMPLETE, CANCEL}
    else if o.masterId == None && o.status == "PUBLISHED" && !HasOwnBid(o, owner) && BidsShown(o) < 5 then {BIDS}
    else {}
  }

  /** The order is still what the command was given for. */
  predicate Unchanged(prior: Order, before: Order) {
    before.status == prior.status && before.masterId == prior.masterId && before.selectedBidId == prior.selectedBidId
  }

  // ---------------------------------------------------------------- state

  datatype Lifetime = Lifetime(serial: nat, owner: Option<string>, id: string, assignedOnly: bool)

  datatype Stage =
    | Refreshing
    | Checking(action: Action, prior: Order)
    | Balancing(action: Action, before: Order)
    | Posting(action: Action, before: Order)
    | Confirming(action: Action, before: Order, postFailed: bool)

  datatype Task = Task(life: Lifetime, stage: Stage)

  datatype Issue = NoIssue | ReadIssue | Unavailable | Changed | Uncertain | FailedIssue

  /** What the network and an observer of the lifetimes see; number identifies a refresh or command. */
  datatype Observation =
    | Begun(number: nat, life: Lifetime, action: Action, prior: Order)
    | Showed(number: nat, order: Order)
    | Funded(number: nat)
    | Posted(number: nat, life: Lifetime, action: Action)
    | Ended(life: Lifetime)

  datatype Hook = Hook(
    current: Lifetime, mounted: bool, locked: bool, ended: bool, isFresh: bool, latest: Option<Order>, issue: Issue,
    tasks: map<nat, Task>, next: nat, trace: seq<Observation>)

  /** What a GET of the order brings. valid: it has the shape of a planned order. */
  datatype Get = Got(order: Order, valid: bool) | NotGot(unavailable: bool)

  function Start(owner: Option<string>, id: string, assignedOnly: bool): Hook {
    Hook(Lifetime(0, owner, id, assignedOnly), true, false, false, false, None, NoIssue, map[], 0, [])
  }

  predicate Live(s: Hook, l: Lifetime) { s.mounted && s.current == l && l.owner.Some? && l.owner.value != "" }

  /** The layout effect of another owner or order: the cleanup of the old lifetime, then a new
      one. Tasks stay in flight. */
  function AfterReplace(s: Hook, owner: Option<string>, id: string, assignedOnly: bool): Hook {
    s.(current := Lifetime(s.current.serial + 1, owner, id, assignedOnly),
       mounted := true, locked := false, ended := false, isFresh := false, latest := None, issue := NoIssue,
       trace := s.trace + [Ended(s.current)])
  }

  function AfterUnmount(s: Hook): Hook {
    s.(mounted := false, isFresh := false, trace := s.trace + [Ended(s.current)])
  }

  /** accept, called from the lifetime l. */
  function Accepted(s: Hook, l: Lifetime, o: Order, issue: Issue): Hook {
    if Live(s, l) then s.(latest := Some(o), isFresh := true, issue := issue) else s
  }

  /** fail. */
  function Failed(s: Hook, l: Lifetime, unavailable: bool, issue: Issue): Hook {
    if Live(s, l) then
      s.(isFresh := false, latest := if unavailable then None else s.latest,
         issue := if unavailable then Unavailable else issue)
    else s
  }

  /** finally: task k is over, and the lock released if its lifetime is live. */
  function Finished(s: Hook, k: nat, l: Lifetime): Hook {
    s.(tasks := s.tasks - {k}, locked := if Live(s, l) then false else s.locked)
  }

  function Waiting(s: Hook, k: nat, l: Lifetime, stage: Stage): Hook {
    s.(tasks := s.tasks[k := Task(l, stage)])
  }

  predicate MayRefresh(s: Hook, l: Lifetime) { Live(s, l) && !s.locked && !s.ended }

  function AfterRefresh(s: Hook, l: Lifetime): Hook {
    if !MayRefresh(s, l) then s
    else
      Waiting(s.(locked := true, isFresh := false, next := s.next + 1), s.next, l, Refreshing)
  }

  /** validValues: the values of a bid pass validBid. */
  predicate MayAct(s: Hook, l: Lifetime, action: Action, validValues: bool, onLine: bool) {
    && Live(s, l) && !s.locked && s.isFresh && s.latest.Some? && onLine
    && action in PlannedActions(s.latest.value, l.owner.value)
    && (action == BIDS ==> validValues)
  }

  function AfterAct(s: Hook, l: Lifetime, action: Action, validValues: bool, onLine: bool): Hook {
    if !MayAct(s, l, action, validValues, onLine) then s
    else
      Waiting(
        s.(locked := true, isFresh := false, issue := NoIssue, next := s.next + 1,
           trace := s.trace + [Begun(s.next, l, action, s.latest.value)]),
        s.next, l, Checking(action, s.latest.value))
  }

  /** parsePlannedDetail returns or calls the order unavailable. */
  predicate IsDetail(o: Order, l: Lifetime) {
    && o.id == l.id && o.legacy
    && (o.masterId == l.owner || (!l.assignedOnly && o.masterId == None && o.status == "PUBLISHED"))
  }

  /** The catch of a read; with nothing to catch the answer has been accepted. */
  function ReadFailed(s: Hook, l: Lifetime, g: Get, issue: Issue): Hook {
    match g
    case NotGot(unavailable) => Failed(s, l, unavailable, issue)
    case Got(o, valid) => Failed(s, l, valid && !IsDetail(o, l), issue)
  }

  predicate Reads(g: Get, l: Lifetime) { g.Got? && g.valid && IsDetail(g.order, l) }

  function AfterRefreshed(s: Hook, k: nat, l: Lifetime, g: Get): Hook {
    Finished(if Reads(g, l) then Accepted(s, l, g.order, NoIssue) else ReadFailed(s, l, g, ReadIssue), k, l)
  }

  /** The POST, unless the browser is off line. */
  function AfterGuards(s: Hook, k: nat, l: Lifetime, action: Action, before: Order, onLine: bool): Hook {
    if !onLine then Finished(Failed(s, l, false, ReadIssue), k, l)
    else Waiting(s.(trace := s.trace + [Posted(k, l, action)]), k, l, Posting(action, before))
  }

  /** The first GET of a command is answered. */
  function AfterChecked(s: Hook, k: nat, l: Lifetime, action: Action, prior: Order, g: Get, onLine: bool): Hook
    requires l.owner.Some?
  {
    if !Reads(g, l) then Finished(ReadFailed(s, l, g, ReadIssue), k, l)
    else if !Live(s, l) then Finished(s, k, l)
    else if !Unchanged(prior, g.order) || action !in PlannedActions(g.order, l.owner.value) then
      Finished(Accepted(s, l, g.order, Changed), k, l)
    else
      var s1 := s.(trace := s.trace + [Showed(k, g.order)]);
      if action == BIDS && g.order.mode != FREE_PILOT then Waiting(s1, k, l, Balancing(action, g.order))
      else AfterGuards(s1, k, l, action, g.order, onLine)
  }

  /** The lead credit balance is answered; failed: with an error, unavailable: with a 403 or 404.
      A shape without a number is None. */
  function AfterBalance(
    s: Hook, k: nat, l: Lifetime, action: Action, before: Order, failed: bool, unavailable: bool,
    balance: Option<real>, onLine: bool): Hook
  {
    if failed then Finished(Failed(s, l, unavailable, ReadIssue), k, l)
    else if !Live(s, l) then Finished(s, k, l)
    else if balance.None? || balance.value < 1.0 then Finished(Accepted(s, l, before, FailedIssue), k, l)
    else AfterGuards(s.(trace := s.trace + [Funded(k)]), k, l, action, before, onLine)
  }

  /** The POST is answered or lost; it is never repeated. */
  function AfterPosted(s: Hook, k: nat, l: Lifetime, action: Action, before: Order, failed: bool): Hook {
    if !Live(s, l) then Finished(s, k, l) else Waiting(s, k, l, Confirming(action, before, failed))
  }

  predicate IsReleased(g: Get, action: Action, l: Lifetime) {
    && action in {DECLINE, CANCEL} && g.Got? && g.order.id == l.id && g.order.legacy
    && g.order.status == "PUBLISHED" && g.order.masterId == None
  }

  predicate Applied(before: Order, after: Order, action: Action, owner: string) {
    if action == BIDS then HasOwnBid(after, owner)
    else after.status != before.status || after.masterId != before.masterId
  }

  /** The last GET of a command is answered. */
  function AfterConfirmed(s: Hook, k: nat, l: Lifetime, action: Action, before: Order, postFailed: bool, g: Get): Hook
    requires l.owner.Some?
  {
    if g.Got? && !Live(s, l) then Finished(s, k, l)
    else if IsReleased(g, action, l) then
      Finished(s.(latest := None, isFresh := false, ended := true, issue := NoIssue), k, l)
    else if Reads(g, l) then
      var issue := if Applied(before, g.order, action, l.owner.value) then NoIssue
                   else if postFailed then FailedIssue else Changed;
      Finished(Accepted(s, l, g.order, issue), k, l)
    else Finished(ReadFailed(s, l, g, Uncertain), k, l)
  }

  class UsePlannedOrder {
    var current: Lifetime
    var mounted: bool
    var locked: bool
    var ended: bool
    var isFresh: bool
    var latest: Option<Order>
    var issue: Issue
    var tasks: map<nat, Task>
    var next: nat
    ghost var trace: seq<Observation>

    ghost function Abs(): Hook
      reads this
    {
      Hook(current, mounted, locked, ended, isFresh, latest, issue, tasks, next, trace)
    }

    constructor (owner: Option<string>, id: string, assignedOnly: bool)
      ensures Abs() == Start(owner, id, assignedOnly)
    {
      current := Lifetime(0, owner, id, assignedOnly);
      mounted, locked, ended, isFresh, latest, issue := true, false, false, false, None, NoIssue;
      tasks, next, trace := map[], 0, [];
    }

    method Replace(owner: Option<string>, id: string, assignedOnly: bool)
      modifies this
      ensures Abs() == AfterReplace(old(Abs()), owner, id, assignedOnly)
    {
      trace := trace + [Ended(current)];
      current := Lifetime(current.serial + 1, owner, id, assignedOnly);
      mounted, locked, ended, latest, isFresh, issue := true, false, false, None, false, NoIssue;
    }

    method Unmount()
      modifies this
      ensures Abs() == AfterUnmount(old(Abs()))
    {
      trace := trace + [Ended(current)];
      mounted, isFresh := false, false;
    }

    predicate IsLive(l: Lifetime)
      reads this
    {
      mounted && current == l && l.owner.Some? && l.owner.value != ""
    }

    method Accept(l: Lifetime, o: Order, why: Issue)
      modifies this
      ensures Abs() == Accepted(old(Abs()), l, o, why)
    {
      if !IsLive(l) { return; }
      latest, isFresh, issue := Some(o), true, why;
    }

    method Fail(l: Lifetime, unavailable: bool, why: Issue)
      modifies this
      ensures Abs() == Failed(old(Abs()), l, unavailable, why)
    {
      if !IsLive(l) { return; }
      isFresh := false;
      if unavailable { latest := None; }
      issue := if unavailable then Unavailable else why;
    }

    method Finish(k: nat, l: Lifetime)
      modifies this
      ensures Abs() == Finished(old(Abs()), k, l)
    {
      tasks := tasks - {k};
      if IsLive(l) { locked := false; }
    }

    method Refresh(l: Lifetime)
      modifies this
      ensures Abs() == AfterRefresh(old(Abs()), l)
    {
      if !IsLive(l) || locked || ended { return; }
      locked, isFresh := true, false;
      tasks := tasks[next := Task(l, Refreshing)];
      next := next + 1;
    }

    method Act(l: Lifetime, action: Action, validValues: bool, onLine: bool)
      modifies this
      ensures Abs() == AfterAct(old(Abs()), l, action, validValues, onLine)
    {
      if !IsLive(l) || locked || !isFresh || latest.None? || !onLine { return; }
      var prior := latest.value;
      if action !in PlannedActions(prior, l.owner.value) || (action == BIDS && !validValues) { return; }
      locked, isFresh, issue := true, false, NoIssue;
      trace := trace + [Begun(next, l, action, prior)];
      tasks := tasks[next := Task(l, Checking(action, prior))];
      next := next + 1;
    }

    method Refreshed(k: nat, l: Lifetime, g: Get)
      modifies this
      ensures Abs() == AfterRefreshed(old(Abs()), k, l, g)
    {
      if Reads(g, l) {
        Accept(l, g.order, NoIssue);
      } else {
        Fail(l, if g.Got? then g.valid && !IsDetail(g.order, l) else g.unavailable, ReadIssue);
      }
      Finish(k, l);
    }

    method Guards(k: nat, l: Lifetime, action: Action, before: Order, onLine: bool)
      modifies this
      ensures Abs() == AfterGuards(old(Abs()), k, l, action, before, onLine)
    {
      if !onLine {
        Fail(l, false, ReadIssue);
        Finish(k, l);
        return;
      }
      trace := trace + [Posted(k, l, action)];
      tasks := tasks[k := Task(l, Posting(action, before))];
    }

    method Checked(k: nat, l: Lifetime, action: Action, prior: Order, g: Get, onLine: bool)
      requires l.owner.Some?
      modifies this
      ensures Abs() == AfterChecked(old(Abs()), k, l, action, prior, g, onLine)
    {
      if !Reads(g, l) {
        Fail(l, if g.Got? then g.valid && !IsDetail(g.order, l) else g.unavailable, ReadIssue);
        Finish(k, l);
        return;
      }
      if !IsLive(l) {
        Finish(k, l);
        return;
      }
      var before := g.order;
      if before.status != prior.status || before.masterId != prior.masterId
         || before.selectedBidId != prior.selectedBidId || action !in PlannedActions(before, l.owner.value) {
        Accept(l, before, Changed);
        Finish(k, l);
        return;
      }
      trace := trace + [Showed(k, before)];
      if action == BIDS && before.mode != FREE_PILOT {
        tasks := tasks[k := Task(l, Balancing(action, before))];
      } else {
        Guards(k, l, action, before, onLine);
      }
    }

    method Balanced(
      k: nat, l: Lifetime, action: Action, before: Order, failed: bool, unavailable: bool, balance: Option<real>,
      onLine: bool)
      modifies this
      ensures Abs() == AfterBalance(old(Abs()), k, l, action, before, failed, unavailable, balance, onLine)
    {
      if failed {
        Fail(l, unavailable, ReadIssue);
        Finish(k, l);
      } else if !IsLive(l) {
        Finish(k, l);
      } else if balance.None? || balance.value < 1.0 {
        Accept(l, before, FailedIssue);
        Finish(k, l);
      } else {
        trace := trace + [Funded(k)];
        Guards(k, l, action, before, onLine);
      }
    }

    method PostAnswered(k: nat, l: Lifetime, action: Action, before: Order, failed: bool)
      modifies this
      ensures Abs() == AfterPosted(old(Abs()), k, l, action, before, failed)
    {
      if !IsLive(l) {
        Finish(k, l);
      } else {
        tasks := tasks[k := Task(l, Confirming(action, before, failed))];
      }
    }

    method Confirmed(k: nat, l: Lifetime, action: Action, before: Order, postFailed: bool, g: Get)
      requires l.owner.Some?
      modifies this
      ensures Abs() == AfterConfirmed(old(Abs()), k, l, action, before, postFailed, g)
    {
      if g.Got? && !IsLive(l) {
        Finish(k, l);
        return;
      }
      if IsReleased(g, action, l) {
        latest, isFresh, ended, issue := None, false, true, NoIssue;
      } else if Reads(g, l) {
        var applied := Applied(before, g.order, action, l.owner.value);
        Accept(l, g.order, if applied then NoIssue else if postFailed then FailedIssue else Changed);
      } else {
        Fail(l, if g.Got? then g.valid && !IsDetail(g.order, l) else g.unavailable, Uncertain);
      }
      Finish(k, l);
    }
  }
}
