/** How a command on a planned order goes from its click to its end, and which commands are offered
    against what the server accepts (apps/api/src/planned-orders/planned-orders.service.ts). */
module PlannedCommands {
  import opened Options
  import opened PlannedOrder
  import opened PlannedOrderLaws

  // ---------------------------------------------------------------- what the server accepts

  /** The server's order, with the masters who have bid. */
  datatype Row = Row(
    id: string, legacy: bool, mode: Mode, status: string, masterId: Option<string>, selectedBidId: Option<string>,
    bidders: seq<string>)

  const MAX_BIDS := 5

  /** getByIdForUser for a master who is not the client: the assigned one sees everything, others
      only a published order, with their own bid and the number of bids. */
  function Shown(r: Row, user: string): Option<Order> {
    if r.masterId == Some(user) then
      Some(Order(r.id, r.legacy, r.mode, r.status, r.masterId, Some(r.selectedBidId), None,
                 Some(seq(|r.bidders|, n requires 0 <= n < |r.bidders| => Bid(r.bidders[n]))), None))
    else if r.masterId.Some? || r.status != "PUBLISHED" then None
    else
      Some(Order(r.id, r.legacy, r.mode, r.status, r.masterId, Some(r.selectedBidId),
                 if user in r.bidders then Some(Bid(user)) else None, Some([]), Some(|r.bidders|)))
  }

  /** The guards of placeBid, confirm, decline, onSite, complete and cancel for a master; credits
      and the block on new bids apart. */
  predicate ServerAccepts(r: Row, action: Action, user: string) {
    && r.legacy
    && match action
       case BIDS => r.status == "PUBLISHED" && |r.bidders| < MAX_BIDS && user !in r.bidders
       case CONFIRM =>
         && r.masterId == Some(user) && r.status == "MASTER_SELECTED"
         && r.selectedBidId.Some? && r.selectedBidId.value != ""
       case DECLINE => r.masterId == Some(user) && r.status == "MASTER_SELECTED"
       case ON_SITE => r.masterId == Some(user) && r.status == "CONFIRMED"
       case COMPLETE => r.masterId == Some(user) && r.status == "IN_PROGRESS"
       case CANCEL => r.masterId == Some(user) && r.status in {"CONFIRMED", "IN_PROGRESS"}
  }

  /** What the server's own writes keep: a published order has no master, and one whose master is
      selected has a bid. */
  predicate Coherent(r: Row) {
    && (r.status == "PUBLISHED" ==> r.masterId == None)
    && (r.status == "MASTER_SELECTED" ==> r.selectedBidId.Some? && r.selectedBidId.value != "")
  }

  lemma StatusesDiffer(status: string)
    ensures status == "PUBLISHED" ==>
              status != "MASTER_SELECTED" && status != "CONFIRMED" && status != "IN_PROGRESS"
    ensures status == "MASTER_SELECTED" ==> status != "CONFIRMED" && status != "IN_PROGRESS"
    ensures status == "CONFIRMED" ==> status != "IN_PROGRESS"
  {
    assert |"PUBLISHED"| == |"CONFIRMED"| == 9 && |"MASTER_SELECTED"| == 15 && |"IN_PROGRESS"| == 11;
    assert "PUBLISHED"[0] != "CONFIRMED"[0];
  }

  /** For every order the server shows to a master, an action is offered exactly if the server
      accepts it of this master. */
  lemma OfferedIff(r: Row, user: string, action: Action)
    requires Coherent(r) && Shown(r, user).Some?
    ensures action in PlannedActions(Shown(r, user).value, user) <==> ServerAccepts(r, action, user)
  {
    StatusesDiffer(r.status);
  }

  // ---------------------------------------------------------------- a command up to its POST

  /** The answers a command gets before its POST. */
  datatype Answers = Answers(first: Get, failed: bool, unavailable: bool, balance: Option<real>, onLine: bool)

  /** A command that needs a credit. */
  predicate Paid(action: Action, o: Order) { action == BIDS && o.mode != FREE_PILOT }

  /** The first read shows the order unchanged, and the action is still offered. */
  predicate Holds(l: Lifetime, action: Action, prior: Order, g: Get)
    requires l.owner.Some?
  {
    Reads(g, l) && Unchanged(prior, g.order) && action in PlannedActions(g.order, l.owner.value)
  }

  predicate Affords(a: Answers) { !a.failed && a.balance.Some? && a.balance.value >= 1.0 }

  /** The command's steps up to where it posts or ends; each answer is to its own request. */
  function Prepared(s: Hook, l: Lifetime, action: Action, a: Answers): Hook {
    var s1 := Step(s, Act(l, action, true, true));
    var s2 := Step(s1, Answer(s.next, a.first, false, false, None, a.onLine));
    if s.next in s2.tasks && s2.tasks[s.next].stage.Balancing? then
      Step(s2, Answer(s.next, a.first, a.failed, a.unavailable, a.balance, a.onLine))
    else s2
  }

  /** The hook goes on without the task, unlocked and with nothing sent but what the trace says. */
  predicate Over(s: Hook, t: Hook, k: nat, more: seq<Observation>) {
    && t.tasks == s.tasks - {k} && !t.locked && t.trace == s.trace + more
    && t.current == s.current && t.mounted == s.mounted && t.ended == s.ended && t.next == s.next
  }

  /** It waits in the next stage. */
  predicate Waits(s: Hook, t: Hook, k: nat, task: Task, more: seq<Observation>) {
    && t.tasks == s.tasks[k := task] && t.locked == s.locked && t.trace == s.trace + more
    && t.current == s.current && t.mounted == s.mounted && t.ended == s.ended && t.next == s.next
  }

  lemma FirstRead(s: Hook, k: nat, l: Lifetime, action: Action, prior: Order, a: Answers)
    requires k in s.tasks && s.tasks[k] == Task(l, Checking(action, prior)) && Live(s, l)
    ensures var t := Step(s, Answer(k, a.first, false, false, None, a.onLine));
            if !Holds(l, action, prior, a.first) then
              && Over(s, t, k, [])
              && (Reads(a.first, l) ==> t.latest == Some(a.first.order) && t.isFresh && t.issue == Changed)
            else
              var o := a.first.order;
              if Paid(action, o) then Waits(s, t, k, Task(l, Balancing(action, o)), [Showed(k, o)])
              else if a.onLine then Waits(s, t, k, Task(l, Posting(action, o)), [Showed(k, o), Posted(k, l, action)])
              else Over(s, t, k, [Showed(k, o)])
  {
    hide PlannedActions, Unchanged, IsDetail;
  }

  lemma BalanceRead(s: Hook, k: nat, l: Lifetime, action: Action, o: Order, a: Answers)
    requires k in s.tasks && s.tasks[k] == Task(l, Balancing(action, o)) && Live(s, l)
    ensures var t := Step(s, Answer(k, a.first, a.failed, a.unavailable, a.balance, a.onLine));
            if !Affords(a) then
              && Over(s, t, k, [])
              && (!a.failed ==> t.latest == Some(o) && t.issue == FailedIssue)
            else if a.onLine then Waits(s, t, k, Task(l, Posting(action, o)), [Funded(k), Posted(k, l, action)])
            else Over(s, t, k, [Funded(k)])
  {
  }

  /** A command that may start, and whose lifetime stays, posts exactly if its own read shows nothing
      has changed and the action is still offered, a paid bid is covered by the balance, and the
      browser is on line. If it does not post it is over: unlocked, with nothing sent. */
  lemma PostsIff(s: Hook, l: Lifetime, action: Action, a: Answers)
    requires Inv(s) && MayAct(s, l, action, true, true)
    ensures var t := Prepared(s, l, action, a);
            var k, prior := s.next, s.latest.value;
            var posts := Holds(l, action, prior, a.first) && (Paid(action, a.first.order) ==> Affords(a)) && a.onLine;
            && (Posted(k, l, action) in t.trace <==> posts)
            && (posts ==> t.locked && k in t.tasks && t.tasks[k] == Task(l, Posting(action, a.first.order)))
            && (!posts ==> !t.locked && t.tasks == s.tasks)
            && (Holds(l, action, prior, a.first) && Paid(action, a.first.order) && !Affords(a) && !a.failed ==>
                  t.latest == Some(a.first.order) && t.issue == FailedIssue)
            && (Reads(a.first, l) && !Holds(l, action, prior, a.first) ==>
                  t.latest == Some(a.first.order) && t.isFresh && t.issue == Changed)
            && t.current == s.current && t.mounted && t.ended == s.ended
  {
    FreshNumber(s);
    var k, prior := s.next, s.latest.value;
    var s1 := Step(s, Act(l, action, true, true));
    CommandBegins(s, l, action);
    FirstRead(s1, k, l, action, prior, a);
    var s2 := Step(s1, Answer(k, a.first, false, false, None, a.onLine));
    hide Inv, Step, PlannedActions, Affords, IsDetail, Unchanged;
    assert s1.tasks - {k} == s.tasks && s2.tasks - {k} == s.tasks;
    if k in s2.tasks && s2.tasks[k].stage.Balancing? { BalanceRead(s2, k, l, action, a.first.order, a); }
  }

  lemma CommandBegins(s: Hook, l: Lifetime, action: Action)
    requires Inv(s) && MayAct(s, l, action, true, true)
    ensures var s1 := Step(s, Act(l, action, true, true));
            && s1.tasks == s.tasks[s.next := Task(l, Checking(action, s.latest.value))] && s1.locked && Live(s1, l)
            && s1.trace == s.trace + [Begun(s.next, l, action, s.latest.value)]
            && s1.current == s.current && s1.mounted == s.mounted && s1.ended == s.ended
            && s1.next == s.next + 1
  {
    hide Inv, PlannedActions;
  }

  lemma FreshNumber(s: Hook)
    requires Inv(s)
    ensures s.next !in s.tasks
    ensures forall l, action :: Posted(s.next, l, action) !in s.trace
  {
    forall k | k in s.tasks ensures k < s.next { assert TaskKept(s, k, s.tasks[k]); }
  }

  // ---------------------------------------------------------------- after the POST

  /** Declined or cancelled, the order is open again: it is no longer this master's. */
  predicate GivenBack(action: Action, l: Lifetime, g: Get) {
    && action in {DECLINE, CANCEL} && g.Got?
    && g.order.id == l.id && g.order.legacy && g.order.status == "PUBLISHED" && g.order.masterId == None
  }

  /** The read shows the effect of the command. */
  predicate TookEffect(action: Action, owner: string, before: Order, after: Order) {
    if action == BIDS then HasOwnBid(after, owner)
    else after.status != before.status || after.masterId != before.masterId
  }

  /** How a posted command ends, whether or not its POST was answered: it is unlocked and sends
      nothing more. An order given back is dropped; an order that can be read is shown, and the
      command counts as done exactly if the order shows it; otherwise its outcome is unknown. */
  lemma CommandEnds(s: Hook, k: nat, l: Lifetime, action: Action, before: Order, failed: bool, g: Get)
    requires k in s.tasks && s.tasks[k] == Task(l, Posting(action, before)) && Live(s, l)
    ensures var posted := Step(s, Answer(k, g, failed, false, None, true));
            var t := Step(posted, Answer(k, g, false, false, None, true));
            && !t.locked && t.tasks == s.tasks - {k} && t.trace == s.trace
            && (if GivenBack(action, l, g) then t.ended && t.latest == None && t.issue == NoIssue && !t.isFresh
                else if Reads(g, l) then
                  && t.ended == s.ended && t.latest == Some(g.order) && t.isFresh
                  && t.issue == (if TookEffect(action, l.owner.value, before, g.order) then NoIssue
                                 else if failed then FailedIssue else Changed)
                else t.ended == s.ended && !t.isFresh && t.issue in {Uncertain, Unavailable})
  {
    hide PlannedActions, Unchanged, IsDetail, HasOwnBid;
    var posted := Step(s, Answer(k, g, failed, false, None, true));
    assert posted.tasks - {k} == s.tasks - {k};
  }

  // ---------------------------------------------------------------- reads and replacements

  /** Another owner or order starts as a new hook does: unlocked, not ended, with nothing shown, and
      ready to read; only the tasks of the old lifetime go on. */
  lemma ReplacedIsNew(s: Hook, owner: Option<string>, id: string, assignedOnly: bool)
    ensures var t, n := Step(s, Replace(owner, id, assignedOnly)), Start(owner, id, assignedOnly);
            && t.(current := n.current, tasks := n.tasks, next := n.next, trace := n.trace) == n
            && t.current == n.current.(serial := s.current.serial + 1)
            && t.tasks == s.tasks
            && (owner.Some? && owner.value != "" ==> MayRefresh(t, t.current))
  {
  }

  /** What a refresh leaves, while its lifetime stays: the order it read, fresh; nothing at all when
      the server says there is no such order for this master, or shows another one; and otherwise what
      was shown before, no longer fresh. */
  lemma RefreshOutcome(s: Hook, l: Lifetime, g: Get)
    requires Inv(s) && MayRefresh(s, l)
    ensures var asked := Step(s, Refresh(l));
            var t := Step(asked, Answer(s.next, g, false, false, None, true));
            && asked.locked && !asked.isFresh && s.next in asked.tasks
            && !t.locked && t.tasks == s.tasks && t.trace == s.trace
            && (if Reads(g, l) then t.latest == Some(g.order) && t.isFresh && t.issue == NoIssue
                else if (g.NotGot? && g.unavailable) || (g.Got? && g.valid)
                then t.latest == None && !t.isFresh && t.issue == Unavailable
                else t.latest == s.latest && !t.isFresh && t.issue == ReadIssue)
  {
    FreshNumber(s);
    hide Inv, PlannedActions;
    var asked := Step(s, Refresh(l));
    assert asked.tasks - {s.next} == s.tasks;
  }
}
