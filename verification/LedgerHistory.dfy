/** The balances read off what happened: no accounts, no transactions, only the calls and payments. */
module LedgerHistory {
  import opened Options
  import opened Ledger
  import opened LedgerLaws

  // ---------------------------------------------------------------- lead credits

  /** The packages on sale: credits and price in tenge. */
  function Offer(packageId: string): Option<(int, int)> {
    if packageId == "single" then Some((1, 500))
    else if packageId == "start" then Some((10, 5000))
    else if packageId == "standard" then Some((25, 11000))
    else if packageId == "pro" then Some((60, 24000))
    else None
  }

  predicate Buys(e: Event) { e.BuyPackage? && e.enabled && Offer(e.packageId).Some? }

  /** The purchases begun: who bought which package. */
  function Bought(events: seq<Event>): seq<(Id, string)> {
    if events == [] then []
    else
      var e := events[|events| - 1];
      Bought(events[..|events| - 1]) + if Buys(e) then [(e.master, e.packageId)] else []
  }

  /** The purchase's payment has been answered. */
  predicate PaymentAnswered(events: seq<Event>, id: nat) {
    if events == [] then false
    else
      var e, before := events[|events| - 1], events[..|events| - 1];
      PaymentAnswered(before, id) || (e.Charged? && e.purchase == id && id < |Bought(before)|)
  }

  /** Credits the event is worth to the master, after the events before it. */
  function Worth(before: seq<Event>, e: Event, master: Id): int
    decreases |before|, 1
  {
    match e
    case Charged(id, status) =>
      if status == SUCCEEDED && id < |Bought(before)| && !PaymentAnswered(before, id) && Bought(before)[id].0 == master
      then (match Offer(Bought(before)[id].1) case Some(o) => o.0 case None => 0)
      else 0
    case Spend(m) => if m == master && Due(before, master) >= 1 then -1 else 0
    case Refund(m) => if m == master && HasAccount(before, master) then 1 else 0
    case Penalty(m, _) => if m == master then -2 else 0
    case Cancel(m, _, _) => if m == master then -2 else 0
    case BuyPackage(_, _, _) => 0
  }

  /** Packages paid, less bids made, plus bids refunded, less two for each penalty. */
  function Due(events: seq<Event>, master: Id): int
    decreases |events|, 0
  {
    if events == [] then 0
    else
      var before := events[..|events| - 1];
      Due(before, master) + Worth(before, events[|events| - 1], master)
  }

  /** A paid package or a penalty opens the account. */
  predicate HasAccount(events: seq<Event>, master: Id)
    decreases |events|, 0
  {
    if events == [] then false
    else
      var e, before := events[|events| - 1], events[..|events| - 1];
      || HasAccount(before, master)
      || (e.Penalty? && e.master == master) || (e.Cancel? && e.master == master)
      || (e.Charged? && e.status == SUCCEEDED && e.purchase < |Bought(before)| && !PaymentAnswered(before, e.purchase)
          && Bought(before)[e.purchase].0 == master)
  }

  lemma OfferIsPackage(packageId: string)
    ensures var p := FindPackage(PACKAGES, packageId);
            && (p.Some? <==> Offer(packageId).Some?)
            && (p.Some? ==> Offer(packageId).value == (p.value.credits, p.value.priceTenge))
  {
    var three := PACKAGES[1..];
    var two := three[1..];
    var one := two[1..];
    assert three[0] == PACKAGES[1] && two[0] == PACKAGES[2] && one[0] == PACKAGES[3] && one[1..] == [];
    assert FindPackage(one, packageId) == if packageId == "pro" then Some(one[0]) else None;
    assert FindPackage(two, packageId) == if packageId == "standard" then Some(two[0]) else FindPackage(one, packageId);
    assert FindPackage(three, packageId)
        == if packageId == "start" then Some(three[0]) else FindPackage(two, packageId);
  }

  /** The first answer to the payment of a purchase. */
  function Payment(events: seq<Event>, id: nat): Option<PaymentStatus> {
    if events == [] then None
    else
      var e, before := events[|events| - 1], events[..|events| - 1];
      if PaymentAnswered(before, id) then Payment(before, id)
      else if e.Charged? && e.purchase == id && id < |Bought(before)| then Some(e.status)
      else None
  }

  ghost predicate PurchasesAgree(b: Books, events: seq<Event>) {
    && |b.purchases| == |Bought(events)|
    && (forall id: nat :: id < |b.purchases| ==>
          b.purchases[id].status == match Payment(events, id) case None => PENDING case Some(st) => st)
    && (forall id :: 0 <= id < |b.purchases| ==>
          && b.purchases[id].master == Bought(events)[id].0
          && Offer(Bought(events)[id].1) == Some((b.purchases[id].credits, b.purchases[id].priceTenge)))
    && (forall id: nat :: id in b.charging <==> id < |Bought(events)| && !PaymentAnswered(events, id))
  }

  ghost predicate AccountAgrees(b: Books, events: seq<Event>, master: Id) {
    && Balance(b.accounts, master) == Due(events, master)
    && (master in b.accounts <==> HasAccount(events, master))
  }

  lemma Appended(before: seq<Event>, e: Event)
    ensures Bought(before + [e]) == Bought(before) + if Buys(e) then [(e.master, e.packageId)] else []
    ensures forall id: nat :: PaymentAnswered(before + [e], id) <==>
                       PaymentAnswered(before, id) || (e.Charged? && e.purchase == id && id < |Bought(before)|)
    ensures forall id: nat :: Payment(before + [e], id)
                       == if PaymentAnswered(before, id) then Payment(before, id)
                          else if e.Charged? && e.purchase == id && id < |Bought(before)| then Some(e.status)
                          else None
    ensures forall master :: Due(before + [e], master) == Due(before, master) + Worth(before, e, master)
    ensures forall master :: HasAccount(before + [e], master) <==>
      || HasAccount(before, master)
      || (e.Penalty? && e.master == master) || (e.Cancel? && e.master == master)
      || (e.Charged? && e.status == SUCCEEDED && e.purchase < |Bought(before)| && !PaymentAnswered(before, e.purchase)
          && Bought(before)[e.purchase].0 == master)
  {
    assert (before + [e])[..|before|] == before;
  }

  lemma {:induction false} AnsweredWasBought(events: seq<Event>, id: nat)
    requires PaymentAnswered(events, id)
    ensures id < |Bought(events)|
  {
    var before := events[..|events| - 1];
    if PaymentAnswered(before, id) { AnsweredWasBought(before, id); }
  }

  lemma {:induction false} Unanswered(events: seq<Event>, id: nat)
    requires !PaymentAnswered(events, id)
    ensures Payment(events, id) == None
  {
  }

  lemma StepPurchases(b: Books, before: seq<Event>, e: Event)
    requires PurchasesAgree(b, before)
    ensures PurchasesAgree(Step(b, e), before + [e])
  {
    hide PurchasesAgree, AfterPurchase, AfterCharge, AfterCancellation, AfterPenalty;
    match e
    case BuyPackage(_, _, _) => BuyPurchases(b, before, e);
    case Charged(_, _) => ChargePurchases(b, before, e);
    case _ => OtherPurchases(b, before, e);
  }

  lemma BuyPurchases(b: Books, before: seq<Event>, e: Event)
    requires PurchasesAgree(b, before) && e.BuyPackage?
    ensures PurchasesAgree(Step(b, e), before + [e])
  {
    hide Offer, FindPackage, Due, HasAccount;
    Appended(before, e);
    OfferIsPackage(e.packageId);
    var n := |Bought(before)|;
    if PaymentAnswered(before, n) { AnsweredWasBought(before, n); }
    Unanswered(before, n);
  }

  lemma ChargePurchases(b: Books, before: seq<Event>, e: Event)
    requires PurchasesAgree(b, before) && e.Charged?
    ensures PurchasesAgree(Step(b, e), before + [e])
  {
    hide Offer, Due, HasAccount;
    Appended(before, e);
    forall id: nat | !PaymentAnswered(before, id) ensures Payment(before, id) == None { Unanswered(before, id); }
  }

  lemma OtherPurchases(b: Books, before: seq<Event>, e: Event)
    requires PurchasesAgree(b, before) && !e.BuyPackage? && !e.Charged?
    ensures PurchasesAgree(Step(b, e), before + [e])
  {
    hide Offer, Due, HasAccount, Blocks;
    Appended(before, e);
    forall id: nat | !PaymentAnswered(before, id) ensures Payment(before, id) == None { Unanswered(before, id); }
  }

  lemma StepAccount(b: Books, before: seq<Event>, e: Event, master: Id)
    requires PurchasesAgree(b, before) && AccountAgrees(b, before, master)
    ensures AccountAgrees(Step(b, e), before + [e], master)
  {
    hide Offer, FindPackage, Bought, PaymentAnswered, Blocks;
    Appended(before, e);
  }

  /** Over any run, the balance of a master is what was paid for, less bids and penalties, plus
      refunds; a bid is accepted exactly if that is at least one, and a refund exactly if the master
      ever paid or was penalised. */
  lemma {:induction false} BalanceIsDue(masters: set<Id>, events: seq<Event>, master: Id)
    ensures var b := Run(masters, events);
            && Balance(b.accounts, master) == Due(events, master)
            && (AfterSpend(b, master) != b <==> Due(events, master) >= 1)
            && (AfterRefund(b, master) != b <==> HasAccount(events, master))
  {
    RunAgrees(masters, events, master);
    var b := Run(masters, events);
    assert (b.transactions + [Transaction(master, SPEND, 1, None)]) != b.transactions;
    assert (b.transactions + [Transaction(master, REFUND, 1, None)]) != b.transactions;
  }

  lemma {:induction false} RunAgrees(masters: set<Id>, events: seq<Event>, master: Id)
    ensures PurchasesAgree(Run(masters, events), events) && AccountAgrees(Run(masters, events), events, master)
  {
    hide Step, PurchasesAgree, AccountAgrees;
    if events == [] {
      NothingDue(masters, master);
    } else {
      var before, e := events[..|events| - 1], events[|events| - 1];
      RunAgrees(masters, before, master);
      StepPurchases(Run(masters, before), before, e);
      StepAccount(Run(masters, before), before, e, master);
      assert before + [e] == events;
    }
  }

  lemma NothingDue(masters: set<Id>, master: Id)
    ensures PurchasesAgree(Run(masters, []), []) && AccountAgrees(Run(masters, []), [], master)
  {
  }

  /** How a purchase is answered: refused when credits are not sold or the package is not on sale,
      and otherwise charged its price under the next number. */
  lemma {:induction false} PurchaseAnswered(
    masters: set<Id>, events: seq<Event>, master: Id, packageId: string, enabled: bool)
    ensures AfterPurchase(Run(masters, events), master, packageId, enabled).1
         == if !enabled then Forbidden
            else if Offer(packageId).None? then UnknownPackage
            else Charging(|Bought(events)|, Offer(packageId).value.1)
  {
    RunAgrees(masters, events, master);
    OfferIsPackage(packageId);
  }

  /** Each purchase records who bought what, at which price, and the first answer to its payment. */
  lemma {:induction false} PurchasesAreRecorded(masters: set<Id>, events: seq<Event>, id: nat)
    requires id < |Run(masters, events).purchases|
    ensures id < |Bought(events)|
    ensures var p := Run(masters, events).purchases[id];
            && p.master == Bought(events)[id].0
            && Offer(Bought(events)[id].1) == Some((p.credits, p.priceTenge))
            && p.status == (match Payment(events, id) case None => PENDING case Some(st) => st)
  {
    RunAgrees(masters, events, "");
  }

  // ---------------------------------------------------------------- blocks

  /** Cancellations of the master that were the third within thirty days. */
  ghost function Thirds(cs: seq<Cancellation>, master: Id): nat {
    if cs == [] then 0
    else
      var k := |cs| - 1;
      Thirds(cs[..k], master) + if ThirdWithinWindow(cs, master, k) then 1 else 0
  }

  function Blocked(blocks: seq<Id>, master: Id): nat {
    if blocks == [] then 0
    else Blocked(blocks[..|blocks| - 1], master) + if blocks[|blocks| - 1] == master then 1 else 0
  }

  /** A block is audited for each such cancellation and for no other. */
  lemma {:induction false} BlocksAreAudited(masters: set<Id>, events: seq<Event>, master: Id)
    ensures var b := Run(masters, events); Blocked(b.blocks, master) == Thirds(b.cancellations, master)
  {
    hide Step, Thirds, Blocked;
    if events == [] {
      NothingBlocked(master);
    } else {
      BlocksAreAudited(masters, events[..|events| - 1], master);
      BlockStep(Run(masters, events[..|events| - 1]), events[|events| - 1], master);
    }
  }

  lemma NothingBlocked(master: Id)
    ensures Blocked([], master) == Thirds([], master) == 0
  {
  }

  lemma BlockStep(b: Books, e: Event, master: Id)
    requires Blocked(b.blocks, master) == Thirds(b.cancellations, master)
    ensures var c := Step(b, e); Blocked(c.blocks, master) == Thirds(c.cancellations, master)
  {
    hide Thirds, Blocked, Blocks, ThirdWithinWindow;
    if e.Cancel? {
      var c := Cancellation(e.master, e.orderId, e.now);
      var cs := b.cancellations + [c];
      BlocksIsThird(cs, e.master, e.now);
      BlockedAppended(b.blocks, e.master, master);
      ThirdsAppended(b.cancellations, c, master);
    }
  }

  lemma BlockedAppended(blocks: seq<Id>, m: Id, master: Id)
    ensures Blocked(blocks + [m], master) == Blocked(blocks, master) + if m == master then 1 else 0
  {
    assert (blocks + [m])[..|blocks|] == blocks;
  }

  lemma ThirdsAppended(cs: seq<Cancellation>, c: Cancellation, master: Id)
    ensures Thirds(cs + [c], master)
         == Thirds(cs, master) + if c.master == master && ThirdWithinWindow(cs + [c], master, |cs|) then 1 else 0
  {
    assert (cs + [c])[..|cs|] == cs;
  }

  // ---------------------------------------------------------------- priority

  /** When the master was last penalised, if ever. */
  function LastPenalty(events: seq<Event>, master: Id): Option<int> {
    if events == [] then None
    else
      var e := events[|events| - 1];
      if (e.Penalty? || e.Cancel?) && e.master == master then Some(e.now)
      else LastPenalty(events[..|events| - 1], master)
  }

  /** A master with a profile has low priority until a day after the last penalty. */
  lemma {:induction false} PriorityIsDay(masters: set<Id>, events: seq<Event>, master: Id)
    requires master in masters
    ensures var b := Run(masters, events);
            && master in b.profiles
            && b.profiles[master].priorityPenaltyUntil
               == (match LastPenalty(events, master) case None => None case Some(at) => Some(at + 24 * 3600 * 1000))
  {
    if events != [] {
      PriorityIsDay(masters, events[..|events| - 1], master);
      PriorityStep(Run(masters, events[..|events| - 1]), events[|events| - 1], master);
    }
  }

  lemma PriorityStep(b: Books, e: Event, master: Id)
    requires master in b.profiles
    ensures var c := Step(b, e);
            && master in c.profiles
            && c.profiles[master].priorityPenaltyUntil
               == if (e.Penalty? || e.Cancel?) && e.master == master then Some(e.now + 24 * 3600 * 1000)
                  else b.profiles[master].priorityPenaltyUntil
  {
    hide Blocks;
  }

  // ---------------------------------------------------------------- compensation

  /** The first order with this id that was paid and has a master. */
  function FirstPaid(events: seq<WalletEvent>, orderId: Id): Option<Order> {
    if events == [] then None
    else
      var first, e := FirstPaid(events[..|events| - 1], orderId), events[|events| - 1];
      if first.Some? then first
      else if && e.Accrue? && e.order.id == orderId
              && e.order.paid && e.order.masterId.Some? && e.order.masterId.value != ""
      then Some(e.order) else None
  }

  ghost predicate AccrualIs(w: Wallets, orderId: Id, o: Option<Order>) {
    match o
    case None => forall a :: a in w.accruals ==> a.orderId != orderId
    case Some(o) =>
      && o.masterId.Some?
      && (forall a :: a in w.accruals && a.orderId == orderId ==>
            a == Accrual(o.masterId.value, orderId, o.calloutPrice - o.serviceFee))
      && exists a :: a in w.accruals && a.orderId == orderId
  }

  lemma StepAccrual(w: Wallets, o: Order, orderId: Id, first: Option<Order>)
    requires AccrualIs(w, orderId, first)
    ensures AccrualIs(AfterAccrue(w, o), orderId,
                      if first.Some? then first
                      else if o.id == orderId && o.paid && o.masterId.Some? && o.masterId.value != ""
                      then Some(o) else None)
  {
    var t := AfterAccrue(w, o);
    assert HasAccrual(w.accruals, o.id) <==> exists a :: a in w.accruals && a.orderId == o.id;
    if Compensated(o) && !HasAccrual(w.accruals, o.id) {
      assert Accrual(o.masterId.value, o.id, o.calloutPrice - o.serviceFee) in t.accruals;
    }
  }

  /** Over any run an order is compensated exactly if it was paid and had a master at some accrual;
      its master at the first of these gets the price of the callout less the service fee. */
  lemma {:induction false} CompensatedIff(events: seq<WalletEvent>, orderId: Id)
    ensures AccrualIs(WalletRun(events), orderId, FirstPaid(events, orderId))
  {
    if events != [] {
      var before := events[..|events| - 1];
      CompensatedIff(before, orderId);
      match events[|events| - 1]
      case Accrue(o) => StepAccrual(WalletRun(before), o, orderId, FirstPaid(before, orderId));
      case Move(_, _) =>
    }
  }
}
