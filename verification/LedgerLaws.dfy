/** Over every run: balances are the sums of their records, and the third cancellation in a month
    blocks. */
module LedgerLaws {
  import opened Options
  import opened Ledger

  datatype Event =
    | BuyPackage(master: Id, packageId: string, enabled: bool)
    | Charged(purchase: nat, status: PaymentStatus)
    | Spend(master: Id)
    | Refund(master: Id)
    | Penalty(master: Id, now: int)
    | Cancel(master: Id, orderId: Id, now: int)

  function Step(b: Books, e: Event): Books {
    match e
    case BuyPackage(master, packageId, enabled) => AfterPurchase(b, master, packageId, enabled).0
    case Charged(id, status) => AfterCharge(b, id, status)
    case Spend(master) => AfterSpend(b, master)
    case Refund(master) => AfterRefund(b, master)
    case Penalty(master, now) => AfterPenalty(b, master, now)
    case Cancel(master, orderId, now) => AfterCancellation(b, master, orderId, now)
  }

  function Run(masters: set<Id>, events: seq<Event>): Books {
    if events == [] then Opened(masters) else Step(Run(masters, events[..|events| - 1]), events[|events| - 1])
  }

  // ---------------------------------------------------------------- credits

  /** What a transaction does to the balance: a spent credit is recorded with a positive amount. */
  function Signed(t: Transaction): int { if t.kind.SPEND? then -t.amount else t.amount }

  function Sum(ts: seq<Transaction>, master: Id): int {
    if ts == [] then 0
    else
      var t := ts[|ts| - 1];
      Sum(ts[..|ts| - 1], master) + if t.master == master then Signed(t) else 0
  }

  lemma SumAppended(ts: seq<Transaction>, t: Transaction, master: Id)
    ensures Sum(ts + [t], master) == Sum(ts, master) + if t.master == master then Signed(t) else 0
  {
    assert (ts + [t])[..|ts|] == ts;
  }

  /** How often the purchase was booked. */
  function Booked(ts: seq<Transaction>, id: nat): nat {
    if ts == [] then 0
    else Booked(ts[..|ts| - 1], id) + if ts[|ts| - 1].purchaseId == Some(id) then 1 else 0
  }

  lemma BookedAppended(ts: seq<Transaction>, t: Transaction, id: nat)
    ensures Booked(ts + [t], id) == Booked(ts, id) + if t.purchaseId == Some(id) then 1 else 0
  {
    assert (ts + [t])[..|ts|] == ts;
  }

  ghost predicate BalancesAreSums(b: Books) {
    forall master :: Balance(b.accounts, master) == Sum(b.transactions, master)
  }

  /** A purchase is booked once if it is recorded as paid, and not at all otherwise. */
  ghost predicate PurchasesBooked(b: Books) {
    && (forall id :: id in b.charging ==> id < |b.purchases| && b.purchases[id].status.PENDING?)
    && (forall id: nat :: Booked(b.transactions, id)
                          == if id < |b.purchases| && b.purchases[id].status.SUCCEEDED? then 1 else 0)
    && (forall i :: 0 <= i < |b.transactions| && b.transactions[i].purchaseId.Some? ==>
          var id := b.transactions[i].purchaseId.value;
          id < |b.purchases| && b.transactions[i].master == b.purchases[id].master
          && b.transactions[i].amount == b.purchases[id].credits)
  }

  /** One transaction and the same change of the balance. */
  ghost predicate Posts(b: Books, c: Books, t: Transaction) {
    c.transactions == b.transactions + [t] && c.accounts == Credited(b.accounts, t.master, Signed(t))
  }

  lemma BalanceKept(b: Books, c: Books, t: Transaction, master: Id)
    requires Balance(b.accounts, master) == Sum(b.transactions, master) && Posts(b, c, t)
    ensures Balance(c.accounts, master) == Sum(c.transactions, master)
  {
    SumAppended(b.transactions, t, master);
  }

  lemma BalancesKept(b: Books, c: Books, t: Transaction)
    requires BalancesAreSums(b) && Posts(b, c, t)
    ensures BalancesAreSums(c)
  {
    forall master ensures Balance(c.accounts, master) == Sum(c.transactions, master) {
      BalanceKept(b, c, t, master);
    }
  }

  /** A transaction that is no purchase leaves the purchases booked. */
  lemma OtherBooked(b: Books, c: Books, t: Transaction)
    requires PurchasesBooked(b) && c.transactions == b.transactions + [t] && t.purchaseId.None?
    requires c.purchases == b.purchases && c.charging == b.charging
    ensures PurchasesBooked(c)
  {
    forall k: nat ensures Booked(c.transactions, k) == Booked(b.transactions, k) {
      BookedAppended(b.transactions, t, k);
    }
  }

  lemma ChargeBooked(b: Books, id: nat, status: PaymentStatus)
    requires PurchasesBooked(b) && id in b.charging
    ensures PurchasesBooked(AfterCharge(b, id, status))
  {
    if status.SUCCEEDED? {
      var t := Transaction(b.purchases[id].master, PURCHASE, b.purchases[id].credits, Some(id));
      forall k: nat ensures Booked(b.transactions + [t], k) == Booked(b.transactions, k) + if k == id then 1 else 0 {
        BookedAppended(b.transactions, t, k);
      }
    }
  }

  ghost predicate Conserved(b: Books) { BalancesAreSums(b) && PurchasesBooked(b) }

  lemma ChargeKeeps(b: Books, id: nat, status: PaymentStatus)
    requires Conserved(b)
    ensures Conserved(AfterCharge(b, id, status))
  {
    if id in b.charging {
      ChargeBooked(b, id, status);
      if status.SUCCEEDED? {
        var p := b.purchases[id];
        BalancesKept(b, AfterCharge(b, id, status), Transaction(p.master, PURCHASE, p.credits, Some(id)));
      }
    }
  }

  lemma OtherKeeps(b: Books, c: Books, t: Transaction)
    requires Conserved(b) && Posts(b, c, t) && t.purchaseId.None?
    requires c.purchases == b.purchases && c.charging == b.charging
    ensures Conserved(c)
  {
    BalancesKept(b, c, t);
    OtherBooked(b, c, t);
  }

  lemma StepConserves(b: Books, e: Event)
    requires Conserved(b)
    ensures Conserved(Step(b, e))
  {
    match e
    case BuyPackage(_, _, _) =>
    case Charged(id, status) => ChargeKeeps(b, id, status);
    case Spend(master) =>
      if Balance(b.accounts, master) >= 1 { OtherKeeps(b, Step(b, e), Transaction(master, SPEND, 1, None)); }
    case Refund(master) =>
      if master in b.accounts { OtherKeeps(b, Step(b, e), Transaction(master, REFUND, 1, None)); }
    case Penalty(master, _) => OtherKeeps(b, Step(b, e), Transaction(master, PENALTY, -PENALTY_CREDITS, None));
    case Cancel(master, _, _) => OtherKeeps(b, Step(b, e), Transaction(master, PENALTY, -PENALTY_CREDITS, None));
  }

  /** Over any run of purchases, payments, bids, refunds, penalties and cancellations each balance
      is the signed sum of its transactions, and exactly the purchases recorded as paid are booked,
      each once and with its credits. */
  lemma {:induction false} CreditsConserved(masters: set<Id>, events: seq<Event>)
    ensures BalancesAreSums(Run(masters, events)) && PurchasesBooked(Run(masters, events))
  {
    if events != [] {
      CreditsConserved(masters, events[..|events| - 1]);
      StepConserves(Run(masters, events[..|events| - 1]), events[|events| - 1]);
    }
  }

  // ---------------------------------------------------------------- the amount column

  function Amounts(ts: seq<Transaction>, master: Id): int {
    if ts == [] then 0
    else
      var t := ts[|ts| - 1];
      Amounts(ts[..|ts| - 1], master) + if t.master == master then t.amount else 0
  }

  predicate IsSpend(t: Transaction, master: Id) { t.master == master && t.kind.SPEND? }

  function Spends(ts: seq<Transaction>, master: Id): nat {
    if ts == [] then 0
    else Spends(ts[..|ts| - 1], master) + if IsSpend(ts[|ts| - 1], master) then 1 else 0
  }

  lemma {:induction false} AmountsExceed(ts: seq<Transaction>, master: Id)
    requires forall t :: t in ts && t.kind.SPEND? ==> t.amount == 1
    ensures Amounts(ts, master) == Sum(ts, master) + 2 * Spends(ts, master)
    ensures Spends(ts, master) == 0 <==> forall t :: t in ts ==> !IsSpend(t, master)
  {
    if ts != [] {
      var n := |ts| - 1;
      assert ts[n] in ts && forall t :: t in ts[..n] ==> t in ts;
      assert forall t :: t in ts ==> t in ts[..n] || t == ts[n];
      AmountsExceed(ts[..n], master);
    }
  }

  lemma {:induction false} SpendsAreOne(masters: set<Id>, events: seq<Event>)
    ensures forall t :: t in Run(masters, events).transactions && t.kind.SPEND? ==> t.amount == 1
  {
    if events != [] { SpendsAreOne(masters, events[..|events| - 1]); }
  }

  /** The amounts as recorded exceed the balance by two for every spent credit: they add up to it
      if and only if the master never spent one. */
  lemma {:induction false} AmountsAddUpIff(masters: set<Id>, events: seq<Event>, master: Id)
    ensures var b := Run(masters, events);
            && Amounts(b.transactions, master) == Balance(b.accounts, master) + 2 * Spends(b.transactions, master)
            && (Amounts(b.transactions, master) == Balance(b.accounts, master)
                <==> forall t :: t in b.transactions ==> !IsSpend(t, master))
  {
    CreditsConserved(masters, events);
    SpendsAreOne(masters, events);
    AmountsExceed(Run(masters, events).transactions, master);
  }

  // ---------------------------------------------------------------- blocking

  predicate Cancels(e: Event, master: Id) { e.Cancel? && e.master == master }

  /** The clock does not go back between the cancellations of the master. */
  predicate Clocked(events: seq<Event>, master: Id) {
    forall i, j :: 0 <= i < j < |events| && Cancels(events[i], master) && Cancels(events[j], master) ==>
      events[i].now <= events[j].now
  }

  /** Three cancellations of the master, the last of them the k-th of all, within the window. */
  ghost predicate ThirdWithinWindow(cs: seq<Cancellation>, master: Id, k: int) {
    exists i, j :: 0 <= i < j < k < |cs| && IsThird(cs, master, i, j, k)
  }

  predicate IsThird(cs: seq<Cancellation>, master: Id, i: int, j: int, k: int)
    requires 0 <= i < j < k < |cs|
  {
    && cs[i].master == cs[j].master == cs[k].master == master
    && cs[k].createdAt - CANCELLATION_WINDOW <= cs[i].createdAt
    && cs[k].createdAt - CANCELLATION_WINDOW <= cs[j].createdAt
  }

  predicate Counts(c: Cancellation, master: Id, since: int) { c.master == master && c.createdAt >= since }

  /** As many counted cancellations as there are at the given places. */
  lemma {:induction false} CountAtLeast(cs: seq<Cancellation>, master: Id, since: int, places: seq<int>)
    requires forall a, b :: 0 <= a < b < |places| ==> places[a] < places[b]
    requires forall a :: 0 <= a < |places| ==> 0 <= places[a] < |cs| && Counts(cs[places[a]], master, since)
    ensures CountSince(cs, master, since) >= |places|
  {
    if cs != [] {
      var n := |cs| - 1;
      if places != [] && places[|places| - 1] == n {
        CountAtLeast(cs[..n], master, since, places[..|places| - 1]);
      } else {
        assert forall a :: 0 <= a < |places| ==> places[a] < n;
        CountAtLeast(cs[..n], master, since, places);
      }
    }
  }

  lemma {:induction false} FindPlaces(cs: seq<Cancellation>, master: Id, since: int, want: nat)
    returns (places: seq<int>)
    requires CountSince(cs, master, since) >= want
    ensures |places| == want
    ensures forall a, b :: 0 <= a < b < |places| ==> places[a] < places[b]
    ensures forall a :: 0 <= a < |places| ==> 0 <= places[a] < |cs| && Counts(cs[places[a]], master, since)
  {
    if want == 0 {
      places := [];
    } else {
      var n := |cs| - 1;
      if Counts(cs[n], master, since) {
        places := FindPlaces(cs[..n], master, since, want - 1);
        places := places + [n];
      } else {
        places := FindPlaces(cs[..n], master, since, want);
      }
    }
  }

  /** The count the service makes finds exactly the third cancellations within the window. */
  lemma BlocksIsThird(cs: seq<Cancellation>, master: Id, now: int)
    requires cs != [] && cs[|cs| - 1].master == master && cs[|cs| - 1].createdAt == now
    ensures Blocks(cs, master, now) <==> ThirdWithinWindow(cs, master, |cs| - 1)
  {
    var since, k, n := now - CANCELLATION_WINDOW, |cs| - 1, CANCELLATION_BLOCK_THRESHOLD;
    if ThirdWithinWindow(cs, master, k) {
      var i, j :| 0 <= i < j < k && IsThird(cs, master, i, j, k);
      CountAtLeast(cs, master, since, [i, j, k]);
    }
    if Blocks(cs, master, now) {
      var places := FindPlaces(cs[..k], master, since, n - 1);
      assert cs[..k][places[0]] == cs[places[0]] && cs[..k][places[1]] == cs[places[1]];
      assert IsThird(cs, master, places[0], places[1], k);
    }
  }

  /** The master is blocked for a week from the last third cancellation within the window. */
  ghost predicate BlockedAsDue(b: Books, master: Id) {
    && master in b.profiles
    && (forall k :: 0 <= k < |b.cancellations| && ThirdWithinWindow(b.cancellations, master, k) ==>
          && b.profiles[master].blockedUntil.Some?
          && b.profiles[master].blockedUntil.value >= b.cancellations[k].createdAt + BLOCK_DURATION)
    && (b.profiles[master].blockedUntil.Some? ==>
          exists k :: 0 <= k < |b.cancellations| && ThirdWithinWindow(b.cancellations, master, k)
            && b.profiles[master].blockedUntil.value == b.cancellations[k].createdAt + BLOCK_DURATION)
  }

  lemma ThirdKept(cs: seq<Cancellation>, c: Cancellation, master: Id, k: int)
    requires 0 <= k < |cs|
    ensures ThirdWithinWindow(cs + [c], master, k) <==> ThirdWithinWindow(cs, master, k)
  {
    if ThirdWithinWindow(cs, master, k) {
      var i, j :| 0 <= i < j < k < |cs| && IsThird(cs, master, i, j, k);
      assert IsThird(cs + [c], master, i, j, k);
    }
    if ThirdWithinWindow(cs + [c], master, k) {
      var i, j :| 0 <= i < j < k < |cs + [c]| && IsThird(cs + [c], master, i, j, k);
      assert IsThird(cs, master, i, j, k);
    }
  }

  /** The master's cancellations are not later than now. */
  ghost predicate CancelledBy(b: Books, master: Id, now: int) {
    forall k :: 0 <= k < |b.cancellations| && b.cancellations[k].master == master ==>
      b.cancellations[k].createdAt <= now
  }

  lemma CancelKeeps(b: Books, who: Id, orderId: Id, now: int, master: Id)
    requires BlockedAsDue(b, master)
    requires who == master ==> CancelledBy(b, master, now)
    ensures BlockedAsDue(AfterCancellation(b, who, orderId, now), master)
  {
    var t, c := AfterCancellation(b, who, orderId, now), Cancellation(who, orderId, now);
    var n := |b.cancellations|;
    assert t.cancellations == b.cancellations + [c];
    BlocksIsThird(t.cancellations, who, now);
    forall k | 0 <= k < n
      ensures ThirdWithinWindow(t.cancellations, master, k) <==> ThirdWithinWindow(b.cancellations, master, k) {
      ThirdKept(b.cancellations, c, master, k);
    }
    if who == master && Blocks(t.cancellations, who, now) {
      assert ThirdWithinWindow(t.cancellations, master, n);
    } else {
      OtherBlock(b, t, master, n);
    }
  }

  /** The step blocked nobody, or somebody else. */
  lemma OtherBlock(b: Books, t: Books, master: Id, n: int)
    requires BlockedAsDue(b, master) && master in t.profiles && n == |b.cancellations|
    requires |t.cancellations| == n + 1 && t.cancellations[..n] == b.cancellations
    requires t.profiles[master].blockedUntil == b.profiles[master].blockedUntil
    requires forall k :: 0 <= k < n ==>
      (ThirdWithinWindow(t.cancellations, master, k) <==> ThirdWithinWindow(b.cancellations, master, k))
    requires !ThirdWithinWindow(t.cancellations, master, n)
    ensures BlockedAsDue(t, master)
  {
    assert forall k :: 0 <= k < n ==> t.cancellations[k] == b.cancellations[k];
    if b.profiles[master].blockedUntil.Some? {
      var k :| 0 <= k < n && ThirdWithinWindow(b.cancellations, master, k)
        && b.profiles[master].blockedUntil.value == b.cancellations[k].createdAt + BLOCK_DURATION;
      assert ThirdWithinWindow(t.cancellations, master, k);
    }
  }

  lemma {:induction false} CancellationsPast(masters: set<Id>, events: seq<Event>, master: Id, now: int)
    requires forall i :: 0 <= i < |events| && Cancels(events[i], master) ==> events[i].now <= now
    ensures CancelledBy(Run(masters, events), master, now)
  {
    if events != [] { CancellationsPast(masters, events[..|events| - 1], master, now); }
  }

  /** A master with a profile is blocked until a week after the last of any three cancellations
      within thirty days, and never otherwise. */
  lemma {:induction false} ThreeCancellationsBlock(masters: set<Id>, events: seq<Event>, master: Id)
    requires master in masters && Clocked(events, master)
    ensures BlockedAsDue(Run(masters, events), master)
  {
    if events != [] {
      var n := |events| - 1;
      var b := Run(masters, events[..n]);
      ThreeCancellationsBlock(masters, events[..n], master);
      match events[n]
      case Cancel(who, orderId, now) =>
        if who == master { CancellationsPast(masters, events[..n], master, now); }
        CancelKeeps(b, who, orderId, now, master);
      case _ => OtherStep(b, events[n], master);
    }
  }

  lemma OtherStep(b: Books, e: Event, master: Id)
    requires BlockedAsDue(b, master) && !e.Cancel?
    ensures BlockedAsDue(Step(b, e), master)
  {
    assert Step(b, e).cancellations == b.cancellations;
  }

  // ---------------------------------------------------------------- wallets

  datatype WalletEvent = Accrue(order: Order) | Move(master: Id, amount: int)

  function WalletRun(events: seq<WalletEvent>): Wallets {
    if events == [] then Wallets(map[], [], [])
    else
      var w := WalletRun(events[..|events| - 1]);
      match events[|events| - 1]
      case Accrue(order) => AfterAccrue(w, order)
      case Move(master, amount) => AfterMove(w, master, amount)
  }

  function Accrued(accruals: seq<Accrual>, master: Id): int {
    if accruals == [] then 0
    else
      var a := accruals[|accruals| - 1];
      Accrued(accruals[..|accruals| - 1], master) + if a.master == master then a.amount else 0
  }

  function Moved(moves: seq<(Id, int)>, master: Id): int {
    if moves == [] then 0
    else
      var m := moves[|moves| - 1];
      Moved(moves[..|moves| - 1], master) + if m.0 == master then m.1 else 0
  }

  lemma AccruedAppended(accruals: seq<Accrual>, a: Accrual, master: Id)
    ensures Accrued(accruals + [a], master) == Accrued(accruals, master) + if a.master == master then a.amount else 0
  {
    assert (accruals + [a])[..|accruals|] == accruals;
  }

  lemma MovedAppended(moves: seq<(Id, int)>, m: (Id, int), master: Id)
    ensures Moved(moves + [m], master) == Moved(moves, master) + if m.0 == master then m.1 else 0
  {
    assert (moves + [m])[..|moves|] == moves;
  }

  predicate WalletConserves(w: Wallets, master: Id) {
    Balance(w.balances, master) == Accrued(w.accruals, master) + Moved(w.moved, master)
  }

  ghost predicate WalletsConserve(w: Wallets) {
    && (forall master :: WalletConserves(w, master))
    && (forall i, j :: 0 <= i < j < |w.accruals| ==> w.accruals[i].orderId != w.accruals[j].orderId)
  }

  lemma AccrueKeepsOne(w: Wallets, o: Order, master: Id)
    requires WalletConserves(w, master)
    ensures WalletConserves(AfterAccrue(w, o), master)
  {
    if Compensated(o) {
      AccruedAppended(w.accruals, Accrual(o.masterId.value, o.id, o.calloutPrice - o.serviceFee), master);
    }
  }

  lemma AccrueKeeps(w: Wallets, o: Order)
    requires WalletsConserve(w)
    ensures WalletsConserve(AfterAccrue(w, o))
  {
    hide WalletConserves;
    forall master ensures WalletConserves(AfterAccrue(w, o), master) { AccrueKeepsOne(w, o, master); }
  }

  lemma MoveKeepsOne(w: Wallets, who: Id, amount: int, master: Id)
    requires WalletConserves(w, master)
    ensures WalletConserves(AfterMove(w, who, amount), master)
  {
    MovedAppended(w.moved, (who, amount), master);
  }

  lemma MoveKeeps(w: Wallets, who: Id, amount: int)
    requires WalletsConserve(w)
    ensures WalletsConserve(AfterMove(w, who, amount))
  {
    hide WalletConserves;
    forall master ensures WalletConserves(AfterMove(w, who, amount), master) {
      MoveKeepsOne(w, who, amount, master);
    }
  }

  /** However often a callout is accrued, an order is compensated at most once, and what wallets
      hold beyond other movements is the sum of the accruals. */
  lemma {:induction false} CompensationConserved(events: seq<WalletEvent>)
    ensures WalletsConserve(WalletRun(events))
  {
    if events != [] {
      CompensationConserved(events[..|events| - 1]);
      var w := WalletRun(events[..|events| - 1]);
      match events[|events| - 1]
      case Accrue(order) => AccrueKeeps(w, order);
      case Move(master, amount) => MoveKeeps(w, master, amount);
    }
  }
}
