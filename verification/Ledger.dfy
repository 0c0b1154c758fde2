/** Lead credits, cancellation penalties and callout compensation
    (apps/api/src/lead-credits/lead-credits.service.ts:21-52,
    apps/api/src/common/master-penalty.service.ts:29-68,
    apps/api/src/planned-orders/planned-orders.service.ts:318-329, 497-504,
    apps/api/src/common/compensation.service.ts:9-30). Transactions are steps; a purchase waits
    for the payment provider between two of them. Times are milliseconds, one reading of the
    clock per call, and the cancellations of one master are serialised. */
module Ledger {
  import opened Options

  type Id = string

  const PENALTY_CREDITS := 2
  const DAY := 24 * 3600 * 1000
  const PRIORITY_PENALTY := DAY
  const CANCELLATION_WINDOW := 30 * DAY
  const CANCELLATION_BLOCK_THRESHOLD := 3
  const BLOCK_DURATION := 7 * DAY

  datatype Package = Package(id: string, credits: int, priceTenge: int)

  const PACKAGES: seq<Package> := [
    Package("single", 1, 500), Package("start", 10, 5000), Package("standard", 25, 11000), Package("pro", 60, 24000)]

  datatype PaymentStatus = PENDING | SUCCEEDED | FAILED

  datatype Purchase = Purchase(master: Id, credits: int, priceTenge: int, status: PaymentStatus)

  datatype Kind = PURCHASE | PENALTY | SPEND | REFUND

  /** purchaseId: for a PURCHASE only. */
  datatype Transaction = Transaction(master: Id, kind: Kind, amount: int, purchaseId: Option<nat>)

  datatype Profile = Profile(priorityPenaltyUntil: Option<int>, blockedUntil: Option<int>)

  datatype Cancellation = Cancellation(master: Id, orderId: Id, createdAt: int)

  /** charging: purchases whose payment has not been answered. */
  datatype Books = Books(
    accounts: map<Id, int>, transactions: seq<Transaction>, purchases: seq<Purchase>, charging: set<nat>,
    profiles: map<Id, Profile>, cancellations: seq<Cancellation>, blocks: seq<Id>)

  function Balance(accounts: map<Id, int>, master: Id): int { if master in accounts then accounts[master] else 0 }

  /** An account is created with the amount or incremented by it. */
  function Credited(accounts: map<Id, int>, master: Id, amount: int): map<Id, int> {
    accounts[master := Balance(accounts, master) + amount]
  }

  // ---------------------------------------------------------------- credits

  datatype PurchaseAnswer = Forbidden | UnknownPackage | Charging(purchase: nat, priceTenge: int)

  function FindPackage(packages: seq<Package>, id: string): Option<Package> {
    if packages == [] then None
    else if packages[0].id == id then Some(packages[0])
    else FindPackage(packages[1..], id)
  }

  /** purchase, up to the charge; enabled: lead credits are sold. */
  function AfterPurchase(b: Books, master: Id, packageId: string, enabled: bool): (Books, PurchaseAnswer) {
    var package := FindPackage(PACKAGES, packageId);
    if !enabled then (b, Forbidden)
    else if package.None? then (b, UnknownPackage)
    else
      var id := |b.purchases|;
      (b.(purchases := b.purchases + [Purchase(master, package.value.credits, package.value.priceTenge, PENDING)],
          charging := b.charging + {id}),
       Charging(id, package.value.priceTenge))
  }

  /** purchase, after the charge was answered. */
  function AfterCharge(b: Books, id: nat, status: PaymentStatus): Books {
    if id !in b.charging || id >= |b.purchases| then b
    else
      var p := b.purchases[id];
      var b1 := b.(purchases := b.purchases[id := p.(status := status)], charging := b.charging - {id});
      if !status.SUCCEEDED? then b1
      else
        b1.(accounts := Credited(b.accounts, p.master, p.credits),
            transactions := b.transactions + [Transaction(p.master, PURCHASE, p.credits, Some(id))])
  }

  /** A bid costs a credit. */
  function AfterSpend(b: Books, master: Id): Books {
    if Balance(b.accounts, master) < 1 then b
    else
      b.(accounts := Credited(b.accounts, master, -1),
         transactions := b.transactions + [Transaction(master, SPEND, 1, None)])
  }

  /** The client's cancellation gives it back; without an account the whole cancellation fails. */
  function AfterRefund(b: Books, master: Id): Books {
    if master !in b.accounts then b
    else
      b.(accounts := Credited(b.accounts, master, 1),
         transactions := b.transactions + [Transaction(master, REFUND, 1, None)])
  }

  // ---------------------------------------------------------------- penalties

  /** applyPenalty. */
  function AfterPenalty(b: Books, master: Id, now: int): Books {
    b.(accounts := Credited(b.accounts, master, -PENALTY_CREDITS),
       transactions := b.transactions + [Transaction(master, PENALTY, -PENALTY_CREDITS, None)],
       profiles := if master in b.profiles
                   then b.profiles[master := b.profiles[master].(priorityPenaltyUntil := Some(now + PRIORITY_PENALTY))]
                   else b.profiles)
  }

  /** Cancellations of the master from that time on. */
  function CountSince(cancellations: seq<Cancellation>, master: Id, since: int): nat {
    if cancellations == [] then 0
    else
      var c := cancellations[|cancellations| - 1];
      CountSince(cancellations[..|cancellations| - 1], master, since)
      + if c.master == master && c.createdAt >= since then 1 else 0
  }

  predicate Blocks(cancellations: seq<Cancellation>, master: Id, now: int) {
    CountSince(cancellations, master, now - CANCELLATION_WINDOW) >= CANCELLATION_BLOCK_THRESHOLD
  }

  /** penalizeForCancellation. */
  function AfterCancellation(b: Books, master: Id, orderId: Id, now: int): Books {
    var b1 := AfterPenalty(b, master, now);
    var b2 := b1.(cancellations := b.cancellations + [Cancellation(master, orderId, now)]);
    if !Blocks(b2.cancellations, master, now) then b2
    else
      b2.(profiles := if master in b2.profiles
                      then b2.profiles[master := b2.profiles[master].(blockedUntil := Some(now + BLOCK_DURATION))]
                      else b2.profiles,
          blocks := b.blocks + [master])
  }

  class LeadCreditBooks {
    var accounts: map<Id, int>
    var transactions: seq<Transaction>
    var purchases: seq<Purchase>
    var charging: set<nat>
    var profiles: map<Id, Profile>
    var cancellations: seq<Cancellation>
    var blocks: seq<Id>

    ghost function Abs(): Books
      reads this
    {
      Books(accounts, transactions, purchases, charging, profiles, cancellations, blocks)
    }

    constructor (masters: set<Id>)
      ensures Abs() == Opened(masters)
    {
      accounts, transactions, purchases, charging, cancellations, blocks := map[], [], [], {}, [], [];
      profiles := map m | m in masters :: Profile(None, None);
    }

    method AddCredits(master: Id, amount: int)
      modifies `accounts
      ensures accounts == Credited(old(accounts), master, amount)
    {
      accounts := accounts[master := (if master in accounts then accounts[master] else 0) + amount];
    }

    method BeginPurchase(master: Id, packageId: string, enabled: bool) returns (r: PurchaseAnswer)
      modifies this
      ensures (Abs(), r) == AfterPurchase(old(Abs()), master, packageId, enabled)
    {
      if !enabled { return Forbidden; }
      var package := FindPackage(PACKAGES, packageId);
      if package.None? { return UnknownPackage; }
      var id := |purchases|;
      purchases := purchases + [Purchase(master, package.value.credits, package.value.priceTenge, PENDING)];
      charging := charging + {id};
      return Charging(id, package.value.priceTenge);
    }

    method Charged(id: nat, status: PaymentStatus)
      modifies this
      ensures Abs() == AfterCharge(old(Abs()), id, status)
    {
      if id !in charging || id >= |purchases| { return; }
      var p := purchases[id];
      purchases := purchases[id := p.(status := status)];
      charging := charging - {id};
      if status.SUCCEEDED? {
        AddCredits(p.master, p.credits);
        transactions := transactions + [Transaction(p.master, PURCHASE, p.credits, Some(id))];
      }
    }

    method Spend(master: Id) returns (spent: bool)
      modifies this
      ensures Abs() == AfterSpend(old(Abs()), master)
      ensures spent <==> old(Balance(accounts, master)) >= 1
    {
      if master !in accounts || accounts[master] < 1 { return false; }
      accounts := accounts[master := accounts[master] - 1];
      transactions := transactions + [Transaction(master, SPEND, 1, None)];
      return true;
    }

    method Refund(master: Id) returns (refunded: bool)
      modifies this
      ensures Abs() == AfterRefund(old(Abs()), master)
      ensures refunded <==> master in old(accounts)
    {
      if master !in accounts { return false; }
      accounts := accounts[master := accounts[master] + 1];
      transactions := transactions + [Transaction(master, REFUND, 1, None)];
      return true;
    }

    method ApplyPenalty(master: Id, now: int)
      modifies this
      ensures Abs() == AfterPenalty(old(Abs()), master, now)
    {
      AddCredits(master, -PENALTY_CREDITS);
      transactions := transactions + [Transaction(master, PENALTY, -PENALTY_CREDITS, None)];
      if master in profiles {
        profiles := profiles[master := profiles[master].(priorityPenaltyUntil := Some(now + PRIORITY_PENALTY))];
      }
    }

    method PenalizeForCancellation(master: Id, orderId: Id, now: int)
      modifies this
      ensures Abs() == AfterCancellation(old(Abs()), master, orderId, now)
    {
      ApplyPenalty(master, now);
      cancellations := cancellations + [Cancellation(master, orderId, now)];
      var count := CountSince(cancellations, master, now - CANCELLATION_WINDOW);
      if count >= CANCELLATION_BLOCK_THRESHOLD {
        if master in profiles {
          profiles := profiles[master := profiles[master].(blockedUntil := Some(now + BLOCK_DURATION))];
        }
        blocks := blocks + [master];
      }
    }
  }

  function Opened(masters: set<Id>): Books {
    Books(map[], [], [], {}, map m | m in masters :: Profile(None, None), [], [])
  }

  // ---------------------------------------------------------------- compensation

  datatype Order = Order(id: Id, paid: bool, masterId: Option<Id>, calloutPrice: int, serviceFee: int)

  datatype Accrual = Accrual(master: Id, orderId: Id, amount: int)

  /** moved: what withdrawals took out of a wallet or put back. */
  datatype Wallets = Wallets(balances: map<Id, int>, accruals: seq<Accrual>, moved: seq<(Id, int)>)

  predicate HasAccrual(accruals: seq<Accrual>, orderId: Id) {
    exists i :: 0 <= i < |accruals| && accruals[i].orderId == orderId
  }

  predicate Compensated(o: Order) { o.paid && o.masterId.Some? && o.masterId.value != "" }

  /** accrueCallout. */
  function AfterAccrue(w: Wallets, o: Order): Wallets {
    if !Compensated(o) || HasAccrual(w.accruals, o.id) then w
    else
      var amount := o.calloutPrice - o.serviceFee;
      w.(accruals := w.accruals + [Accrual(o.masterId.value, o.id, amount)],
         balances := Credited(w.balances, o.masterId.value, amount))
  }

  /** Any other change of a wallet. */
  function AfterMove(w: Wallets, master: Id, amount: int): Wallets {
    w.(balances := Credited(w.balances, master, amount), moved := w.moved + [(master, amount)])
  }

  class CompensationService {
    var balances: map<Id, int>
    var accruals: seq<Accrual>
    ghost var moved: seq<(Id, int)>

    ghost function Abs(): Wallets
      reads this
    {
      Wallets(balances, accruals, moved)
    }

    constructor ()
      ensures Abs() == Wallets(map[], [], [])
    {
      balances, accruals, moved := map[], [], [];
    }

    method AccrueCallout(o: Order)
      modifies this
      ensures Abs() == AfterAccrue(old(Abs()), o)
    {
      if !o.paid || o.masterId.None? || o.masterId.value == "" { return; }
      var master, amount := o.masterId.value, o.calloutPrice - o.serviceFee;
      if HasAccrual(accruals, o.id) { return; }
      accruals := accruals + [Accrual(master, o.id, amount)];
      balances := balances[master := (if master in balances then balances[master] else 0) + amount];
    }
  }
}
