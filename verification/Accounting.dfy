/** The accounting object of one peer and its credit and debit actions, updated in place. */
module Accounting {
  import opened Wrappers

  import opened AccountingOps
  import opened AccountingRuns

  function PayingAmount(paying: Option<nat>): nat {
    if paying.Some? then paying.value else 0
  }

  class PeerAccount {
    const c: Config
    var balance: int
    var surplusBalance: nat
    var originatedBalance: int
    var reservedBalance: nat
    var shadowReservedBalance: int
    var refreshReservedBalance: int
    var ghostBalance: nat
    var paymentThreshold: nat
    var earlyPayment: int
    var refreshTimestamp: int
    var refreshReceivedTimestamp: int
    var lastSettlementFailure: int
    var paymentOngoing: bool
    var refreshOngoing: bool
    var connected: bool
    var fullNode: bool
    var grant: Grant

    // The actions that are open and the payment under way.
    ghost var credits: seq<Credit>
    ghost var debits: seq<nat>
    ghost var paying: Option<nat>

    /** The reserves are exactly what is open. */
    ghost predicate Valid()
      reads this
    {
      && reservedBalance == Sum(Prices(credits))
      && shadowReservedBalance == Sum(debits) + PayingAmount(paying)
      && (paymentOngoing <==> paying.Some?)
    }

    ghost function View(): Peer
      reads this
    {
      Peer(balance, surplusBalance, originatedBalance, reservedBalance, shadowReservedBalance, refreshReservedBalance,
           ghostBalance, paymentThreshold, earlyPayment, refreshTimestamp, refreshReceivedTimestamp, lastSettlementFailure,
           paymentOngoing, refreshOngoing, connected, fullNode, grant)
    }

    /** getAccountingPeer for a peer not in memory. */
    constructor (c: Config)
      ensures this.c == c && View() == NewPeer(c) && Valid() && credits == [] && debits == [] && paying.None?
    {
      credits, debits, paying := [], [], None;
      this.c := c;
      balance, surplusBalance, originatedBalance := 0, 0, 0;
      reservedBalance, shadowReservedBalance, refreshReservedBalance, ghostBalance := 0, 0, 0, 0;
      paymentThreshold := c.full.threshold;
      earlyPayment := PercentOf(100 - c.early, c.full.threshold);
      refreshTimestamp, refreshReceivedTimestamp, lastSettlementFailure := 0, 0, 0;
      paymentOngoing, refreshOngoing, connected, fullNode := false, false, false, false;
      grant := Grant(c.full.threshold, c.full.disconnectLimit, 0, c.full.growStep);
    }

    method GetIncreasedExpectedDebt(price: nat) returns (debt: int, current: int)
      ensures debt == IncreasedExpectedDebt(View(), price) && current == balance
    {
      var nextReserved := reservedBalance + price;
      current := balance;
      var currentDebt := -current;
      if currentDebt < 0 {
        currentDebt := 0;
      }
      debt := currentDebt + nextReserved + surplusBalance;
    }

    method ShadowBalanceOf() returns (amount: int)
      ensures amount == ShadowBalance(View())
    {
      if balance >= 0 {
        return 0;
      }
      var negative := -balance;
      if negative + surplusBalance < shadowReservedBalance {
        return 0;
      }
      amount := negative - shadowReservedBalance;
    }

    /** The payment settle starts, if any. */
    method PaymentDue(t: Clock) returns (payment: Option<nat>)
      ensures payment == if Pays(c, View(), t) then Some(Payable(c, View(), t)) else None
    {
      payment := None;
      if c.canPay && !paymentOngoing {
        if t.start / 1000 - lastSettlementFailure > FAILED_SETTLEMENT_INTERVAL {
          var pay := -originatedBalance;
          if pay >= c.minimumPayment {
            var refreshDue := Seconds(t.due - refreshTimestamp) * c.full.rate;
            var expectedDecreasedDebt := -balance - refreshDue - shadowReservedBalance;
            if pay > expectedDecreasedDebt {
              pay := expectedDecreasedDebt;
            }
            if pay >= c.minimumPayment {
              payment := Some(pay);
            }
          }
        }
      }
    }

    method StartPayment(pay: nat)
      modifies `paymentOngoing, `shadowReservedBalance, `refreshReservedBalance, `paying
      ensures paymentOngoing && paying == Some(pay) && shadowReservedBalance == old(shadowReservedBalance) + pay
      ensures refreshReservedBalance == old(refreshReservedBalance) + if refreshOngoing then pay else 0
    {
      paymentOngoing := true;
      shadowReservedBalance := shadowReservedBalance + pay;
      if refreshOngoing {
        refreshReservedBalance := refreshReservedBalance + pay;
      }
      paying := Some(pay);
    }

    /** settle; the refreshment and the payment it starts are returned to be carried out. */
    method SettleDebt(t: Clock) returns (refresh: Option<int>, payment: Option<nat>)
      modifies this
      ensures Settlement(View(), refresh, payment) == Settle(c, old(View()), t)
      ensures credits == old(credits) && debits == old(debits)
      ensures paying == if payment.Some? then payment else old(paying)
      ensures old(Valid()) ==> Valid()
    {
      refresh, payment := None, None;
      var amount := ShadowBalanceOf();
      if amount >= c.full.rate {
        if t.start - refreshTimestamp > 999 {
          if !refreshOngoing {
            refreshOngoing := true;
            refresh := Some(amount);
          }
        }
        payment := PaymentDue(t);
        if payment.Some? {
          StartPayment(payment.value);
        }
      }
    }

    /** The threshold, and what the next refreshment would cover. */
    method CurrentLimit(now: int) returns (limit: int)
      ensures limit == OverdraftLimit(c, View(), now)
    {
      var elapsed := Seconds(now - refreshTimestamp);
      if elapsed > 1 {
        elapsed := 1;
      }
      limit := paymentThreshold + elapsed * c.full.rate;
    }

    method PrepareCredit(price: nat, originated: bool, t: Clock)
      returns (action: CreditAction?, refresh: Option<int>, payment: Option<nat>, outcome: Outcome)
      modifies this
      ensures Result(Settlement(View(), refresh, payment), outcome) == AccountingOps.PrepareCredit(c, old(View()), price, t)
      ensures outcome == Done <==> action != null
      ensures action != null ==>
        fresh(action) && action.account == this && action.price == price && action.originated == originated && !action.applied
      ensures debits == old(debits)
      ensures credits == if action != null then old(credits) + [Credit(price, originated)] else old(credits)
      ensures paying == if payment.Some? then payment else old(paying)
      ensures old(Valid()) ==> Valid()
    {
      action, refresh, payment, outcome := null, None, None, Done;
      if !connected {
        outcome := NotConnected;
        return;
      }
      var debt, current := GetIncreasedExpectedDebt(price);
      if debt - shadowReservedBalance >= earlyPayment && current < 0 {
        refresh, payment := SettleDebt(t);
        debt, current := GetIncreasedExpectedDebt(price);
      }
      var overdraftLimit := CurrentLimit(t.check);
      if debt > overdraftLimit {
        outcome := Overdraft;
        return;
      }
      reservedBalance := reservedBalance + price;
      OpensCredit(credits, Credit(price, originated));
      credits := credits + [Credit(price, originated)];
      action := new CreditAction(this, price, originated);
    }

    method ReleaseReserve(price: nat)
      modifies this`reservedBalance
      ensures View() == Release(old(View()), price)
    {
      if price > reservedBalance {
        reservedBalance := 0;
      } else {
        reservedBalance := reservedBalance - price;
      }
    }

    method PrepareDebit(price: nat) returns (action: DebitAction?)
      modifies `shadowReservedBalance, `refreshReservedBalance, `debits
      ensures action != null <==> old(connected)
      ensures View() == if old(connected) then AccountingOps.PrepareDebit(old(View()), price) else old(View())
      ensures action != null ==> fresh(action) && action.account == this && action.price == price && !action.applied
      ensures debits == if action != null then old(debits) + [price] else old(debits)
      ensures old(Valid()) ==> Valid()
    {
      if !connected {
        return null;
      }
      shadowReservedBalance := shadowReservedBalance + price;
      if refreshOngoing {
        refreshReservedBalance := refreshReservedBalance + price;
      }
      SumAppend(debits, price);
      debits := debits + [price];
      action := new DebitAction(this, price);
    }

    method DecreaseOriginatedBalanceTo(limit: int)
      modifies this`originatedBalance
      ensures View() == OriginatedAtLeast(old(View()), limit)
    {
      var toSet := limit;
      if toSet > 0 {
        toSet := 0;
      }
      if originatedBalance < toSet {
        originatedBalance := toSet;
      }
    }

    /** increaseBalance */
    method Increase(price: nat) returns (next: int)
      modifies `balance, `surplusBalance, `originatedBalance
      ensures View() == IncreaseBalance(old(View()), price) && next == balance
    {
      var cost := price;
      if surplusBalance > 0 {
        var newSurplus := surplusBalance - cost;
        if newSurplus >= 0 {
          surplusBalance := newSurplus;
          return balance;
        }
        cost := price - surplusBalance;
        surplusBalance := 0;
      }
      next := balance + cost;
      balance := next;
      DecreaseOriginatedBalanceTo(next);
    }

    method PaymentSent(amount: nat, failed: bool, now: int)
      modifies this
      ensures View() == NotifyPaymentSent(old(View()), amount, failed, now)
      ensures paying.None? && credits == old(credits) && debits == old(debits)
      ensures old(Valid()) && old(paying) == Some(amount) ==> Valid() && amount <= old(shadowReservedBalance)
    {
      paying := None;
      paymentOngoing := false;
      shadowReservedBalance := shadowReservedBalance - amount;
      if failed {
        lastSettlementFailure := now;
      } else {
        balance, originatedBalance := balance + amount, originatedBalance + amount;
      }
    }

    method PaymentThreshold(threshold: nat)
      modifies `paymentThreshold, `earlyPayment
      ensures View() == NotifyPaymentThreshold(c, old(View()), threshold)
    {
      paymentThreshold := threshold;
      earlyPayment := PercentOf(100 - c.early, threshold);
    }

    /** notifyPaymentThresholdUpgrade */
    method UpgradeThreshold()
      modifies this`grant
      ensures grant == Upgrade(c, old(grant), fullNode)
    {
      var terms := c.For(fullNode);
      var growAt := if grant.growAt >= terms.growChange then grant.growAt * 2 else grant.growAt + terms.growStep;
      var threshold := grant.threshold + terms.rate;
      PercentIsNat(100 + c.tolerance, threshold);
      grant := Grant(threshold, PercentOf(100 + c.tolerance, threshold), grant.totalDebtRepay, growAt);
    }

    method Repay(amount: nat)
      modifies this`grant
      ensures View() == Repaid(c, old(View()), amount)
    {
      grant := grant.(totalDebtRepay := grant.totalDebtRepay + amount);
      if grant.totalDebtRepay > grant.growAt {
        UpgradeThreshold();
      }
    }

    method PaymentReceived(amount: nat)
      modifies `balance, `surplusBalance, `grant
      ensures View() == NotifyPaymentReceived(c, old(View()), amount)
    {
      Repay(amount);
      if balance <= 0 {
        surplusBalance := surplusBalance + amount;
        return;
      }
      var current := balance;
      var newBalance := current - amount;
      balance := if newBalance < 0 then 0 else newBalance;
      if newBalance < 0 {
        surplusBalance := surplusBalance + (amount - current);
      }
    }

    method RefreshmentReceived(amount: nat, now: int)
      modifies `balance, `refreshReceivedTimestamp, `grant
      ensures View() == NotifyRefreshmentReceived(c, old(View()), amount, now)
    {
      Repay(amount);
      balance := balance - amount;
      refreshReceivedTimestamp := now;
    }

    method RefreshmentSent(attempted: int, amount: nat, now: int, interval: int,
                           err: RefreshError) returns (outcome: Outcome)
      modifies `balance, `originatedBalance, `refreshOngoing, `refreshTimestamp, `refreshReservedBalance
      ensures (View(), outcome) == NotifyRefreshmentSent(c, old(View()), attempted, amount, now, interval, err)
    {
      refreshOngoing := false;
      refreshTimestamp := now;
      if err != NoError {
        return if err == PeerNotFound then Done else Block;
      }
      var checkAllowance := attempted - refreshReservedBalance;
      refreshReservedBalance := 0;
      if checkAllowance > attempted {
        checkAllowance := attempted;
      }
      var expectedAllowance := interval * c.full.rate;
      if expectedAllowance > checkAllowance {
        expectedAllowance := checkAllowance;
      }
      if expectedAllowance > amount {
        return Block;
      }
      balance := balance + amount;
      DecreaseOriginatedBalanceTo(balance);
      return Done;
    }

    method ClearReserves()
      modifies `shadowReservedBalance, `ghostBalance, `reservedBalance, `refreshReservedBalance
      ensures View() == old(View()).(shadow := 0, ghostBalance := 0, reserved := 0, refreshReserved := 0)
    {
      shadowReservedBalance, ghostBalance, reservedBalance, refreshReservedBalance := 0, 0, 0, 0;
    }

    method Renew(full: bool)
      modifies `connected, `fullNode, `grant, `balance, `surplusBalance
      ensures View() == old(View()).(connected := true, fullNode := full, balance := 0, surplus := 0,
                                     grant := AccountingOps.Connect(c, old(View()), full).grant)
    {
      var terms := c.For(full);
      connected, fullNode := true, full;
      grant := Grant(terms.threshold, terms.disconnectLimit, grant.totalDebtRepay, terms.growStep);
      balance, surplusBalance := 0, 0;
    }

    /** The reserves match what is open afterwards exactly when nothing that weighs was open. */
    method Connect(full: bool)
      modifies this
      ensures View() == AccountingOps.Connect(c, old(View()), full)
      ensures credits == old(credits) && debits == old(debits) && paying == old(paying)
      ensures old(Valid()) ==> (Valid() <==> Sum(Prices(credits)) == 0 && Sum(debits) == 0 && PayingAmount(paying) == 0)
    {
      ClearReserves();
      Renew(full);
    }

    method Disconnect()
      modifies `connected
      ensures View() == AccountingOps.Disconnect(old(View()))
    {
      connected := false;
    }
  }

  class CreditAction {
    const account: PeerAccount
    const price: nat
    const originated: bool
    var applied: bool

    constructor (account: PeerAccount, price: nat, originated: bool)
      ensures this.account == account && this.price == price && this.originated == originated && !applied
    {
      this.account, this.price, this.originated := account, price, originated;
      applied := false;
    }

    /** Whether this is the i-th credit that is open. */
    ghost predicate IsOpen(i: nat)
      reads this, account
    {
      !applied && i < |account.credits| && account.credits[i] == Credit(price, originated)
    }

    ghost method Close(i: nat)
      modifies account`credits
      ensures account.credits == if old(IsOpen(i)) then Without(old(account.credits), i) else old(account.credits)
      ensures old(IsOpen(i)) ==> Sum(Prices(old(account.credits))) == price + Sum(Prices(account.credits))
    {
      if IsOpen(i) {
        ClosesCredit(account.credits, i);
        account.credits := Without(account.credits, i);
      }
    }

    method BookCredit(ghost i: nat, current: int)
      requires current == account.balance
      modifies account
      ensures account.View() == Credited(old(account.View()), price, originated)
      ensures account.credits == if old(IsOpen(i)) then Without(old(account.credits), i) else old(account.credits)
      ensures account.debits == old(account.debits) && account.paying == old(account.paying)
      ensures old(account.Valid() && IsOpen(i)) ==> account.Valid() && price <= old(account.reservedBalance)
    {
      Close(i);
      var nextBalance := current - price;
      account.balance := nextBalance;
      account.ReleaseReserve(price);
      if originated {
        var nextOrigin := account.originatedBalance - price;
        if nextBalance > 0 {
          nextBalance := 0;
        }
        if nextOrigin < nextBalance {
          nextOrigin := nextBalance;
        }
        account.originatedBalance := nextOrigin;
      }
    }

    method Apply(ghost i: nat, t: Clock) returns (refresh: Option<int>, payment: Option<nat>)
      modifies this, account
      ensures applied
      ensures Settlement(account.View(), refresh, payment) ==
        ApplyCredit(account.c, old(account.View()), price, originated, t)
      ensures account.credits == if old(IsOpen(i)) then Without(old(account.credits), i) else old(account.credits)
      ensures account.debits == old(account.debits)
      ensures old(account.Valid() && IsOpen(i)) ==> account.Valid() && price <= old(account.reservedBalance)
    {
      refresh, payment := None, None;
      var debt, current := account.GetIncreasedExpectedDebt(price);
      var reduced := debt - account.shadowReservedBalance;
      BookCredit(i, current);
      applied := true;
      if reduced > account.earlyPayment {
        refresh, payment := account.SettleDebt(t);
      }
    }
    /** Does nothing after Apply. */
    method Cleanup(ghost i: nat)
      modifies account`reservedBalance, account`credits
      ensures account.View() == if applied then old(account.View()) else CleanupCredit(old(account.View()), price)
      ensures account.credits == if old(IsOpen(i)) then Without(old(account.credits), i) else old(account.credits)
      ensures old(account.Valid() && IsOpen(i)) ==> account.Valid() && price <= old(account.reservedBalance)
    {
      if applied {
        return;
      }
      Close(i);
      account.ReleaseReserve(price);
    }
  }

  class DebitAction {
    const account: PeerAccount
    const price: nat
    var applied: bool

    constructor (account: PeerAccount, price: nat)
      ensures this.account == account && this.price == price && !applied
    {
      this.account, this.price := account, price;
      applied := false;
    }

    /** Whether this is the i-th debit that is open. */
    ghost predicate IsOpen(i: nat)
      reads this, account
    {
      !applied && i < |account.debits| && account.debits[i] == price
    }

    ghost method Close(i: nat)
      modifies account`debits
      ensures account.debits == if old(IsOpen(i)) then Without(old(account.debits), i) else old(account.debits)
      ensures old(IsOpen(i)) ==> Sum(old(account.debits)) == price + Sum(account.debits)
    {
      if IsOpen(i) {
        SumWithout(account.debits, i);
        account.debits := Without(account.debits, i);
      }
    }

    method Apply(ghost i: nat, now: int) returns (outcome: Outcome)
      modifies this, account
      ensures applied
      ensures (account.View(), outcome) == ApplyDebit(account.c, old(account.View()), price, now)
      ensures account.debits == if old(IsOpen(i)) then Without(old(account.debits), i) else old(account.debits)
      ensures account.credits == old(account.credits) && account.paying == old(account.paying)
      ensures old(account.Valid() && IsOpen(i)) ==> account.Valid() && price <= old(account.shadowReservedBalance)
    {
      Close(i);
      var nextBalance := account.Increase(price);
      applied := true;
      account.shadowReservedBalance := account.shadowReservedBalance - price;
      var elapsed := now - account.refreshReceivedTimestamp;
      if elapsed > 1 {
        elapsed := 1;
      }
      var limit := account.grant.disconnectLimit + elapsed * account.c.For(account.fullNode).rate;
      outcome := if nextBalance >= limit then Block else Done;
    }

    /** Does nothing after Apply; otherwise what could have been debited becomes ghost balance. */
    method Cleanup(ghost i: nat) returns (outcome: Outcome)
      modifies account`shadowReservedBalance, account`ghostBalance, account`debits
      ensures (account.View(), outcome) ==
        if applied then (old(account.View()), Done) else CleanupDebit(old(account.View()), price)
      ensures account.debits == if old(IsOpen(i)) then Without(old(account.debits), i) else old(account.debits)
      ensures old(account.Valid() && IsOpen(i)) ==> account.Valid() && price <= old(account.shadowReservedBalance)
    {
      if applied {
        return Done;
      }
      Close(i);
      account.shadowReservedBalance := account.shadowReservedBalance - price;
      account.ghostBalance := account.ghostBalance + price;
      outcome := if account.ghostBalance > account.grant.disconnectLimit then Block else Done;
    }
  }
}
