/**
 The transitions of the accounting of one peer (pkg/accounting/accounting.go), one function per
 method. Amounts and prices are never negative; balances may be.
 */
module AccountingOps {
  import opened Wrappers

  // ----- configuration -----

  const LINEAR_CHECKPOINT_NUMBER: nat := 1800
  const LINEAR_CHECKPOINT_STEP: nat := 100
  const MINIMUM_PAYMENT_DIVISOR: nat := 5
  const FAILED_SETTLEMENT_INTERVAL: nat := 10

  /** The terms for one kind of peer: threshold granted, refresh rate, and the checkpoints of its growth. */
  datatype Terms = Terms(threshold: nat, rate: nat, growStep: nat, growChange: nat, disconnectLimit: nat)

  datatype Config = Config(full: Terms, light: Terms, tolerance: nat, early: nat, minimumPayment: nat, canPay: bool)
  {
    function For(fullNode: bool): Terms {
      if fullNode then full else light
    }
  }

  function PercentOf(percent: int, of: int): int {
    of * percent / 100
  }

  lemma PercentIsNat(percent: nat, of: nat)
    ensures PercentOf(percent, of) >= 0
  {
    assert of * percent >= 0;
  }

  function TermsOf(threshold: nat, rate: nat, tolerance: nat): Terms {
    PercentIsNat(100 + tolerance, threshold);
    Terms(threshold, rate, rate * LINEAR_CHECKPOINT_STEP, rate * LINEAR_CHECKPOINT_NUMBER,
          PercentOf(100 + tolerance, threshold))
  }

  /** NewAccounting: a light node gets a fraction of the threshold and of the rate. */
  function NewConfig(threshold: nat, tolerance: nat, early: nat, rate: nat, lightFactor: nat, canPay: bool): Config
    requires lightFactor > 0
  {
    Config(TermsOf(threshold, rate, tolerance), TermsOf(threshold / lightFactor, rate / lightFactor, tolerance),
           tolerance, early, rate / MINIMUM_PAYMENT_DIVISOR, canPay)
  }

  /** Go's integer division, which truncates towards zero. */
  function Seconds(ms: int): int {
    if ms >= 0 then ms / 1000 else -(-ms / 1000)
  }

  // ----- state -----

  /** What we grant the peer: its threshold and disconnect limit, and how they grow. */
  datatype Grant = Grant(threshold: nat, disconnectLimit: nat, totalDebtRepay: nat, growAt: nat)

  datatype Peer = Peer(
    balance: int,
    surplus: nat,
    originated: int,
    reserved: nat,
    shadow: int,
    refreshReserved: int,
    ghostBalance: nat,
    threshold: nat,
    earlyPayment: int,
    refreshTs: int,
    refreshReceivedTs: int,
    failedTs: int,
    paymentOngoing: bool,
    refreshOngoing: bool,
    connected: bool,
    fullNode: bool,
    grant: Grant)

  /** The readings of the clock one call may take. */
  datatype Clock = Clock(start: int, due: int, check: int)

  // ----- settle -----

  /** What settle starts: a refreshment, a payment, both or nothing. */
  datatype Settlement = Settlement(peer: Peer, refresh: Option<int>, payment: Option<nat>)

  function Max(x: int, y: int): int { if x >= y then x else y }

  function Min(x: int, y: int): int { if x <= y then x else y }

  /** shadowBalance */
  function ShadowBalance(p: Peer): int {
    if p.balance >= 0 then 0
    else if -p.balance + p.surplus < p.shadow then 0
    else -p.balance - p.shadow
  }

  /** The amount settle would pay, before it compares it with the minimum. */
  function Payable(c: Config, p: Peer, t: Clock): int {
    Min(-p.originated, -p.balance - Seconds(t.due - p.refreshTs) * c.full.rate - p.shadow)
  }

  predicate Pays(c: Config, p: Peer, t: Clock) {
    && c.canPay && !p.paymentOngoing
    && t.start / 1000 - p.failedTs > FAILED_SETTLEMENT_INTERVAL
    && -p.originated >= c.minimumPayment
    && Payable(c, p, t) >= c.minimumPayment
  }

  function Settle(c: Config, p: Peer, t: Clock): Settlement {
    var amount := ShadowBalance(p);
    if amount < c.full.rate then Settlement(p, None, None)
    else
      var refreshes := t.start - p.refreshTs > 999 && !p.refreshOngoing;
      var begun := if refreshes then p.(refreshOngoing := true) else p;
      var refresh := if refreshes then Some(amount) else None;
      if Pays(c, p, t) then
        var pay: nat := Payable(c, p, t);
        var shadowed := begun.(paymentOngoing := true, shadow := begun.shadow + pay);
        Settlement(if begun.refreshOngoing then shadowed.(refreshReserved := begun.refreshReserved + pay) else shadowed,
                   refresh, Some(pay))
      else
        Settlement(begun, refresh, None)
  }

  // ----- credit -----

  /** Our debt if everything reserved is credited, with what the peer has overpaid. */
  function IncreasedExpectedDebt(p: Peer, price: nat): int {
    Max(0, -p.balance) + p.reserved + price + p.surplus
  }

  function OverdraftLimit(c: Config, p: Peer, now: int): int {
    p.threshold + Min(Seconds(now - p.refreshTs), 1) * c.full.rate
  }

  datatype Outcome = Done | Overdraft | NotConnected | Block

  /** The settlement a call started and how it ended. */
  datatype Result = Result(s: Settlement, outcome: Outcome)

  /** The settlement that comes before the check of the overdraft limit. */
  function SettleEarly(c: Config, p: Peer, price: nat, t: Clock): Settlement {
    if IncreasedExpectedDebt(p, price) - p.shadow >= p.earlyPayment && p.balance < 0 then Settle(c, p, t)
    else Settlement(p, None, None)
  }

  function PrepareCredit(c: Config, p: Peer, price: nat, t: Clock): Result {
    if !p.connected then Result(Settlement(p, None, None), NotConnected)
    else
      var s := SettleEarly(c, p, price, t);
      if IncreasedExpectedDebt(s.peer, price) > OverdraftLimit(c, s.peer, t.check) then Result(s, Overdraft)
      else Result(s.(peer := s.peer.(reserved := s.peer.reserved + price)), Done)
  }

  function Release(p: Peer, price: nat): Peer {
    if price > p.reserved then p.(reserved := 0) else p.(reserved := p.reserved - price)
  }

  /** The books after a credit; an originated one also lowers the originated balance, never below the debt. */
  function Credited(p: Peer, price: nat, originated: bool): Peer {
    var next := p.balance - price;
    var booked := Release(p.(balance := next), price);
    if originated then booked.(originated := Max(p.originated - price, Min(next, 0))) else booked
  }

  function ApplyCredit(c: Config, p: Peer, price: nat, originated: bool, t: Clock): Settlement {
    var booked := Credited(p, price, originated);
    if IncreasedExpectedDebt(p, price) - p.shadow > p.earlyPayment then Settle(c, booked, t)
    else Settlement(booked, None, None)
  }

  function CleanupCredit(p: Peer, price: nat): Peer {
    Release(p, price)
  }

  // ----- debit -----

  function PrepareDebit(p: Peer, price: nat): Peer {
    var shadowed := p.(shadow := p.shadow + price);
    if p.refreshOngoing then shadowed.(refreshReserved := p.refreshReserved + price) else shadowed
  }

  /** decreaseOriginatedBalanceTo */
  function OriginatedAtLeast(p: Peer, limit: int): Peer {
    if p.originated < Min(limit, 0) then p.(originated := Min(limit, 0)) else p
  }

  /** increaseBalance: the surplus is drawn first. */
  function IncreaseBalance(p: Peer, price: nat): Peer {
    if p.surplus > 0 && p.surplus >= price then p.(surplus := p.surplus - price)
    else
      var next := p.balance + (price - p.surplus);
      OriginatedAtLeast(p.(surplus := 0, balance := next), next)
  }

  function ApplyDebit(c: Config, p: Peer, price: nat, now: int): (Peer, Outcome) {
    var next := IncreaseBalance(p, price);
    var limit := p.grant.disconnectLimit + Min(now - p.refreshReceivedTs, 1) * c.For(p.fullNode).rate;
    (next.(shadow := next.shadow - price), if next.balance >= limit then Block else Done)
  }

  function CleanupDebit(p: Peer, price: nat): (Peer, Outcome) {
    var next := p.(shadow := p.shadow - price, ghostBalance := p.ghostBalance + price);
    (next, if next.ghostBalance > next.grant.disconnectLimit then Block else Done)
  }

  // ----- settlements -----

  function NotifyPaymentSent(p: Peer, amount: nat, failed: bool, now: int): Peer {
    var freed := p.(paymentOngoing := false, shadow := p.shadow - amount);
    if failed then freed.(failedTs := now)
    else freed.(balance := p.balance + amount, originated := p.originated + amount)
  }

  function NotifyPaymentThreshold(c: Config, p: Peer, threshold: nat): Peer {
    p.(threshold := threshold, earlyPayment := PercentOf(100 - c.early, threshold))
  }

  /** notifyPaymentThresholdUpgrade */
  function Upgrade(c: Config, g: Grant, fullNode: bool): Grant {
    var terms := c.For(fullNode);
    var threshold := g.threshold + terms.rate;
    PercentIsNat(100 + c.tolerance, threshold);
    g.(growAt := if g.growAt >= terms.growChange then g.growAt * 2 else g.growAt + terms.growStep,
       threshold := threshold,
       disconnectLimit := PercentOf(100 + c.tolerance, threshold))
  }

  /** The head of NotifyPaymentReceived and NotifyRefreshmentReceived. */
  function Repaid(c: Config, p: Peer, amount: nat): Peer {
    var g := p.grant.(totalDebtRepay := p.grant.totalDebtRepay + amount);
    p.(grant := if g.totalDebtRepay > g.growAt then Upgrade(c, g, p.fullNode) else g)
  }

  /** A payment never puts us into debt: what is too much becomes surplus. */
  function NotifyPaymentReceived(c: Config, p: Peer, amount: nat): Peer {
    var q := Repaid(c, p, amount);
    if q.balance <= 0 then q.(surplus := q.surplus + amount)
    else if q.balance - amount < 0 then q.(balance := 0, surplus := q.surplus + (amount - q.balance))
    else q.(balance := q.balance - amount)
  }

  function NotifyRefreshmentReceived(c: Config, p: Peer, amount: nat, now: int): Peer {
    var q := Repaid(c, p, amount);
    q.(balance := q.balance - amount, refreshReceivedTs := now)
  }

  datatype RefreshError = NoError | PeerNotFound | Refused

  /** The least a refreshment has to bring: the allowance of the interval, or what the debt still asked for. */
  function Expected(c: Config, p: Peer, attempted: int, interval: int): int {
    Min(interval * c.full.rate, Min(attempted - p.refreshReserved, attempted))
  }

  function NotifyRefreshmentSent(c: Config, p: Peer, attempted: int, amount: nat, now: int, interval: int,
                                 err: RefreshError): (Peer, Outcome) {
    var ended := p.(refreshOngoing := false, refreshTs := now);
    if err != NoError then (ended, if err == PeerNotFound then Done else Block)
    else
      var reset := ended.(refreshReserved := 0);
      if Expected(c, p, attempted, interval) > amount then (reset, Block)
      else (OriginatedAtLeast(reset.(balance := p.balance + amount), p.balance + amount), Done)
  }

  // ----- connections -----

  /** Connect leaves the originated balance, the repaid total and any open action as they are. */
  function Connect(c: Config, p: Peer, fullNode: bool): Peer {
    var terms := c.For(fullNode);
    p.(connected := true, fullNode := fullNode,
       shadow := 0, ghostBalance := 0, reserved := 0, refreshReserved := 0, balance := 0, surplus := 0,
       grant := p.grant.(threshold := terms.threshold, growAt := terms.growStep, disconnectLimit := terms.disconnectLimit))
  }

  function Disconnect(p: Peer): Peer {
    p.(connected := false)
  }

  /** getAccountingPeer for a peer not seen before. */
  function NewPeer(c: Config): Peer {
    Peer(0, 0, 0, 0, 0, 0, 0, c.full.threshold, PercentOf(100 - c.early, c.full.threshold), 0, 0, 0,
         false, false, false, false,
         Grant(c.full.threshold, c.full.disconnectLimit, 0, c.full.growStep))
  }
}
