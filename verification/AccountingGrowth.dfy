/** How the threshold granted to a peer grows with the debt it repays. */
module AccountingGrowth {
  import opened AccountingOps
  import opened AccountingRuns

  /** The number of checkpoints that lie at equal distances. */
  const LINEAR: nat := 18

  /** The debt repaid at which the k-th upgrade is due: linear at first, then doubling. */
  function Checkpoint(rate: nat, k: nat): nat {
    if k <= LINEAR then k * (rate * LINEAR_CHECKPOINT_STEP) else 2 * Checkpoint(rate, k - 1)
  }

  function Pow2(k: nat): nat {
    if k == 0 then 1 else 2 * Pow2(k - 1)
  }

  lemma {:induction false} CheckpointDoubles(rate: nat, k: nat)
    ensures Checkpoint(rate, LINEAR + k) == rate * LINEAR_CHECKPOINT_NUMBER * Pow2(k)
    decreases k
  {
    if k > 0 {
      CheckpointDoubles(rate, k - 1);
    }
  }

  lemma {:induction false} CheckpointFromLinear(rate: nat, k: nat)
    requires k >= LINEAR
    ensures Checkpoint(rate, k) >= rate * LINEAR_CHECKPOINT_NUMBER
    decreases k
  {
    if k > LINEAR {
      CheckpointFromLinear(rate, k - 1);
    }
  }

  lemma CheckpointBelowLinear(rate: nat, k: nat)
    requires k < LINEAR && rate > 0
    ensures Checkpoint(rate, k) < rate * LINEAR_CHECKPOINT_NUMBER
  {
    var step := rate * LINEAR_CHECKPOINT_STEP;
    assert step > 0 && k * step <= 17 * step < 18 * step;
  }

  /** The rule of notifyPaymentThresholdUpgrade for the next checkpoint. */
  lemma NextCheckpoint(rate: nat, k: nat)
    ensures Checkpoint(rate, k + 1) ==
      if Checkpoint(rate, k) >= rate * LINEAR_CHECKPOINT_NUMBER then Checkpoint(rate, k) * 2
      else Checkpoint(rate, k) + rate * LINEAR_CHECKPOINT_STEP
  {
    if k >= LINEAR {
      CheckpointFromLinear(rate, k);
    } else if rate > 0 {
      CheckpointBelowLinear(rate, k);
      var step := rate * LINEAR_CHECKPOINT_STEP;
      assert (k + 1) * step == k * step + step;
    } else {
      ZeroCheckpoint(k);
      ZeroCheckpoint(k + 1);
    }
  }

  lemma {:induction false} ZeroCheckpoint(k: nat)
    ensures Checkpoint(0, k) == 0
    decreases k
  {
    if k > LINEAR {
      ZeroCheckpoint(k - 1);
    }
  }

  predicate ProperTerms(t: Terms, tolerance: nat) {
    && t.growStep == t.rate * LINEAR_CHECKPOINT_STEP
    && t.growChange == t.rate * LINEAR_CHECKPOINT_NUMBER
    && t.disconnectLimit == PercentOf(100 + tolerance, t.threshold)
  }

  predicate Proper(c: Config) {
    ProperTerms(c.full, c.tolerance) && ProperTerms(c.light, c.tolerance)
  }

  lemma NewConfigIsProper(threshold: nat, tolerance: nat, early: nat, rate: nat, lightFactor: nat, canPay: bool)
    requires lightFactor > 0
    ensures Proper(NewConfig(threshold, tolerance, early, rate, lightFactor, canPay))
  {
  }

  /** The terms NewAccounting has set up. */
  ghost predicate Made(c: Config) {
    exists threshold: nat, tolerance: nat, early: nat, rate: nat, lightFactor: nat, canPay ::
      lightFactor > 0 && c == NewConfig(threshold, tolerance, early, rate, lightFactor, canPay)
  }

  lemma MadeIsProper(c: Config)
    requires Made(c)
    ensures Proper(c)
  {
    var threshold: nat, tolerance: nat, early: nat, rate: nat, lightFactor: nat, canPay :|
      lightFactor > 0 && c == NewConfig(threshold, tolerance, early, rate, lightFactor, canPay);
    NewConfigIsProper(threshold, tolerance, early, rate, lightFactor, canPay);
  }

  /** The grant after n upgrades: each was earned, and the next one is still ahead. */
  predicate GrantOk(c: Config, fullNode: bool, g: Grant, n: nat) {
    var t := c.For(fullNode);
    && g.threshold == t.threshold + n * t.rate
    && g.disconnectLimit == PercentOf(100 + c.tolerance, g.threshold)
    && g.growAt == Checkpoint(t.rate, n + 1)
    && (n > 0 ==> g.totalDebtRepay > Checkpoint(t.rate, n))
  }

  lemma UpgradeEarned(c: Config, fullNode: bool, g: Grant, n: nat)
    requires Proper(c) && GrantOk(c, fullNode, g, n) && g.totalDebtRepay > g.growAt
    ensures GrantOk(c, fullNode, Upgrade(c, g, fullNode), n + 1)
  {
    var t := c.For(fullNode);
    NextCheckpoint(t.rate, n + 1);
    assert (n + 1) * t.rate == n * t.rate + t.rate;
  }

  /** A settlement received upgrades the grant once, or not at all. */
  lemma RepaidKeepsGrant(c: Config, p: Peer, amount: nat, n: nat)
    requires Proper(c) && GrantOk(c, p.fullNode, p.grant, n)
    ensures
      var q := Repaid(c, p, amount);
      GrantOk(c, q.fullNode, q.grant, if p.grant.totalDebtRepay + amount > p.grant.growAt then n + 1 else n)
  {
    var g := p.grant.(totalDebtRepay := p.grant.totalDebtRepay + amount);
    assert GrantOk(c, p.fullNode, g, n);
    if g.totalDebtRepay > g.growAt {
      UpgradeEarned(c, p.fullNode, g, n);
    }
  }

  /** How many upgrades an event brings. */
  function Upgrades(s: Sys, ev: Event): nat {
    match ev
    case PaymentReceivedEvent(amount) => if s.p.grant.totalDebtRepay + amount > s.p.grant.growAt then 1 else 0
    case RefreshmentReceivedEvent(amount, _) => if s.p.grant.totalDebtRepay + amount > s.p.grant.growAt then 1 else 0
    case _ => 0
  }

  lemma OtherStepsKeepGrant(c: Config, s: Sys, ev: Event)
    requires Possible(s, ev) && !ev.PaymentReceivedEvent? && !ev.RefreshmentReceivedEvent? && !ev.ConnectEvent?
    ensures Step(c, s, ev).p.grant == s.p.grant && Step(c, s, ev).p.fullNode == s.p.fullNode
  {
    match ev {
      case PrepareCreditEvent(price, originated, t) => SettleKeepsGrant(c, s.p, t);
      case ApplyCreditEvent(i, t) =>
        SettleKeepsGrant(c, Credited(s.p, s.credits[i].price, s.credits[i].originated), t);
      case ApplyDebitEvent(i, now) =>
      case _ =>
    }
  }

  lemma SettleKeepsGrant(c: Config, p: Peer, t: Clock)
    ensures Settle(c, p, t).peer.grant == p.grant && Settle(c, p, t).peer.fullNode == p.fullNode
  {
  }

  lemma StepKeepsGrant(c: Config, s: Sys, ev: Event, n: nat)
    requires Proper(c) && Possible(s, ev) && GrantOk(c, s.p.fullNode, s.p.grant, n)
    ensures
      var next := Step(c, s, ev).p;
      GrantOk(c, next.fullNode, next.grant, if ev.ConnectEvent? then 0 else n + Upgrades(s, ev))
  {
    match ev {
      case PaymentReceivedEvent(amount) =>
        RepaidKeepsGrant(c, s.p, amount, n);
        RepaidOnlyGrant(c, s.p, amount);
        PaymentReceivedBooks(c, s.p, amount);
      case RefreshmentReceivedEvent(amount, now) =>
        RepaidKeepsGrant(c, s.p, amount, n);
        RepaidOnlyGrant(c, s.p, amount);
      case ConnectEvent(fullNode) => ConnectGrants(c, s.p, fullNode);
      case _ => OtherStepsKeepGrant(c, s, ev);
    }
  }

  lemma ConnectGrants(c: Config, p: Peer, fullNode: bool)
    requires Proper(c)
    ensures GrantOk(c, fullNode, Connect(c, p, fullNode).grant, 0)
  {
    assert Checkpoint(c.For(fullNode).rate, 1) == c.For(fullNode).growStep;
  }

  /** The number of upgrades since the last connection. */
  ghost function Grown(c: Config, s: Sys, evs: seq<Event>, n: nat): nat
    requires PossibleRun(c, s, evs)
    decreases |evs|
  {
    if evs == [] then n
    else Grown(c, Step(c, s, evs[0]), evs[1..], if evs[0].ConnectEvent? then 0 else n + Upgrades(s, evs[0]))
  }

  lemma {:induction false} RunKeepsGrant(c: Config, s: Sys, evs: seq<Event>, n: nat)
    requires Proper(c) && PossibleRun(c, s, evs) && GrantOk(c, s.p.fullNode, s.p.grant, n)
    ensures GrantOk(c, Run(c, s, evs).p.fullNode, Run(c, s, evs).p.grant, Grown(c, s, evs, n))
    decreases |evs|
  {
    if evs != [] {
      StepKeepsGrant(c, s, evs[0], n);
      RunKeepsGrant(c, Step(c, s, evs[0]), evs[1..], if evs[0].ConnectEvent? then 0 else n + Upgrades(s, evs[0]));
    }
  }

  /**
   From the last connection on, n upgrades have granted n times the refresh rate, the disconnect limit
   follows the threshold, and beyond the linear checkpoints the debt repaid is exponential in n.
   */
  lemma ThresholdGrowsSlowly(c: Config, s: Sys, fullNode: bool, evs: seq<Event>)
    requires Made(c) && PossibleRun(c, Step(c, s, ConnectEvent(fullNode)), evs)
    ensures
      var connected := Step(c, s, ConnectEvent(fullNode));
      var g := Run(c, connected, evs).p.grant;
      var n := Grown(c, connected, evs, 0);
      var t := c.For(Run(c, connected, evs).p.fullNode);
      && g.threshold == t.threshold + n * t.rate
      && g.disconnectLimit == PercentOf(100 + c.tolerance, g.threshold)
      && (n > 0 ==> g.totalDebtRepay > Checkpoint(t.rate, n))
      && (n > LINEAR ==> g.totalDebtRepay > t.rate * LINEAR_CHECKPOINT_NUMBER * Pow2(n - LINEAR))
  {
    var connected := Step(c, s, ConnectEvent(fullNode));
    MadeIsProper(c);
    ConnectGrants(c, s.p, fullNode);
    RunKeepsGrant(c, connected, evs, 0);
    var n := Grown(c, connected, evs, 0);
    if n > LINEAR {
      CheckpointDoubles(c.For(Run(c, connected, evs).p.fullNode).rate, n - LINEAR);
    }
  }
}
