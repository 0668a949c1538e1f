/**
 When a peer is served, asked to pay or blocked: each decision as an if-and-only-if over balances,
 open prices and what has happened before, in every run.
 */
module AccountingDecisions {
  import opened Wrappers

  import opened AccountingOps
  import opened AccountingRuns
  import opened AccountingGrowth
  import opened AccountingMemory

  // ----- the limit of a peer's debt -----

  /** A peer may owe us the threshold we have granted it and the tolerance on top. */
  predicate Limited(c: Config, g: Grant) {
    g.disconnectLimit == g.threshold * (100 + c.tolerance) / 100
  }

  lemma RepaidStaysLimited(c: Config, p: Peer, amount: nat)
    requires Limited(c, p.grant)
    ensures Limited(c, Repaid(c, p, amount).grant)
  {
  }

  lemma StepStaysLimited(c: Config, s: Sys, ev: Event)
    requires Proper(c) && Possible(s, ev) && Limited(c, s.p.grant)
    ensures Limited(c, Step(c, s, ev).p.grant)
  {
    match ev {
      case PaymentReceivedEvent(amount) =>
        RepaidStaysLimited(c, s.p, amount);
        PaymentReceivedBooks(c, s.p, amount);
      case RefreshmentReceivedEvent(amount, now) => RepaidStaysLimited(c, s.p, amount);
      case ConnectEvent(fullNode) =>
      case _ => OtherStepsKeepGrant(c, s, ev);
    }
  }

  lemma {:induction false} RunStaysLimited(c: Config, s: Sys, evs: seq<Event>)
    requires Proper(c) && PossibleRun(c, s, evs) && Limited(c, s.p.grant)
    ensures Limited(c, Run(c, s, evs).p.grant)
    decreases |evs|
  {
    if evs != [] {
      StepStaysLimited(c, s, evs[0]);
      RunStaysLimited(c, Step(c, s, evs[0]), evs[1..]);
    }
  }

  lemma AlwaysLimited(c: Config, evs: seq<Event>)
    requires Made(c) && PossibleRun(c, Start(c), evs)
    ensures Limited(c, Run(c, Start(c), evs).p.grant)
  {
    MadeIsProper(c);
    RunStaysLimited(c, Start(c), evs);
  }

  /** What the peer owes us once a debit is booked, which draws on what it has overpaid first. */
  function OwedAfter(p: Peer, price: nat): int {
    p.balance + Max(0, price - p.surplus)
  }

  /** The refreshment a peer may still be owing: a second's worth at most, by its kind of node. */
  function RefreshmentDue(c: Config, m: Memory, now: int): int {
    (if now > m.received then 1 else now - m.received) * (if m.fullNode then c.full.rate else c.light.rate)
  }

  /**
   Applying a debit blocks the peer if and only if its debt then reaches the threshold granted to it,
   the tolerance on top, and the refreshment of at most a second since the last one it sent.
   */
  lemma DebitBlocksIff(c: Config, evs: seq<Event>, i: nat, now: int)
    requires Made(c) && PossibleRun(c, Start(c), evs) && i < |Run(c, Start(c), evs).debits|
    ensures
      var s := Run(c, Start(c), evs);
      var (next, outcome) := ApplyDebit(c, s.p, s.debits[i], now);
      var limit := s.p.grant.threshold * (100 + c.tolerance) / 100 + RefreshmentDue(c, Past(c, evs), now);
      && next.balance == OwedAfter(s.p, s.debits[i])
      && (outcome == Block <==> OwedAfter(s.p, s.debits[i]) >= limit)
      && (outcome == Done <==> OwedAfter(s.p, s.debits[i]) < limit)
  {
    AlwaysLimited(c, evs);
    PeerRemembers(c, evs);
  }

  /** So a peer that is not blocked never owes us more than that and one second of refreshment. */
  lemma ServedPeersOweLittle(c: Config, evs: seq<Event>, i: nat, now: int)
    requires Made(c) && PossibleRun(c, Start(c), evs) && i < |Run(c, Start(c), evs).debits|
    ensures
      var s := Run(c, Start(c), evs);
      var m := Past(c, evs);
      var (next, outcome) := ApplyDebit(c, s.p, s.debits[i], now);
      outcome == Done ==>
        next.balance < s.p.grant.threshold * (100 + c.tolerance) / 100 + (if m.fullNode then c.full.rate else c.light.rate)
  {
    DebitBlocksIff(c, evs, i, now);
    var m := Past(c, evs);
    RefreshIsBounded(now - m.received, if m.fullNode then c.full.rate else c.light.rate);
  }

  /** Giving up a debit blocks the peer if and only if all it has been given up since it connected goes beyond the limit. */
  lemma CleanupBlocksIff(c: Config, evs: seq<Event>, i: nat)
    requires Made(c) && PossibleRun(c, Start(c), evs) && i < |Run(c, Start(c), evs).debits|
    ensures
      var s := Run(c, Start(c), evs);
      var outcome := CleanupDebit(s.p, s.debits[i]).1;
      var limit := s.p.grant.threshold * (100 + c.tolerance) / 100;
      && (outcome == Block <==> Past(c, evs).abandoned + s.debits[i] > limit)
      && (outcome == Done <==> Past(c, evs).abandoned + s.debits[i] <= limit)
  {
    AlwaysLimited(c, evs);
    PeerRemembers(c, evs);
  }

  // ----- serving ourselves -----

  /** What refreshing brings by the clock: a second's worth once a second has gone by. */
  function Allowance(ms: int, rate: nat): int {
    if ms >= 1000 then rate else if ms > -1000 then 0 else -(-ms / 1000 * rate)
  }

  lemma AllowanceIs(ms: int, rate: nat)
    ensures Allowance(ms, rate) == Min(Seconds(ms), 1) * rate
  {
    if ms <= -1000 {
      assert Seconds(ms) == -(-ms / 1000) < 0;
      assert -(-ms / 1000 * rate) == -(-ms / 1000) * rate;
    }
  }

  /** Our debt if all that is open and the new price are credited, what we have been overpaid included. */
  function DebtWith(p: Peer, price: nat): int {
    (if p.balance < 0 then -p.balance else 0) + p.reserved + price + p.surplus
  }

  /**
   A credit is refused without a connection, and otherwise admitted if and only if all our debt, open
   credits and the new one included, stays within the threshold the peer has announced last and the
   refreshment of at most a second since our last one; an early settlement makes no difference to it.
   */
  lemma CreditAdmittedIff(c: Config, evs: seq<Event>, price: nat, t: Clock)
    requires PossibleRun(c, Start(c), evs)
    ensures
      var s, m := Run(c, Start(c), evs), Past(c, evs);
      var outcome := PrepareCredit(c, s.p, price, t).outcome;
      var limit := m.announced + Allowance(t.check - m.refreshed, c.full.rate);
      && (outcome == NotConnected <==> !m.connected)
      && (outcome == Done <==> m.connected && DebtWith(s.p, price) <= limit)
      && (outcome == Overdraft <==> m.connected && DebtWith(s.p, price) > limit)
  {
    PeerRemembers(c, evs);
    var s := Run(c, Start(c), evs);
    AllowanceIs(t.check - s.p.refreshTs, c.full.rate);
    SettleBooksNothing(c, s.p, t);
  }

  lemma SettleBooksNothing(c: Config, p: Peer, t: Clock)
    ensures
      var q := Settle(c, p, t).peer;
      && q.balance == p.balance && q.reserved == p.reserved && q.surplus == p.surplus
      && q.threshold == p.threshold && q.refreshTs == p.refreshTs
  {
  }

  /** The settlement of a call: settle, or nothing. */
  function SettledIf(settles: bool, c: Config, p: Peer, t: Clock): Settlement {
    if settles then Settle(c, p, t) else Settlement(p, None, None)
  }

  /**
   We settle before a credit if our debt with it, less what the peer is about to be debited, reaches
   the early payment and we are in debt; and after one if it goes beyond the early payment.
   */
  lemma SettlesIff(c: Config, evs: seq<Event>, price: nat, originated: bool, t: Clock)
    requires PossibleRun(c, Start(c), evs)
    ensures
      var s := Run(c, Start(c), evs);
      var early := Past(c, evs).announced * (100 - c.early) / 100;
      && SettleEarly(c, s.p, price, t) == SettledIf(DebtWith(s.p, price) - s.p.shadow >= early && s.p.balance < 0, c, s.p, t)
      && ApplyCredit(c, s.p, price, originated, t) ==
           SettledIf(DebtWith(s.p, price) - s.p.shadow > early, c, Credited(s.p, price, originated), t)
  {
    PeerRemembers(c, evs);
  }

  // ----- paying -----

  /**
   There is enough to settle: at least a second's worth of refreshment beyond what the peer is about
   to be debited. At a rate of 0 nothing at all is enough too.
   */
  predicate WorthSettling(c: Config, p: Peer) {
    || (p.balance < 0 && -p.balance - p.shadow >= c.full.rate)
    || (c.full.rate == 0 && (p.balance >= 0 || -p.balance + p.surplus < p.shadow))
  }

  /**
   Settle starts a refreshment if and only if there is enough to settle, none is under way and the
   last one ended a full second ago; it asks for all the debt that is not about to be debited.
   */
  lemma RefreshmentStartsIff(c: Config, evs: seq<Event>, t: Clock)
    requires PossibleRun(c, Start(c), evs)
    ensures
      var s := Run(c, Start(c), evs);
      var refresh := Settle(c, s.p, t).refresh;
      && (refresh.Some? <==>
            WorthSettling(c, s.p) && s.refreshing.None? && t.start - Past(c, evs).refreshed >= 1000)
      && (refresh.Some? ==>
            refresh.value == if s.p.balance < 0 && -s.p.balance > s.p.shadow then -s.p.balance - s.p.shadow else 0)
      && (refresh.Some? && ReservesMatch(s) && refresh.value > 0 ==>
            refresh.value + Sum(s.debits) + (if s.paying.Some? then s.paying.value else 0) == -s.p.balance)
  {
    PeerRemembers(c, evs);
  }

  /** The peer can be paid as much: it is our own debt, and due beyond refreshment and what is about to be debited. */
  predicate CanPay(c: Config, p: Peer, due: int, amount: int) {
    amount <= -p.originated && amount + Seconds(due) * c.full.rate + p.shadow <= -p.balance
  }

  ghost predicate MostPayable(c: Config, p: Peer, due: int, amount: int) {
    CanPay(c, p, due, amount) && forall other :: CanPay(c, p, due, other) ==> other <= amount
  }

  /**
   Settle starts a payment if and only if there is enough to settle, payments are enabled, none is
   under way, the last failure is more than ten seconds ago, and the minimum can be paid; it is the
   largest that can.
   */
  lemma PaymentStartsIff(c: Config, evs: seq<Event>, t: Clock)
    requires PossibleRun(c, Start(c), evs)
    ensures
      var s, m := Run(c, Start(c), evs), Past(c, evs);
      var payment := Settle(c, s.p, t).payment;
      && (payment.Some? <==>
            && WorthSettling(c, s.p) && c.canPay && s.paying.None? && t.start / 1000 > m.failed + 10
            && CanPay(c, s.p, t.due - m.refreshed, c.minimumPayment))
      && (payment.Some? ==>
            payment.value >= c.minimumPayment && MostPayable(c, s.p, t.due - m.refreshed, payment.value))
  {
    PeerRemembers(c, evs);
  }

  // ----- being refreshed -----

  /**
   The end of a refreshment blocks the peer if and only if it failed for another reason than the
   peer being gone, or brought less than the time that has passed, less than was asked for, and less
   than that when all that was prepared or paid meanwhile is taken off. A refreshment that is
   accepted raises the balance by what it brought, and no other does.
   */
  lemma RefreshmentBlocksIff(c: Config, evs: seq<Event>, amount: nat, now: int, interval: int, err: RefreshError)
    requires PossibleRun(c, Start(c), evs) && Run(c, Start(c), evs).refreshing.Some?
    ensures
      var s := Run(c, Start(c), evs);
      var asked := s.refreshing.value;
      var (next, outcome) := NotifyRefreshmentSent(c, s.p, asked, amount, now, interval, err);
      var tooLittle := amount < interval * c.full.rate && amount < asked && amount < asked - Past(c, evs).during;
      && (outcome == Block <==> err == Refused || (err == NoError && tooLittle))
      && (outcome == Done <==> err == PeerNotFound || (err == NoError && !tooLittle))
      && next.balance == s.p.balance + (if err == NoError && !tooLittle then amount else 0)
  {
    PeerRemembers(c, evs);
  }

  // ----- the debt we have originated -----

  function OwnDebt(p: Peer): int {
    -p.originated
  }

  /** Our own debt is cut down to all our debt. */
  function Cut(own: int, p: Peer): int {
    if own > Debt(p) then Debt(p) else own
  }

  lemma CreditMovesOwnDebt(p: Peer, price: nat, originated: bool)
    ensures
      var next := Credited(p, price, originated);
      OwnDebt(next) == if originated then Cut(OwnDebt(p) + price, next) else OwnDebt(p)
  {
  }

  lemma SettleKeepsOwnDebt(c: Config, p: Peer, t: Clock)
    ensures Settle(c, p, t).peer.originated == p.originated && Settle(c, p, t).peer.balance == p.balance
  {
  }

  lemma ApplyCreditOwnDebt(c: Config, p: Peer, price: nat, originated: bool, t: Clock)
    ensures
      var next := ApplyCredit(c, p, price, originated, t).peer;
      OwnDebt(next) == if originated then Cut(OwnDebt(p) + price, next) else OwnDebt(p)
  {
    CreditMovesOwnDebt(p, price, originated);
    SettleKeepsOwnDebt(c, Credited(p, price, originated), t);
  }

  /**
   What each event does to the debt we have originated ourselves: a credit for a request of our own
   adds its price, a payment that went through takes its amount off, and a debit that the surplus
   does not cover or an accepted refreshment cuts it down to all our debt. Nothing else moves it.
   */
  lemma OwnDebtMoves(c: Config, s: Sys, ev: Event)
    requires Possible(s, ev)
    ensures
      var next := Step(c, s, ev).p;
      OwnDebt(next) == match ev
        case ApplyCreditEvent(i, _) => if s.credits[i].originated then Cut(OwnDebt(s.p) + s.credits[i].price, next) else OwnDebt(s.p)
        case ApplyDebitEvent(i, _) => if 0 < s.p.surplus && s.debits[i] <= s.p.surplus then OwnDebt(s.p) else Cut(OwnDebt(s.p), next)
        case PaymentSentEvent(failed, _) => if failed then OwnDebt(s.p) else OwnDebt(s.p) - s.paying.value
        case RefreshmentSentEvent(amount, now, interval, err) =>
          if err == NoError && NotifyRefreshmentSent(c, s.p, s.refreshing.value, amount, now, interval, err).1 == Done
          then Cut(OwnDebt(s.p), next) else OwnDebt(s.p)
        case _ => OwnDebt(s.p)
  {
    match ev {
      case PrepareCreditEvent(price, originated, t) => SettleKeepsOwnDebt(c, s.p, t);
      case ApplyCreditEvent(i, t) => ApplyCreditOwnDebt(c, s.p, s.credits[i].price, s.credits[i].originated, t);
      case PaymentReceivedEvent(amount) => PaymentReceivedBooks(c, s.p, amount);
      case RefreshmentReceivedEvent(amount, now) => RepaidOnlyGrant(c, s.p, amount);
      case _ =>
    }
  }
}
