/** Runs of the accounting of one peer: every order of actions, settlements and reconnections. */
module AccountingRuns {
  import opened Wrappers

  import opened AccountingOps

  /** An open credit action. */
  datatype Credit = Credit(price: nat, originated: bool)

  /**
   What has been booked since the peer connected, the highest threshold it has announced, and the
   price of the credits that were open when it connected.
   */
  datatype History = History(debited: nat, credited: nat, sent: nat, received: nat, refreshed: nat, topThreshold: nat,
                             stranded: nat)

  /** The peer, its open actions, and the settlements under way. */
  datatype Sys = Sys(p: Peer, credits: seq<Credit>, debits: seq<nat>, paying: Option<nat>, refreshing: Option<int>, h: History)

  datatype Event =
    | PrepareCreditEvent(price: nat, originated: bool, t: Clock)
    | ApplyCreditEvent(i: nat, t: Clock)
    | CleanupCreditEvent(i: nat)
    | PrepareDebitEvent(price: nat)
    | ApplyDebitEvent(i: nat, now: int)
    | CleanupDebitEvent(i: nat)
    | PaymentSentEvent(failed: bool, now: int)
    | PaymentReceivedEvent(amount: nat)
    | RefreshmentSentEvent(amount: nat, now: int, interval: int, err: RefreshError)
    | RefreshmentReceivedEvent(amount: nat, now: int)
    | ThresholdEvent(threshold: nat)
    | ConnectEvent(fullNode: bool)
    | DisconnectEvent

  // ----- sums -----

  function Without<T>(s: seq<T>, i: nat): seq<T>
    requires i < |s|
  {
    s[..i] + s[i + 1..]
  }

  function Sum(s: seq<nat>): nat {
    if s == [] then 0 else s[0] + Sum(s[1..])
  }

  function Prices(s: seq<Credit>): seq<nat> {
    seq(|s|, i requires 0 <= i < |s| => s[i].price)
  }

  /** What is open in credits. */
  function OpenCredit(s: Sys): nat {
    Sum(Prices(s.credits))
  }

  lemma {:induction false} SumWithout(s: seq<nat>, i: nat)
    requires i < |s|
    ensures Sum(s) == s[i] + Sum(Without(s, i))
  {
    if i > 0 {
      SumWithout(s[1..], i - 1);
      assert Without(s, i) == [s[0]] + Without(s[1..], i - 1);
    } else {
      assert Without(s, 0) == s[1..];
    }
  }

  lemma {:induction false} SumAppend(s: seq<nat>, x: nat)
    ensures Sum(s + [x]) == Sum(s) + x
  {
    if s == [] {
      assert s + [x] == [x];
    } else {
      SumAppend(s[1..], x);
      assert (s + [x])[1..] == s[1..] + [x];
    }
  }

  // ----- the calls as events -----

  /**
   Each action is applied once or cleaned up once; a payment comes back with the amount it was sent with.
   The peer may connect again at any time, with actions open and a payment under way.
   */
  predicate Possible(s: Sys, ev: Event) {
    match ev
    case ApplyCreditEvent(i, _) => i < |s.credits|
    case CleanupCreditEvent(i) => i < |s.credits|
    case PrepareDebitEvent(_) => s.p.connected
    case ApplyDebitEvent(i, _) => i < |s.debits|
    case CleanupDebitEvent(i) => i < |s.debits|
    case PaymentSentEvent(_, _) => s.paying.Some?
    case RefreshmentSentEvent(_, _, _, _) => s.refreshing.Some?
    case _ => true
  }

  function Started(s: Sys, settled: Settlement): Sys {
    s.(p := settled.peer,
       paying := if settled.payment.Some? then settled.payment else s.paying,
       refreshing := if settled.refresh.Some? then settled.refresh else s.refreshing)
  }

  function Step(c: Config, s: Sys, ev: Event): Sys
    requires Possible(s, ev)
  {
    match ev
    case PrepareCreditEvent(price, originated, t) =>
      var r := PrepareCredit(c, s.p, price, t);
      var next := Started(s, r.s);
      if r.outcome == Done then next.(credits := s.credits + [Credit(price, originated)]) else next
    case ApplyCreditEvent(i, t) =>
      var a := s.credits[i];
      Started(s, ApplyCredit(c, s.p, a.price, a.originated, t))
        .(credits := Without(s.credits, i), h := s.h.(credited := s.h.credited + a.price))
    case CleanupCreditEvent(i) =>
      s.(p := CleanupCredit(s.p, s.credits[i].price), credits := Without(s.credits, i))
    case PrepareDebitEvent(price) =>
      s.(p := PrepareDebit(s.p, price), debits := s.debits + [price])
    case ApplyDebitEvent(i, now) =>
      s.(p := ApplyDebit(c, s.p, s.debits[i], now).0, debits := Without(s.debits, i),
         h := s.h.(debited := s.h.debited + s.debits[i]))
    case CleanupDebitEvent(i) =>
      s.(p := CleanupDebit(s.p, s.debits[i]).0, debits := Without(s.debits, i))
    case PaymentSentEvent(failed, now) =>
      s.(p := NotifyPaymentSent(s.p, s.paying.value, failed, now), paying := None,
         h := if failed then s.h else s.h.(sent := s.h.sent + s.paying.value))
    case PaymentReceivedEvent(amount) =>
      s.(p := NotifyPaymentReceived(c, s.p, amount), h := s.h.(received := s.h.received + amount))
    case RefreshmentSentEvent(amount, now, interval, err) =>
      var r := NotifyRefreshmentSent(c, s.p, s.refreshing.value, amount, now, interval, err);
      s.(p := r.0, refreshing := None,
         h := if err == NoError && r.1 == Done then s.h.(sent := s.h.sent + amount) else s.h)
    case RefreshmentReceivedEvent(amount, now) =>
      s.(p := NotifyRefreshmentReceived(c, s.p, amount, now),
         h := s.h.(received := s.h.received + amount, refreshed := s.h.refreshed + amount))
    case ThresholdEvent(threshold) =>
      s.(p := NotifyPaymentThreshold(c, s.p, threshold),
         h := s.h.(topThreshold := Max(s.h.topThreshold, threshold)))
    case ConnectEvent(fullNode) =>
      s.(p := Connect(c, s.p, fullNode), h := History(0, 0, 0, 0, 0, s.p.threshold, OpenCredit(s)))
    case DisconnectEvent => s.(p := Disconnect(s.p))
  }

  // ----- what every run keeps -----

  /** The reserves are exactly what is open: no release is ever larger than what is reserved. */
  predicate ReservesMatch(s: Sys) {
    && s.p.reserved == OpenCredit(s)
    && s.p.shadow == Sum(s.debits) + (if s.paying.Some? then s.paying.value else 0)
    && (s.p.paymentOngoing <==> s.paying.Some?)
  }

  /** balance minus surplus is what was debited and sent less what was credited and received. */
  predicate LedgerBalances(s: Sys) {
    s.p.balance - s.p.surplus == s.h.debited - s.h.credited + s.h.sent - s.h.received
  }

  function Debt(p: Peer): nat { Max(0, -p.balance) }

  /**
   Debt and open credit stay within the highest threshold, one second of refreshment, what
   refreshments took, and what was stranded by the connection; by no more than that is less reserved
   than is open.
   */
  predicate WithinLimit(c: Config, s: Sys) {
    && s.p.threshold <= s.h.topThreshold
    && s.p.reserved <= OpenCredit(s) <= s.p.reserved + s.h.stranded
    && Debt(s.p) + OpenCredit(s) <= s.h.topThreshold + c.full.rate + s.h.refreshed + s.h.stranded
  }

  /** Debt we have run up for ourselves is never more than all our debt. */
  predicate OriginatedOk(p: Peer) {
    p.originated >= Min(p.balance, 0)
  }

  /** What no event can break: the ledger, the limit, and the flag that a payment is under way. */
  predicate Accounted(c: Config, s: Sys) {
    LedgerBalances(s) && WithinLimit(c, s) && (s.p.paymentOngoing <==> s.paying.Some?)
  }

  /** The books are in order. */
  predicate Books(c: Config, s: Sys) {
    ReservesMatch(s) && Accounted(c, s)
  }

  // ----- settle -----

  /** A payment is at least the minimum, and no more than the debt that is left, nor than the originated part. */
  lemma PaymentsStayWithinDebt(c: Config, p: Peer, t: Clock)
    requires t.due >= p.refreshTs && p.shadow >= 0
    ensures
      var pay := Settle(c, p, t).payment;
      pay.Some? ==>
        && c.minimumPayment <= pay.value <= -p.originated
        && pay.value + p.shadow <= -p.balance
        && !p.paymentOngoing && -p.balance - p.shadow >= c.full.rate
  {
    assert Seconds(t.due - p.refreshTs) >= 0;
    assert Seconds(t.due - p.refreshTs) * c.full.rate >= 0;
  }

  // ----- the steps -----

  lemma RefreshIsBounded(elapsed: int, rate: nat)
    ensures Min(elapsed, 1) * rate <= rate
  {
    if elapsed < 1 {
      assert elapsed * rate <= 0 by {
        if elapsed <= 0 {
          assert -elapsed * rate >= 0;
        }
      }
    }
  }

  lemma OpensCredit(credits: seq<Credit>, a: Credit)
    ensures Sum(Prices(credits + [a])) == Sum(Prices(credits)) + a.price
  {
    SumAppend(Prices(credits), a.price);
    assert Prices(credits + [a]) == Prices(credits) + [a.price];
  }

  lemma ClosesCredit(credits: seq<Credit>, i: nat)
    requires i < |credits|
    ensures Sum(Prices(credits)) == credits[i].price + Sum(Prices(Without(credits, i)))
  {
    SumWithout(Prices(credits), i);
    assert Without(Prices(credits), i) == Prices(Without(credits, i));
  }

  /** Settling books nothing yet: it moves a payment into the shadow reserve, and only when none is under way. */
  lemma SettleMatches(c: Config, s: Sys, t: Clock)
    requires ReservesMatch(s)
    ensures ReservesMatch(Started(s, Settle(c, s.p, t)))
  {
  }

  lemma PrepareCreditMatches(c: Config, s: Sys, price: nat, originated: bool, t: Clock)
    requires ReservesMatch(s)
    ensures ReservesMatch(Step(c, s, PrepareCreditEvent(price, originated, t)))
  {
    SettleMatches(c, s, t);
    OpensCredit(s.credits, Credit(price, originated));
  }

  lemma ReleaseIsExact(s: Sys, i: nat)
    requires ReservesMatch(s) && i < |s.credits|
    ensures s.credits[i].price <= s.p.reserved
    ensures Release(s.p, s.credits[i].price).reserved == Sum(Prices(Without(s.credits, i)))
  {
    ClosesCredit(s.credits, i);
  }

  /** The state once a credit is booked, before settle. */
  function Booked(s: Sys, i: nat): Sys
    requires i < |s.credits|
  {
    var a := s.credits[i];
    s.(p := Credited(s.p, a.price, a.originated), credits := Without(s.credits, i),
       h := s.h.(credited := s.h.credited + a.price))
  }

  lemma ApplyCreditMatches(c: Config, s: Sys, i: nat, t: Clock)
    requires ReservesMatch(s) && i < |s.credits|
    ensures ReservesMatch(Step(c, s, ApplyCreditEvent(i, t)))
  {
    ReleaseIsExact(s, i);
    SettleMatches(c, Booked(s, i), t);
  }

  /** A debit draws on the surplus first; either way it moves the net by its price and never lowers the balance. */
  lemma DebitBooksPrice(p: Peer, price: nat)
    ensures
      var next := IncreaseBalance(p, price);
      && next.balance - next.surplus == p.balance - p.surplus + price
      && next.balance >= p.balance && (OriginatedOk(p) ==> OriginatedOk(next))
      && next == p.(balance := next.balance, surplus := next.surplus, originated := next.originated)
  {
  }

  lemma ApplyDebitMatches(c: Config, s: Sys, i: nat, now: int)
    requires ReservesMatch(s) && i < |s.debits|
    ensures ReservesMatch(Step(c, s, ApplyDebitEvent(i, now)))
  {
    SumWithout(s.debits, i);
    DebitBooksPrice(s.p, s.debits[i]);
    var next := IncreaseBalance(s.p, s.debits[i]);
    assert ApplyDebit(c, s.p, s.debits[i], now).0 == next.(shadow := next.shadow - s.debits[i]);
  }

  /** An upgrade touches nothing but the grant. */
  lemma RepaidOnlyGrant(c: Config, p: Peer, amount: nat)
    ensures Repaid(c, p, amount) == p.(grant := Repaid(c, p, amount).grant)
  {
  }

  /** A payment received lowers the net by its amount and never puts us into debt. */
  lemma PaymentReceivedBooks(c: Config, p: Peer, amount: nat)
    ensures
      var next := NotifyPaymentReceived(c, p, amount);
      && next.balance - next.surplus == p.balance - p.surplus - amount
      && Debt(next) == Debt(p)
      && next == p.(balance := next.balance, surplus := next.surplus, grant := next.grant)
  {
    RepaidOnlyGrant(c, p, amount);
  }

  lemma RefreshmentSentMatches(c: Config, s: Sys, amount: nat, now: int, interval: int, err: RefreshError)
    requires ReservesMatch(s) && s.refreshing.Some?
    ensures ReservesMatch(Step(c, s, RefreshmentSentEvent(amount, now, interval, err)))
  {
  }

  lemma ZeroPrices(credits: seq<Credit>)
    ensures Sum(Prices(credits)) == 0 <==> forall k :: 0 <= k < |credits| ==> credits[k].price == 0
  {
    SumIsZero(Prices(credits));
    assert forall k :: 0 <= k < |credits| ==> Prices(credits)[k] == credits[k].price;
  }

  lemma {:induction false} SumIsZero(s: seq<nat>)
    ensures Sum(s) == 0 <==> forall k :: 0 <= k < |s| ==> s[k] == 0
  {
    if s != [] {
      SumIsZero(s[1..]);
      assert s == [s[0]] + s[1..];
    }
  }

  /** Nothing that still weighs is open: no credit, no debit, no payment under way. */
  predicate Settled(s: Sys) {
    && (forall k :: 0 <= k < |s.credits| ==> s.credits[k].price == 0)
    && (forall k :: 0 <= k < |s.debits| ==> s.debits[k] == 0)
    && (s.paying.Some? ==> s.paying.value == 0)
  }

  /**
   A connection clears the reserves and the balance, but neither the open actions, nor the payment
   under way, nor the originated balance: when it leaves the reserves, the books and the originated
   balance in order.
   */
  lemma ConnectIffSettled(c: Config, s: Sys, fullNode: bool)
    requires Accounted(c, s)
    ensures
      var next := Step(c, s, ConnectEvent(fullNode));
      && Accounted(c, next)
      && (ReservesMatch(next) <==> Settled(s))
      && (Books(c, next) <==> Settled(s))
      && (OriginatedOk(next.p) <==> s.p.originated >= 0)
  {
    ZeroPrices(s.credits);
    SumIsZero(s.debits);
  }

  // ----- every step -----

  /** Every event but a connection keeps the reserves equal to what is open. */
  lemma StepMatches(c: Config, s: Sys, ev: Event)
    requires ReservesMatch(s) && Possible(s, ev) && !ev.ConnectEvent?
    ensures ReservesMatch(Step(c, s, ev))
  {
    match ev {
      case PrepareCreditEvent(price, originated, t) => PrepareCreditMatches(c, s, price, originated, t);
      case ApplyCreditEvent(i, t) => ApplyCreditMatches(c, s, i, t);
      case CleanupCreditEvent(i) => ReleaseIsExact(s, i);
      case PrepareDebitEvent(price) => SumAppend(s.debits, price);
      case ApplyDebitEvent(i, now) => ApplyDebitMatches(c, s, i, now);
      case CleanupDebitEvent(i) => SumWithout(s.debits, i);
      case PaymentReceivedEvent(amount) => PaymentReceivedBooks(c, s.p, amount);
      case RefreshmentSentEvent(amount, now, interval, err) => RefreshmentSentMatches(c, s, amount, now, interval, err);
      case RefreshmentReceivedEvent(amount, now) => RepaidOnlyGrant(c, s.p, amount);
      case _ =>
    }
  }

  /** What no event but a connection can break. */
  predicate Loose(c: Config, s: Sys, next: Sys) {
    && (Accounted(c, s) ==> Accounted(c, next))
    && (OriginatedOk(s.p) ==> OriginatedOk(next.p))
  }

  lemma SettleIsLoose(c: Config, s: Sys, t: Clock)
    ensures Loose(c, s, Started(s, Settle(c, s.p, t)))
  {
  }

  lemma PrepareCreditIsLoose(c: Config, s: Sys, price: nat, originated: bool, t: Clock)
    ensures Loose(c, s, Step(c, s, PrepareCreditEvent(price, originated, t)))
  {
    EarlyIsLoose(c, s, price, t);
    var early := Started(s, SettleEarly(c, s.p, price, t));
    if IncreasedExpectedDebt(early.p, price) <= OverdraftLimit(c, early.p, t.check) {
      AdmitIsLoose(c, early, price, originated, t.check);
    }
    PrepareCreditShape(c, s, price, originated, t);
  }

  lemma EarlyIsLoose(c: Config, s: Sys, price: nat, t: Clock)
    ensures Loose(c, s, Started(s, SettleEarly(c, s.p, price, t)))
  {
    SettleIsLoose(c, s, t);
  }

  lemma PrepareCreditShape(c: Config, s: Sys, price: nat, originated: bool, t: Clock)
    ensures
      var early := Started(s, SettleEarly(c, s.p, price, t));
      Step(c, s, PrepareCreditEvent(price, originated, t)) ==
        if !s.p.connected then s
        else if IncreasedExpectedDebt(early.p, price) > OverdraftLimit(c, early.p, t.check) then early
        else early.(p := early.p.(reserved := early.p.reserved + price), credits := s.credits + [Credit(price, originated)])
  {
  }

  /** A credit is admitted only within the limit, on top of what is reserved already. */
  lemma AdmitIsLoose(c: Config, s: Sys, price: nat, originated: bool, now: int)
    requires IncreasedExpectedDebt(s.p, price) <= OverdraftLimit(c, s.p, now)
    ensures Loose(c, s, s.(p := s.p.(reserved := s.p.reserved + price), credits := s.credits + [Credit(price, originated)]))
  {
    RefreshIsBounded(Seconds(now - s.p.refreshTs), c.full.rate);
    OpensCredit(s.credits, Credit(price, originated));
  }

  /** However much a release takes of the reserve, debt and open credit do not grow. */
  lemma BookedIsLoose(c: Config, s: Sys, i: nat)
    requires i < |s.credits|
    ensures Loose(c, s, Booked(s, i))
  {
    BookedWithinLimit(c, s, i);
    BookedOriginated(s, i);
  }

  lemma BookedWithinLimit(c: Config, s: Sys, i: nat)
    requires i < |s.credits|
    ensures WithinLimit(c, s) ==> WithinLimit(c, Booked(s, i))
  {
    ClosesCredit(s.credits, i);
  }

  lemma BookedOriginated(s: Sys, i: nat)
    requires i < |s.credits|
    ensures OriginatedOk(s.p) ==> OriginatedOk(Booked(s, i).p)
    ensures LedgerBalances(s) ==> LedgerBalances(Booked(s, i))
    ensures Booked(s, i).p.paymentOngoing == s.p.paymentOngoing && Booked(s, i).paying == s.paying
  {
  }

  lemma CleanupIsLoose(c: Config, s: Sys, i: nat)
    requires i < |s.credits|
    ensures Loose(c, s, Step(c, s, CleanupCreditEvent(i)))
  {
    ClosesCredit(s.credits, i);
  }

  lemma ApplyCreditIsLoose(c: Config, s: Sys, i: nat, t: Clock)
    requires i < |s.credits|
    ensures Loose(c, s, Step(c, s, ApplyCreditEvent(i, t)))
  {
    BookedIsLoose(c, s, i);
    SettleIsLoose(c, Booked(s, i), t);
  }

  lemma RefreshmentSentIsLoose(c: Config, s: Sys, amount: nat, now: int, interval: int, err: RefreshError)
    requires s.refreshing.Some?
    ensures Loose(c, s, Step(c, s, RefreshmentSentEvent(amount, now, interval, err)))
  {
  }

  lemma StepIsLoose(c: Config, s: Sys, ev: Event)
    requires Possible(s, ev) && !ev.ConnectEvent?
    ensures Loose(c, s, Step(c, s, ev))
  {
    match ev {
      case PrepareCreditEvent(price, originated, t) => PrepareCreditIsLoose(c, s, price, originated, t);
      case ApplyCreditEvent(i, t) => ApplyCreditIsLoose(c, s, i, t);
      case CleanupCreditEvent(i) => CleanupIsLoose(c, s, i);
      case PaymentReceivedEvent(amount) => PaymentReceivedBooks(c, s.p, amount);
      case RefreshmentReceivedEvent(amount, now) => RepaidOnlyGrant(c, s.p, amount);
      case RefreshmentSentEvent(amount, now, interval, err) => RefreshmentSentIsLoose(c, s, amount, now, interval, err);
      case ApplyDebitEvent(i, now) => DebitBooksPrice(s.p, s.debits[i]);
      case _ =>
    }
  }

  /** The ledger and the limit are kept by every event, also by actions that a connection has stranded. */
  lemma StepKeepsAccounts(c: Config, s: Sys, ev: Event)
    requires Accounted(c, s) && Possible(s, ev)
    ensures Accounted(c, Step(c, s, ev))
  {
    if ev.ConnectEvent? {
      ConnectIffSettled(c, s, ev.fullNode);
    } else {
      StepIsLoose(c, s, ev);
    }
  }

  /** Every event keeps the books in order, but for a connection that finds something open. */
  lemma StepKeepsIff(c: Config, s: Sys, ev: Event)
    requires Books(c, s) && Possible(s, ev)
    ensures Books(c, Step(c, s, ev)) <==> (ev.ConnectEvent? ==> Settled(s))
  {
    StepKeepsAccounts(c, s, ev);
    if ev.ConnectEvent? {
      ConnectIffSettled(c, s, ev.fullNode);
    } else {
      StepMatches(c, s, ev);
    }
  }

  /** The originated balance stays within the debt by every event but a connection that finds it negative. */
  lemma StepKeepsOriginatedIff(c: Config, s: Sys, ev: Event)
    requires OriginatedOk(s.p) && Possible(s, ev)
    ensures OriginatedOk(Step(c, s, ev).p) <==> (ev.ConnectEvent? ==> s.p.originated >= 0)
  {
    if !ev.ConnectEvent? {
      StepIsLoose(c, s, ev);
    }
  }

  // ----- every run -----

  ghost predicate PossibleRun(c: Config, s: Sys, evs: seq<Event>)
    decreases |evs|
  {
    evs == [] || (Possible(s, evs[0]) && PossibleRun(c, Step(c, s, evs[0]), evs[1..]))
  }

  ghost function Run(c: Config, s: Sys, evs: seq<Event>): Sys
    requires PossibleRun(c, s, evs)
    decreases |evs|
  {
    if evs == [] then s else Run(c, Step(c, s, evs[0]), evs[1..])
  }

  /** Whether the state met the condition when the peer last connected; met says so for the time before the run. */
  ghost predicate LastConnectMet(c: Config, s: Sys, evs: seq<Event>, condition: Sys -> bool, met: bool)
    requires PossibleRun(c, s, evs)
    decreases |evs|
  {
    if evs == [] then met
    else LastConnectMet(c, Step(c, s, evs[0]), evs[1..], condition, if evs[0].ConnectEvent? then condition(s) else met)
  }

  lemma {:induction false} RunKeepsBooks(c: Config, s: Sys, evs: seq<Event>, ok: bool)
    requires PossibleRun(c, s, evs) && Accounted(c, s) && (ok ==> Books(c, s))
    ensures Accounted(c, Run(c, s, evs))
    ensures LastConnectMet(c, s, evs, Settled, ok) ==> Books(c, Run(c, s, evs))
    decreases |evs|
  {
    if evs != [] {
      StepKeepsAccounts(c, s, evs[0]);
      if evs[0].ConnectEvent? {
        ConnectIffSettled(c, s, evs[0].fullNode);
      } else if ok {
        StepKeepsIff(c, s, evs[0]);
      }
      RunKeepsBooks(c, Step(c, s, evs[0]), evs[1..], if evs[0].ConnectEvent? then Settled(s) else ok);
    }
  }

  predicate NothingOriginated(s: Sys) {
    s.p.originated >= 0
  }

  lemma {:induction false} RunKeepsOriginated(c: Config, s: Sys, evs: seq<Event>, ok: bool)
    requires PossibleRun(c, s, evs) && (ok ==> OriginatedOk(s.p))
    ensures LastConnectMet(c, s, evs, NothingOriginated, ok) ==> OriginatedOk(Run(c, s, evs).p)
    decreases |evs|
  {
    if evs != [] {
      if ok {
        StepKeepsOriginatedIff(c, s, evs[0]);
      }
      RunKeepsOriginated(c, Step(c, s, evs[0]), evs[1..], if evs[0].ConnectEvent? then NothingOriginated(s) else ok);
    }
  }

  /** A peer seen for the first time, with nothing open. */
  function Start(c: Config): Sys {
    Sys(NewPeer(c), [], [], None, None, History(0, 0, 0, 0, 0, c.full.threshold, 0))
  }

  lemma StartIsAccounted(c: Config)
    ensures Books(c, Start(c))
  {
    assert Prices([]) == [];
  }

  /**
   In every run the ledger balances and the debt stays bounded, the bound growing by what the last
   connection has found open. From a connection that finds nothing open (or from the start) to the
   next one, the reserves are exactly what is open; from a connection that finds no originated debt,
   the originated balance covers no more than the debt.
   */
  lemma AccountsAreSound(c: Config, evs: seq<Event>)
    requires PossibleRun(c, Start(c), evs)
    ensures
      var end := Run(c, Start(c), evs);
      && LedgerBalances(end) && WithinLimit(c, end) && (end.p.paymentOngoing <==> end.paying.Some?)
      && (LastConnectMet(c, Start(c), evs, Settled, true) ==> ReservesMatch(end))
      && (LastConnectMet(c, Start(c), evs, NothingOriginated, true) ==> OriginatedOk(end.p))
  {
    StartIsAccounted(c);
    RunKeepsBooks(c, Start(c), evs, true);
    RunKeepsOriginated(c, Start(c), evs, true);
  }

  /** The branches that guard against releasing more than was reserved are never taken. */
  lemma NothingIsOverReleased(c: Config, s: Sys)
    requires ReservesMatch(s)
    ensures forall i :: 0 <= i < |s.credits| ==> s.credits[i].price <= s.p.reserved
    ensures forall i :: 0 <= i < |s.debits| ==> s.debits[i] <= s.p.shadow
    ensures s.paying.Some? ==> s.paying.value <= s.p.shadow
  {
    forall i | 0 <= i < |s.credits| ensures s.credits[i].price <= s.p.reserved {
      ReleaseIsExact(s, i);
    }
    forall i | 0 <= i < |s.debits| ensures s.debits[i] <= s.p.shadow {
      SumWithout(s.debits, i);
    }
  }

  // ----- no overdraft -----

  /** Events that change neither the threshold nor, by a refreshment we grant, the debt limit. */
  predicate Steady(ev: Event) {
    !ev.ThresholdEvent? && !ev.RefreshmentReceivedEvent? && !ev.ConnectEvent?
  }

  lemma SettleIsSteady(c: Config, s: Sys, settled: Settlement, t: Clock)
    requires settled == Settle(c, s.p, t)
    ensures Started(s, settled).p.threshold == s.p.threshold && Started(s, settled).h == s.h
  {
  }

  lemma StepIsSteady(c: Config, s: Sys, ev: Event)
    requires Possible(s, ev) && Steady(ev)
    ensures
      var next := Step(c, s, ev);
      && next.p.threshold == s.p.threshold && next.h.refreshed == s.h.refreshed && next.h.topThreshold == s.h.topThreshold
      && next.h.stranded == s.h.stranded
  {
    match ev {
      case PrepareCreditEvent(price, originated, t) => SettleIsSteady(c, s, Settle(c, s.p, t), t);
      case ApplyCreditEvent(i, t) =>
        var booked := Credited(s.p, s.credits[i].price, s.credits[i].originated);
        SettleIsSteady(c, s.(p := booked), Settle(c, booked, t), t);
      case PaymentReceivedEvent(amount) => PaymentReceivedBooks(c, s.p, amount);
      case _ =>
    }
  }

  lemma {:induction false} RunIsSteady(c: Config, s: Sys, evs: seq<Event>)
    requires PossibleRun(c, s, evs) && forall i :: 0 <= i < |evs| ==> Steady(evs[i])
    ensures
      var end := Run(c, s, evs);
      && end.p.threshold == s.p.threshold && end.h.refreshed == s.h.refreshed && end.h.topThreshold == s.h.topThreshold
      && end.h.stranded == s.h.stranded
    decreases |evs|
  {
    if evs != [] {
      StepIsSteady(c, s, evs[0]);
      RunIsSteady(c, Step(c, s, evs[0]), evs[1..]);
    }
  }

  /**
   From any connection on, as long as the threshold stands and we grant no refreshment, our debt and
   all we have reserved stay within the threshold, one second of refreshment, and the price of the
   credits that the connection found open, whatever happened before, also when payments come in.
   */
  lemma NoOverdraft(c: Config, before: seq<Event>, fullNode: bool, evs: seq<Event>)
    requires PossibleRun(c, Start(c), before)
    requires PossibleRun(c, Step(c, Run(c, Start(c), before), ConnectEvent(fullNode)), evs)
    requires forall i :: 0 <= i < |evs| ==> Steady(evs[i])
    ensures
      var s := Run(c, Start(c), before);
      var end := Run(c, Step(c, s, ConnectEvent(fullNode)), evs);
      Debt(end.p) + end.p.reserved <= s.p.threshold + c.full.rate + OpenCredit(s)
  {
    var s := Run(c, Start(c), before);
    var connected := Step(c, s, ConnectEvent(fullNode));
    AccountsAreSound(c, before);
    ConnectIffSettled(c, s, fullNode);
    RunKeepsBooks(c, connected, evs, false);
    RunIsSteady(c, connected, evs);
  }

  // ----- what a reconnection breaks -----

  /** One credit prepared before a connection: releasing it afterwards is more than is reserved. */
  lemma ConnectStrandsCredit(c: Config, fullNode: bool)
    requires c.full.threshold > 0
    ensures
      var evs := [ConnectEvent(fullNode), PrepareCreditEvent(1, false, Clock(0, 0, 0)), ConnectEvent(fullNode)];
      && PossibleRun(c, Start(c), evs)
      && var end := Run(c, Start(c), evs);
         && end.credits == [Credit(1, false)] && end.debits == [] && end.paying.None?
         && !ReservesMatch(end) && end.credits[0].price > end.p.reserved
  {
    var first := Step(c, Start(c), ConnectEvent(fullNode));
    var prepared := Step(c, first, PrepareCreditEvent(1, false, Clock(0, 0, 0)));
    assert prepared.credits == [Credit(1, false)] && prepared.credits[0].price == 1;
    AccountedAfter(c, first, prepared, PrepareCreditEvent(1, false, Clock(0, 0, 0)), fullNode);
    RunOfThree(c, Start(c), ConnectEvent(fullNode), PrepareCreditEvent(1, false, Clock(0, 0, 0)), ConnectEvent(fullNode));
  }

  /** One debit prepared before a connection: the shadow reserve goes below zero afterwards. */
  lemma ConnectStrandsDebit(c: Config, fullNode: bool)
    ensures
      var evs := [ConnectEvent(fullNode), PrepareDebitEvent(1), ConnectEvent(fullNode)];
      && PossibleRun(c, Start(c), evs)
      && var end := Run(c, Start(c), evs);
         && end.credits == [] && end.debits == [1] && end.paying.None?
         && !ReservesMatch(end) && Step(c, end, CleanupDebitEvent(0)).p.shadow < 0
  {
    var first := Step(c, Start(c), ConnectEvent(fullNode));
    var prepared := Step(c, first, PrepareDebitEvent(1));
    assert prepared.debits == [1] && prepared.debits[0] == 1;
    AccountedAfter(c, first, prepared, PrepareDebitEvent(1), fullNode);
    RunOfThree(c, Start(c), ConnectEvent(fullNode), PrepareDebitEvent(1), ConnectEvent(fullNode));
  }

  lemma AccountedAfter(c: Config, s: Sys, next: Sys, ev: Event, fullNode: bool)
    requires Accounted(c, s) && Possible(s, ev) && next == Step(c, s, ev) && !Settled(next)
    ensures Accounted(c, next) && !ReservesMatch(Step(c, next, ConnectEvent(fullNode)))
  {
    StepKeepsAccounts(c, s, ev);
    ConnectIffSettled(c, next, fullNode);
  }

  lemma RunCons(c: Config, s: Sys, x: Event, rest: seq<Event>)
    requires Possible(s, x) && PossibleRun(c, Step(c, s, x), rest)
    ensures PossibleRun(c, s, [x] + rest) && Run(c, s, [x] + rest) == Run(c, Step(c, s, x), rest)
  {
    assert ([x] + rest)[1..] == rest;
  }

  lemma RunOfThree(c: Config, s: Sys, x: Event, y: Event, z: Event)
    requires Possible(s, x) && Possible(Step(c, s, x), y) && Possible(Step(c, Step(c, s, x), y), z)
    ensures PossibleRun(c, s, [x, y, z])
    ensures Run(c, s, [x, y, z]) == Step(c, Step(c, Step(c, s, x), y), z)
  {
    RunCons(c, Step(c, Step(c, s, x), y), z, []);
    RunCons(c, Step(c, s, x), y, [z] + []);
    RunCons(c, s, x, [y] + ([z] + []));
    assert [x] + ([y] + ([z] + [])) == [x, y, z];
  }

  /** Terms under which a credit of half the threshold is paid for at once. */
  const EAGER: Config := NewConfig(2000, 25, 50, 10, 10, true)

  lemma EagerTerms()
    ensures EAGER == Config(Terms(2000, 10, 1000, 18000, 2500), Terms(200, 1, 100, 1800, 250), 25, 50, 2, true)
  {
  }

  const LATER: Clock := Clock(11000, 11000, 11000)

  lemma EagerPays(p: Peer)
    requires p.balance == -1000 && p.originated == -1000 && p.shadow == 0 && p.refreshTs == 0 && p.failedTs == 0
    requires !p.paymentOngoing
    ensures Settle(EAGER, p, LATER).payment == Some(890)
  {
    EagerTerms();
    assert Payable(EAGER, p, LATER) == 890;
  }

  lemma EagerCredit(s: Sys)
    requires s.credits == [Credit(1000, true)] && s.p.balance == 0 && s.p.surplus == 0 && s.p.reserved == 1000
    requires s.p.shadow == 0 && s.p.originated == 0 && s.p.refreshTs == 0 && s.p.failedTs == 0 && !s.p.paymentOngoing
    requires s.p.earlyPayment == 1000
    ensures
      var next := Step(EAGER, s, ApplyCreditEvent(0, LATER));
      && next.paying == Some(890) && next.credits == [] && next.debits == s.debits
      && next.p.originated == -1000
  {
    EagerPays(Credited(s.p, 1000, true));
  }

  /** The account after a connection and a credit of 1000 prepared. */
  ghost function Prepared(c: Config, fullNode: bool): Sys {
    Step(c, Step(c, Start(c), ConnectEvent(fullNode)), PrepareCreditEvent(1000, true, Clock(0, 0, 0)))
  }

  lemma FirstPrepares(c: Config, fullNode: bool)
    requires Start(c).p.threshold >= 1000
    ensures
      var s := Prepared(c, fullNode);
      && s.credits == [Credit(1000, true)] && s.debits == [] && s.p.balance == 0 && s.p.surplus == 0 && s.p.reserved == 1000
      && s.p.shadow == 0 && s.p.originated == 0 && s.p.refreshTs == 0 && s.p.failedTs == 0 && !s.p.paymentOngoing
      && s.p.earlyPayment == Start(c).p.earlyPayment
  {
    FirstConnection(c, fullNode);
    FirstCredit(c, Step(c, Start(c), ConnectEvent(fullNode)));
  }

  lemma FirstConnection(c: Config, fullNode: bool)
    ensures
      var s := Step(c, Start(c), ConnectEvent(fullNode));
      && s.credits == [] && s.debits == [] && s.p.connected && s.p.balance == 0 && s.p.surplus == 0 && s.p.reserved == 0
      && s.p.shadow == 0 && s.p.originated == 0 && s.p.refreshTs == 0 && s.p.failedTs == 0 && !s.p.paymentOngoing
      && s.p.threshold == Start(c).p.threshold && s.p.earlyPayment == Start(c).p.earlyPayment
  {
  }

  lemma EagerStart()
    ensures Start(EAGER).p.threshold == 2000 && Start(EAGER).p.earlyPayment == 1000
  {
    EagerTerms();
  }

  /** A first credit is admitted without a settlement. */
  lemma FirstCredit(c: Config, s: Sys)
    requires s.p.connected && s.p.balance == 0 && s.p.surplus == 0 && s.p.reserved == 0 && s.p.refreshTs == 0
    requires s.p.threshold >= 1000
    ensures Step(c, s, PrepareCreditEvent(1000, true, Clock(0, 0, 0))) ==
      s.(p := s.p.(reserved := 1000), credits := s.credits + [Credit(1000, true)])
  {
    PrepareCreditShape(c, s, 1000, true, Clock(0, 0, 0));
    assert OverdraftLimit(c, s.p, 0) == s.p.threshold;
  }

  /**
   One payment under way across a connection: when it is reported, more shadow reserve is released
   than there is, and the originated balance it pays for has outlived the debt.
   */
  lemma ConnectStrandsPayment(fullNode: bool)
    ensures
      var evs := [ConnectEvent(fullNode), PrepareCreditEvent(1000, true, Clock(0, 0, 0)), ApplyCreditEvent(0, LATER)];
      && PossibleRun(EAGER, Start(EAGER), evs)
      && var end := Step(EAGER, Run(EAGER, Start(EAGER), evs), ConnectEvent(fullNode));
         && end.credits == [] && end.debits == [] && end.paying == Some(890) && end.p.originated == -1000
         && !ReservesMatch(end) && !OriginatedOk(end.p)
         && Step(EAGER, end, PaymentSentEvent(false, 0)).p.shadow < 0
  {
    EagerStart();
    FirstPrepares(EAGER, fullNode);
    PreparedIsAccounted(EAGER, fullNode);
    EagerCredit(Prepared(EAGER, fullNode));
    RunOfThree(EAGER, Start(EAGER), ConnectEvent(fullNode), PrepareCreditEvent(1000, true, Clock(0, 0, 0)),
               ApplyCreditEvent(0, LATER));
    StrandedPayment(EAGER, Prepared(EAGER, fullNode), LATER, fullNode);
  }

  lemma PreparedIsAccounted(c: Config, fullNode: bool)
    ensures Accounted(c, Prepared(c, fullNode))
  {
    var first := Step(c, Start(c), ConnectEvent(fullNode));
    StartIsAccounted(c);
    StepKeepsAccounts(c, Start(c), ConnectEvent(fullNode));
    StepKeepsAccounts(c, first, PrepareCreditEvent(1000, true, Clock(0, 0, 0)));
  }

  lemma StrandedPayment(c: Config, s: Sys, t: Clock, fullNode: bool)
    requires Accounted(c, s) && |s.credits| > 0
    requires Step(c, s, ApplyCreditEvent(0, t)).paying.Some? && Step(c, s, ApplyCreditEvent(0, t)).paying.value > 0
    ensures
      var paid := Step(c, s, ApplyCreditEvent(0, t));
      var end := Step(c, paid, ConnectEvent(fullNode));
      && end.credits == paid.credits && end.debits == paid.debits && end.paying == paid.paying
      && end.p.originated == paid.p.originated && end.p.balance == 0
      && !ReservesMatch(end) && Step(c, end, PaymentSentEvent(false, 0)).p.shadow < 0
  {
    var paid := Step(c, s, ApplyCreditEvent(0, t));
    AccountedAfter(c, s, paid, ApplyCreditEvent(0, t), fullNode);
  }
}
