/** Two nodes that keep accounts of each other: their ledgers mirror each other up to what is in flight. */
module AccountingPair {
  import opened AccountingOps
  import opened AccountingRuns

  /** Each node has its own settings. */
  datatype Settings = Settings(a: Config, b: Config)
  {
    function Of(onA: bool): Config {
      if onA then a else b
    }
  }

  /** One exchange between the nodes, and which of the two sides has booked it. */
  datatype Deal =
    | Service(byA: bool, price: nat, debited: bool, credited: bool)
    | Transfer(fromA: bool, amount: nat, received: bool, booked: bool)

  /** A's account of B, B's account of A, and all their exchanges. */
  datatype Pair = Pair(a: Peer, b: Peer, deals: seq<Deal>)

  function Net(p: Peer): int { p.balance - p.surplus }

  /** What a half-booked exchange adds to the sum of the two nets. */
  function Pending(d: Deal): int {
    match d
    case Service(_, price, debited, credited) => (if debited then price else 0) - (if credited then price else 0)
    case Transfer(_, amount, received, booked) => (if booked then amount else 0) - (if received then amount else 0)
  }

  function InFlight(deals: seq<Deal>): int {
    if deals == [] then 0 else Pending(deals[0]) + InFlight(deals[1..])
  }

  predicate Complete(d: Deal) {
    match d
    case Service(_, _, debited, credited) => debited == credited
    case Transfer(_, _, received, booked) => received == booked
  }

  datatype Event =
    | Open(deal: Deal)
    | Debit(k: nat, now: int)
    | Credit(k: nat, originated: bool, t: Clock)
    | ReceivePayment(k: nat)
    | ReceiveRefreshment(k: nat, now: int)
    | BookPayment(k: nat, now: int)
    | BookRefreshment(k: nat, attempted: int, now: int, interval: int)
    | Local(onA: bool, next: Peer)

  predicate SameNet(p: Peer, q: Peer) {
    p.balance == q.balance && p.surplus == q.surplus
  }

  function Side(s: Pair, onA: bool): Peer {
    if onA then s.a else s.b
  }

  function With(s: Pair, onA: bool, p: Peer): Pair {
    if onA then s.(a := p) else s.(b := p)
  }

  /** Each side books an exchange once; a refreshment is booked when it meets the expectation. */
  predicate Possible(c: Settings, s: Pair, ev: Event) {
    match ev
    case Open(d) => if d.Service? then !d.debited && !d.credited else !d.received && !d.booked
    case Debit(k, _) => k < |s.deals| && s.deals[k].Service? && !s.deals[k].debited
    case Credit(k, _, _) => k < |s.deals| && s.deals[k].Service? && !s.deals[k].credited
    case ReceivePayment(k) => k < |s.deals| && s.deals[k].Transfer? && !s.deals[k].received
    case ReceiveRefreshment(k, _) => k < |s.deals| && s.deals[k].Transfer? && !s.deals[k].received
    case BookPayment(k, _) => k < |s.deals| && s.deals[k].Transfer? && !s.deals[k].booked
    case BookRefreshment(k, attempted, now, interval) =>
      && k < |s.deals| && s.deals[k].Transfer? && !s.deals[k].booked
      && NotifyRefreshmentSent(c.Of(s.deals[k].fromA), Side(s, s.deals[k].fromA), attempted, s.deals[k].amount, now,
                               interval, NoError).1 == Done
    case Local(onA, next) => SameNet(Side(s, onA), next)
  }

  function Step(c: Settings, s: Pair, ev: Event): Pair
    requires Possible(c, s, ev)
  {
    match ev
    case Open(d) => s.(deals := s.deals + [d])
    case Debit(k, now) =>
      var d := s.deals[k];
      With(s, d.byA, ApplyDebit(c.Of(d.byA), Side(s, d.byA), d.price, now).0).(deals := s.deals[k := d.(debited := true)])
    case Credit(k, originated, t) =>
      var d := s.deals[k];
      With(s, !d.byA, ApplyCredit(c.Of(!d.byA), Side(s, !d.byA), d.price, originated, t).peer)
        .(deals := s.deals[k := d.(credited := true)])
    case ReceivePayment(k) =>
      var d := s.deals[k];
      With(s, !d.fromA, NotifyPaymentReceived(c.Of(!d.fromA), Side(s, !d.fromA), d.amount)).(deals := s.deals[k := d.(received := true)])
    case ReceiveRefreshment(k, now) =>
      var d := s.deals[k];
      With(s, !d.fromA, NotifyRefreshmentReceived(c.Of(!d.fromA), Side(s, !d.fromA), d.amount, now))
        .(deals := s.deals[k := d.(received := true)])
    case BookPayment(k, now) =>
      var d := s.deals[k];
      With(s, d.fromA, NotifyPaymentSent(Side(s, d.fromA), d.amount, false, now)).(deals := s.deals[k := d.(booked := true)])
    case BookRefreshment(k, attempted, now, interval) =>
      var d := s.deals[k];
      With(s, d.fromA, NotifyRefreshmentSent(c.Of(d.fromA), Side(s, d.fromA), attempted, d.amount, now, interval, NoError).0)
        .(deals := s.deals[k := d.(booked := true)])
    case Local(onA, next) => With(s, onA, next)
  }

  /** The calls that book nothing leave the net alone: reserving, cleaning up, failed or refused settlements. */
  lemma LocalCalls(c: Config, p: Peer, price: nat, t: Clock, now: int, attempted: int, interval: int)
    ensures SameNet(p, Settle(c, p, t).peer)
    ensures SameNet(p, PrepareCredit(c, p, price, t).s.peer)
    ensures SameNet(p, CleanupCredit(p, price)) && SameNet(p, PrepareDebit(p, price)) && SameNet(p, CleanupDebit(p, price).0)
    ensures SameNet(p, NotifyPaymentSent(p, price, true, now))
    ensures SameNet(p, NotifyPaymentThreshold(c, p, price)) && SameNet(p, Disconnect(p))
    ensures
      var r := NotifyRefreshmentSent(c, p, attempted, price, now, interval, NoError);
      r.1 == Block ==> SameNet(p, r.0)
  {
    SettleSameNet(c, p, t);
  }

  lemma SettleSameNet(c: Config, p: Peer, t: Clock)
    ensures SameNet(p, Settle(c, p, t).peer)
  {
  }

  lemma CreditNet(c: Config, p: Peer, price: nat, originated: bool, t: Clock)
    ensures Net(ApplyCredit(c, p, price, originated, t).peer) == Net(p) - price
  {
    SettleSameNet(c, Credited(p, price, originated), t);
  }

  lemma DebitNet(c: Config, p: Peer, price: nat, now: int)
    ensures Net(ApplyDebit(c, p, price, now).0) == Net(p) + price
  {
  }

  lemma {:induction false} InFlightUpdate(deals: seq<Deal>, k: nat, d: Deal)
    requires k < |deals|
    ensures InFlight(deals[k := d]) == InFlight(deals) - Pending(deals[k]) + Pending(d)
  {
    if k == 0 {
      assert deals[0 := d][1..] == deals[1..];
    } else {
      InFlightUpdate(deals[1..], k - 1, d);
      assert deals[k := d][1..] == deals[1..][k - 1 := d];
    }
  }

  lemma {:induction false} InFlightAppend(deals: seq<Deal>, d: Deal)
    ensures InFlight(deals + [d]) == InFlight(deals) + Pending(d)
  {
    if deals == [] {
      assert deals + [d] == [d];
    } else {
      InFlightAppend(deals[1..], d);
      assert (deals + [d])[1..] == deals[1..] + [d];
    }
  }

  /** The two nets cancel up to what is in flight. */
  predicate Mirrored(s: Pair) {
    Net(s.a) + Net(s.b) == InFlight(s.deals)
  }

  lemma StepMirrors(c: Settings, s: Pair, ev: Event)
    requires Mirrored(s) && Possible(c, s, ev)
    ensures Mirrored(Step(c, s, ev))
  {
    match ev {
      case Open(d) => InFlightAppend(s.deals, d);
      case Debit(k, now) =>
        var d := s.deals[k];
        DebitNet(c.Of(d.byA), Side(s, d.byA), d.price, now);
        InFlightUpdate(s.deals, k, d.(debited := true));
      case Credit(k, originated, t) =>
        var d := s.deals[k];
        CreditNet(c.Of(!d.byA), Side(s, !d.byA), d.price, originated, t);
        InFlightUpdate(s.deals, k, d.(credited := true));
      case ReceivePayment(k) =>
        var d := s.deals[k];
        PaymentReceivedBooks(c.Of(!d.fromA), Side(s, !d.fromA), d.amount);
        InFlightUpdate(s.deals, k, d.(received := true));
      case ReceiveRefreshment(k, now) =>
        var d := s.deals[k];
        RepaidOnlyGrant(c.Of(!d.fromA), Side(s, !d.fromA), d.amount);
        InFlightUpdate(s.deals, k, d.(received := true));
      case BookPayment(k, now) => InFlightUpdate(s.deals, k, s.deals[k].(booked := true));
      case BookRefreshment(k, attempted, now, interval) => InFlightUpdate(s.deals, k, s.deals[k].(booked := true));
      case Local(onA, next) =>
    }
  }

  ghost predicate PossibleRun(c: Settings, s: Pair, evs: seq<Event>)
    decreases |evs|
  {
    evs == [] || (Possible(c, s, evs[0]) && PossibleRun(c, Step(c, s, evs[0]), evs[1..]))
  }

  ghost function Run(c: Settings, s: Pair, evs: seq<Event>): Pair
    requires PossibleRun(c, s, evs)
    decreases |evs|
  {
    if evs == [] then s else Run(c, Step(c, s, evs[0]), evs[1..])
  }

  lemma {:induction false} RunMirrors(c: Settings, s: Pair, evs: seq<Event>)
    requires Mirrored(s) && PossibleRun(c, s, evs)
    ensures Mirrored(Run(c, s, evs))
    decreases |evs|
  {
    if evs != [] {
      StepMirrors(c, s, evs[0]);
      RunMirrors(c, Step(c, s, evs[0]), evs[1..]);
    }
  }

  lemma {:induction false} NothingInFlight(deals: seq<Deal>)
    requires forall k :: 0 <= k < |deals| ==> Complete(deals[k])
    ensures InFlight(deals) == 0
  {
    if deals != [] {
      NothingInFlight(deals[1..]);
    }
  }

  /**
   Conservation: in whatever order the two sides book their exchanges, the nets add up to what is
   in flight; once every exchange is booked on both sides or on none, each ledger is the other's negative.
   */
  lemma LedgersMirror(c: Settings, a: Peer, b: Peer, evs: seq<Event>)
    requires Net(a) == 0 && Net(b) == 0 && PossibleRun(c, Pair(a, b, []), evs)
    ensures
      var end := Run(c, Pair(a, b, []), evs);
      && Net(end.a) + Net(end.b) == InFlight(end.deals)
      && ((forall k :: 0 <= k < |end.deals| ==> Complete(end.deals[k])) ==> Net(end.a) == -Net(end.b))
  {
    RunMirrors(c, Pair(a, b, []), evs);
    var end := Run(c, Pair(a, b, []), evs);
    if forall k :: 0 <= k < |end.deals| ==> Complete(end.deals[k]) {
      NothingInFlight(end.deals);
    }
  }
}
