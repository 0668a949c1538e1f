/** The fields that decisions about a peer read, as functions of what has happened to it. */
module AccountingMemory {
  import opened AccountingOps
  import opened AccountingRuns

  /**
   What is known of the past: when the peer last refreshed us, when a refreshment of ours last ended
   and a payment of ours last failed, the threshold the peer announced last, the debits given up
   since it connected, what was prepared or paid while a refreshment of ours was under way, what kind
   of node it is, and whether it is connected.
   */
  datatype Memory = Memory(received: int, refreshed: int, failed: int, announced: nat, abandoned: nat, during: int,
                           fullNode: bool, connected: bool)

  /** The payment an event has started. */
  function PaidBy(s: Sys, next: Sys): nat {
    if s.paying.None? && next.paying.Some? then next.paying.value else 0
  }

  /** A refreshment that ended with an error leaves `during` as it is; one that was reported starts it afresh. */
  function Recall(m: Memory, s: Sys, ev: Event, next: Sys): Memory
    requires Possible(s, ev)
  {
    match ev
    case PrepareCreditEvent(_, _, _) => m.(during := m.during + if next.refreshing.Some? then PaidBy(s, next) else 0)
    case ApplyCreditEvent(_, _) => m.(during := m.during + if next.refreshing.Some? then PaidBy(s, next) else 0)
    case PrepareDebitEvent(price) => m.(during := m.during + if s.refreshing.Some? then price else 0)
    case CleanupDebitEvent(i) => m.(abandoned := m.abandoned + s.debits[i])
    case PaymentSentEvent(failed, now) => if failed then m.(failed := now) else m
    case RefreshmentSentEvent(_, now, _, err) => m.(refreshed := now, during := if err == NoError then 0 else m.during)
    case RefreshmentReceivedEvent(_, now) => m.(received := now)
    case ThresholdEvent(threshold) => m.(announced := threshold)
    case ConnectEvent(fullNode) => m.(fullNode := fullNode, connected := true, abandoned := 0, during := 0)
    case DisconnectEvent => m.(connected := false)
    case _ => m
  }

  ghost function MemoryOf(c: Config, s: Sys, evs: seq<Event>, m: Memory): Memory
    requires PossibleRun(c, s, evs)
    decreases |evs|
  {
    if evs == [] then m
    else MemoryOf(c, Step(c, s, evs[0]), evs[1..], Recall(m, s, evs[0], Step(c, s, evs[0])))
  }

  /** Of a peer not seen before: it is a light node until it connects. */
  function Unknown(c: Config): Memory {
    Memory(0, 0, 0, c.full.threshold, 0, 0, false, false)
  }

  ghost function Past(c: Config, evs: seq<Event>): Memory
    requires PossibleRun(c, Start(c), evs)
  {
    MemoryOf(c, Start(c), evs, Unknown(c))
  }

  predicate Remembers(c: Config, s: Sys, m: Memory) {
    && s.p.refreshReceivedTs == m.received && s.p.refreshTs == m.refreshed && s.p.failedTs == m.failed
    && s.p.threshold == m.announced && s.p.earlyPayment == m.announced * (100 - c.early) / 100
    && s.p.ghostBalance == m.abandoned && s.p.refreshReserved == m.during && s.p.fullNode == m.fullNode
    && s.p.connected == m.connected
    && (s.p.refreshOngoing <==> s.refreshing.Some?) && (s.p.paymentOngoing <==> s.paying.Some?)
  }

  // ----- settle -----

  /** What settle changes. */
  lemma SettleRecalls(c: Config, s: Sys, m: Memory, t: Clock)
    requires Remembers(c, s, m)
    ensures
      var next := Started(s, Settle(c, s.p, t));
      Remembers(c, next, m.(during := m.during + if next.refreshing.Some? then PaidBy(s, next) else 0))
  {
  }

  lemma PrepareCreditRecalls(c: Config, s: Sys, m: Memory, price: nat, originated: bool, t: Clock)
    requires Remembers(c, s, m)
    ensures
      var ev := PrepareCreditEvent(price, originated, t);
      Remembers(c, Step(c, s, ev), Recall(m, s, ev, Step(c, s, ev)))
  {
    SettleRecalls(c, s, m, t);
    PrepareCreditShape(c, s, price, originated, t);
  }

  lemma ApplyCreditRecalls(c: Config, s: Sys, m: Memory, i: nat, t: Clock)
    requires Remembers(c, s, m) && i < |s.credits|
    ensures
      var ev := ApplyCreditEvent(i, t);
      Remembers(c, Step(c, s, ev), Recall(m, s, ev, Step(c, s, ev)))
  {
    BookedRecalls(c, s, m, i);
    SettleRecalls(c, Booked(s, i), m, t);
    ApplyCreditShape(c, s, i, t);
  }

  lemma BookedRecalls(c: Config, s: Sys, m: Memory, i: nat)
    requires Remembers(c, s, m) && i < |s.credits|
    ensures Remembers(c, Booked(s, i), m)
    ensures Booked(s, i).paying == s.paying && Booked(s, i).refreshing == s.refreshing
  {
  }

  lemma ApplyCreditShape(c: Config, s: Sys, i: nat, t: Clock)
    requires i < |s.credits|
    ensures Step(c, s, ApplyCreditEvent(i, t)) == Booked(s, i) ||
            Step(c, s, ApplyCreditEvent(i, t)) == Started(Booked(s, i), Settle(c, Booked(s, i).p, t))
  {
  }

  lemma RefreshmentSentRecalls(c: Config, s: Sys, m: Memory, amount: nat, now: int, interval: int, err: RefreshError)
    requires Remembers(c, s, m) && s.refreshing.Some?
    ensures
      var ev := RefreshmentSentEvent(amount, now, interval, err);
      Remembers(c, Step(c, s, ev), Recall(m, s, ev, Step(c, s, ev)))
  {
  }

  lemma ApplyDebitRecalls(c: Config, s: Sys, m: Memory, i: nat, now: int)
    requires Remembers(c, s, m) && i < |s.debits|
    ensures Remembers(c, Step(c, s, ApplyDebitEvent(i, now)), m)
  {
    DebitBooksPrice(s.p, s.debits[i]);
  }

  // ----- every event -----

  lemma StepRecalls(c: Config, s: Sys, ev: Event, m: Memory)
    requires Remembers(c, s, m) && Possible(s, ev)
    ensures Remembers(c, Step(c, s, ev), Recall(m, s, ev, Step(c, s, ev)))
  {
    match ev {
      case PrepareCreditEvent(price, originated, t) => PrepareCreditRecalls(c, s, m, price, originated, t);
      case ApplyCreditEvent(i, t) => ApplyCreditRecalls(c, s, m, i, t);
      case ApplyDebitEvent(i, now) => ApplyDebitRecalls(c, s, m, i, now);
      case PaymentReceivedEvent(amount) => PaymentReceivedBooks(c, s.p, amount);
      case RefreshmentReceivedEvent(amount, now) => RepaidOnlyGrant(c, s.p, amount);
      case RefreshmentSentEvent(amount, now, interval, err) => RefreshmentSentRecalls(c, s, m, amount, now, interval, err);
      case _ =>
    }
  }

  lemma {:induction false} RunRecalls(c: Config, s: Sys, evs: seq<Event>, m: Memory)
    requires Remembers(c, s, m) && PossibleRun(c, s, evs)
    ensures Remembers(c, Run(c, s, evs), MemoryOf(c, s, evs, m))
    decreases |evs|
  {
    if evs != [] {
      StepRecalls(c, s, evs[0], m);
      RunRecalls(c, Step(c, s, evs[0]), evs[1..], Recall(m, s, evs[0], Step(c, s, evs[0])));
    }
  }

  /** In every run the account remembers exactly what has happened. */
  lemma PeerRemembers(c: Config, evs: seq<Event>)
    requires PossibleRun(c, Start(c), evs)
    ensures Remembers(c, Run(c, Start(c), evs), Past(c, evs))
  {
    RunRecalls(c, Start(c), evs, Unknown(c));
  }
}
