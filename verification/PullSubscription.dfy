/** Subscriptions to the pull index of one bin (subscription_pull.go), under every interleaving with the store. */
module PullSubscription {
  import opened Wrappers

  import opened StoreIndexes
  import opened StoreOps
  import opened StoreRuns
  import opened StoreGrowth

  // ----- one subscription -----

  /** The arguments of SubscribePull; 0 stands for "from the start" and "no limit". */
  datatype Query = Query(bin: nat, since: nat, until: nat)

  /**
   An iteration under way: the ids of its snapshot still to come, and how many it has delivered.
   horizon is the last id given out when the snapshot was taken.
   */
  datatype Iter = Iter(todo: set<nat>, count: nat, horizon: nat)

  datatype Ending = Running | Reached | Aborted

  /** The goroutine's variables, and the ids it has sent. */
  datatype Sub = Sub(sent: seq<nat>, sinceItem: Option<nat>, first: bool, iter: Option<Iter>, ending: Ending)

  function Subscribe(q: Query): Sub {
    Sub([], if q.since > 0 then Some(q.since) else None, true, None, Running)
  }

  function IdsIn(ix: Indexes, bin: nat): set<nat> {
    set k | k in ix.side.pull && k.po == bin :: k.binID
  }

  /** The ids an iteration from the start item visits; a start item that was sent already is skipped. */
  function Visits(sub: Sub, ids: set<nat>): set<nat> {
    set id | id in ids && (sub.sinceItem.Some? ==> id > sub.sinceItem.value || (sub.first && id == sub.sinceItem.value))
  }

  function Begin(q: Query, sub: Sub, ix: Indexes): Sub {
    sub.(iter := Some(Iter(Visits(sub, IdsIn(ix, q.bin)), 0, Counter(ix, q.bin))))
  }

  /** The callback of Iterate on the next item. */
  function Deliver(q: Query, sub: Sub, id: nat): Sub
    requires sub.iter.Some?
  {
    if q.until > 0 && id > q.until then
      sub.(iter := None, ending := Reached)
    else if q.until > 0 && id == q.until then
      sub.(sent := sub.sent + [id], iter := None, ending := Reached)
    else
      var it := sub.iter.value;
      sub.(sent := sub.sent + [id], sinceItem := Some(id), iter := Some(it.(todo := it.todo - {id}, count := it.count + 1)))
  }

  function End(sub: Sub): Sub
    requires sub.iter.Some?
  {
    sub.(iter := None, first := sub.first && sub.iter.value.count == 0)
  }

  datatype Move =
    | StoreMove(ev: Event)
    | BeginMove
    | DeliverMove(id: nat)
    | EndMove
    | CutMove
    | StopMove

  datatype World = World(store: Sys, sub: Sub)

  predicate Least(id: nat, ids: set<nat>) {
    id in ids && forall x :: x in ids ==> id <= x
  }

  /**
   Which moves are possible. An iteration visits its snapshot in ascending order, and the callback
   may cut it short without an error when it finds the subscription stopped or the store closed;
   the goroutine then ends, or begins another iteration if its trigger is ready too.
   */
  predicate Possible(w: World, m: Move) {
    match m
    case StoreMove(_) => true
    case BeginMove => w.sub.ending.Running? && w.sub.iter.None?
    case DeliverMove(id) => w.sub.ending.Running? && w.sub.iter.Some? && Least(id, w.sub.iter.value.todo)
    case EndMove => w.sub.ending.Running? && w.sub.iter.Some? && w.sub.iter.value.todo == {}
    case CutMove => w.sub.ending.Running? && w.sub.iter.Some?
    case StopMove => w.sub.ending.Running?
  }

  function Do(c: Config, q: Query, w: World, m: Move): World
    requires Possible(w, m)
  {
    match m
    case StoreMove(ev) => w.(store := Step(c, w.store, ev))
    case BeginMove => w.(sub := Begin(q, w.sub, w.store.ix))
    case DeliverMove(id) => w.(sub := Deliver(q, w.sub, id))
    case EndMove => w.(sub := End(w.sub))
    case CutMove => w.(sub := End(w.sub))
    case StopMove => w.(sub := w.sub.(iter := None, ending := Aborted))
  }

  // ----- what holds at every moment -----

  predicate Ascending(s: seq<nat>) {
    forall i, j :: 0 <= i < j < |s| ==> s[i] < s[j]
  }

  predicate InRange(q: Query, id: nat) {
    q.since <= id && (q.until > 0 ==> id <= q.until)
  }

  /** How far the subscription is: everything in range up to here has been delivered. */
  function Position(q: Query, sub: Sub): int {
    if sub.sent == [] then q.since - 1 else sub.sent[|sub.sent| - 1]
  }

  predicate CursorOk(q: Query, sub: Sub) {
    && Ascending(sub.sent)
    && (forall i :: 0 <= i < |sub.sent| ==> InRange(q, sub.sent[i]))
    && (sub.ending.Running? ==>
          && (sub.sent == [] ==> sub.first && sub.sinceItem == Subscribe(q).sinceItem)
          && (sub.sent == [] && sub.iter.Some? ==> sub.iter.value.count == 0)
          && (sub.sent != [] ==> sub.sinceItem == Some(sub.sent[|sub.sent| - 1]))
          && (sub.sent != [] && sub.first ==> sub.iter.Some? && sub.iter.value.count > 0))
  }

  /** No item still present was passed over. */
  ghost predicate NothingMissed(q: Query, sub: Sub, ids: set<nat>) {
    && (forall id :: id in ids && q.since <= id <= Position(q, sub) ==> id in sub.sent)
    && (sub.ending.Reached? ==> forall id :: id in ids && InRange(q, id) ==> id in sub.sent)
  }

  /** The rest of an iteration lies ahead, and covers all that is present up to its horizon. */
  ghost predicate IterOk(q: Query, sub: Sub, it: Iter, ids: set<nat>, counter: nat) {
    && it.horizon <= counter
    && (forall id :: id in it.todo ==> Position(q, sub) < id <= it.horizon)
    && (forall id :: id in ids && Position(q, sub) < id ==> id in it.todo || id > it.horizon)
  }

  ghost predicate SubOk(q: Query, sub: Sub, ids: set<nat>, counter: nat) {
    && (forall id :: id in ids ==> id <= counter)
    && CursorOk(q, sub)
    && NothingMissed(q, sub, ids)
    && (sub.iter.Some? ==> IterOk(q, sub, sub.iter.value, ids, counter))
    && (sub.sent != [] ==> Position(q, sub) <= counter)
    && (sub.ending.Reached? ==> q.until > 0 && q.until <= counter)
  }

  /** The index changes under the subscription: entries go, and new ones come above the counter. */
  lemma ChangeKeeps(q: Query, sub: Sub, ids: set<nat>, counter: nat, ids': set<nat>, counter': nat)
    requires SubOk(q, sub, ids, counter) && counter <= counter'
    requires forall id :: id in ids' ==> id in ids || counter < id <= counter'
    ensures SubOk(q, sub, ids', counter')
  {
  }

  lemma BeginKeeps(q: Query, sub: Sub, ix: Indexes)
    requires SubOk(q, sub, IdsIn(ix, q.bin), Counter(ix, q.bin)) && sub.ending.Running? && sub.iter.None?
    ensures SubOk(q, Begin(q, sub, ix), IdsIn(ix, q.bin), Counter(ix, q.bin))
  {
  }

  lemma DeliverKeeps(q: Query, sub: Sub, id: nat, ids: set<nat>, counter: nat)
    requires SubOk(q, sub, ids, counter) && sub.ending.Running? && sub.iter.Some? && Least(id, sub.iter.value.todo)
    ensures SubOk(q, Deliver(q, sub, id), ids, counter)
    ensures Position(q, sub) <= Position(q, Deliver(q, sub, id))
  {
    var after := Deliver(q, sub, id);
    if after.sent != sub.sent {
      assert after.sent == sub.sent + [id];
      forall x | x in sub.sent ensures x in after.sent {
      }
      assert after.sent[|sub.sent|] == id;
    }
  }

  lemma EndKeeps(q: Query, sub: Sub, ids: set<nat>, counter: nat)
    requires SubOk(q, sub, ids, counter) && sub.ending.Running? && sub.iter.Some?
    ensures SubOk(q, End(sub), ids, counter)
  {
  }

  ghost predicate WorldOk(q: Query, w: World) {
    SubOk(q, w.sub, IdsIn(w.store.ix, q.bin), Counter(w.store.ix, q.bin))
  }

  lemma GrowsIds(c: Config, x: Indexes, y: Indexes, bin: nat)
    requires Grows(c, x, y)
    ensures Counter(x, bin) <= Counter(y, bin)
    ensures forall id :: id in IdsIn(y, bin) ==> id in IdsIn(x, bin) || Counter(x, bin) < id <= Counter(y, bin)
  {
    forall id | id in IdsIn(y, bin) ensures id in IdsIn(x, bin) || Counter(x, bin) < id <= Counter(y, bin) {
      assert PullKey(bin, id) in y.side.pull;
      if PullKey(bin, id) in x.side.pull {
        assert id in IdsIn(x, bin);
      }
    }
  }

  lemma MoveKeeps(c: Config, q: Query, w: World, m: Move)
    requires WorldOk(q, w) && Possible(w, m)
    ensures WorldOk(q, Do(c, q, w, m))
    ensures w.sub.sent <= Do(c, q, w, m).sub.sent
  {
    var ix := w.store.ix;
    match m {
      case StoreMove(ev) =>
        var ix' := Step(c, w.store, ev).ix;
        StepGrows(c, w.store, ev);
        GrowsIds(c, ix, ix', q.bin);
        ChangeKeeps(q, w.sub, IdsIn(ix, q.bin), Counter(ix, q.bin), IdsIn(ix', q.bin), Counter(ix', q.bin));
      case BeginMove => BeginKeeps(q, w.sub, ix);
      case DeliverMove(id) => DeliverKeeps(q, w.sub, id, IdsIn(ix, q.bin), Counter(ix, q.bin));
      case EndMove => EndKeeps(q, w.sub, IdsIn(ix, q.bin), Counter(ix, q.bin));
      case CutMove => EndKeeps(q, w.sub, IdsIn(ix, q.bin), Counter(ix, q.bin));
      case StopMove =>
    }
  }

  lemma SubscribeOk(c: Config, q: Query, s: Sys)
    requires CountersOk(c, s.ix)
    ensures WorldOk(q, World(s, Subscribe(q)))
  {
    forall id | id in IdsIn(s.ix, q.bin) ensures id <= Counter(s.ix, q.bin) {
      assert PullKey(q.bin, id) in s.ix.side.pull;
    }
  }

  ghost predicate PossibleRun(c: Config, q: Query, w: World, ms: seq<Move>)
    decreases |ms|
  {
    ms == [] || (Possible(w, ms[0]) && PossibleRun(c, q, Do(c, q, w, ms[0]), ms[1..]))
  }

  ghost function After(c: Config, q: Query, w: World, ms: seq<Move>): World
    requires PossibleRun(c, q, w, ms)
    decreases |ms|
  {
    if ms == [] then w else After(c, q, Do(c, q, w, ms[0]), ms[1..])
  }

  lemma {:induction false} RunsKeep(c: Config, q: Query, w: World, ms: seq<Move>)
    requires WorldOk(q, w) && PossibleRun(c, q, w, ms)
    ensures WorldOk(q, After(c, q, w, ms))
    ensures w.sub.sent <= After(c, q, w, ms).sub.sent
    decreases |ms|
  {
    if ms != [] {
      MoveKeeps(c, q, w, ms[0]);
      RunsKeep(c, q, Do(c, q, w, ms[0]), ms[1..]);
    }
  }

  /** A subscription to a store that started empty, at any point of its life. */
  function Subscribed(c: Config, q: Query, before: seq<Event>): World {
    World(Run(c, START, before), Subscribe(q))
  }

  lemma SubscriptionsKeep(c: Config, q: Query, before: seq<Event>, ms: seq<Move>)
    requires PossibleRun(c, q, Subscribed(c, q, before), ms)
    ensures WorldOk(q, After(c, q, Subscribed(c, q, before), ms))
  {
    AlwaysCounted(c, before);
    SubscribeOk(c, q, Run(c, START, before));
    RunsKeep(c, q, Subscribed(c, q, before), ms);
  }

  /**
   However the store has come about and changes while it runs, a subscription delivers ids of its
   range in strictly ascending order, so none twice, and has delivered every id still present that
   is not ahead of the last one; once it ends because until was reached, it has delivered all of
   its range.
   */
  lemma DeliversInOrderWithoutGaps(c: Config, q: Query, before: seq<Event>, ms: seq<Move>)
    requires PossibleRun(c, q, Subscribed(c, q, before), ms)
    ensures
      var w := After(c, q, Subscribed(c, q, before), ms);
      var present := IdsIn(w.store.ix, q.bin);
      && Ascending(w.sub.sent)
      && (forall i :: 0 <= i < |w.sub.sent| ==> InRange(q, w.sub.sent[i]))
      && (forall id :: id in present && q.since <= id <= Position(q, w.sub) ==> id in w.sub.sent)
      && (w.sub.ending.Reached? ==> forall id :: id in present && InRange(q, id) ==> id in w.sub.sent)
  {
    SubscriptionsKeep(c, q, before, ms);
  }

  /** An iteration that visits all of its snapshot has delivered all that was committed before it began and is still there. */
  lemma IterationsCatchUp(c: Config, q: Query, before: seq<Event>, ms: seq<Move>)
    requires PossibleRun(c, q, Subscribed(c, q, before), ms)
    ensures
      var w := After(c, q, Subscribed(c, q, before), ms);
      Possible(w, EndMove) ==>
        forall id :: id in IdsIn(w.store.ix, q.bin) && q.since <= id <= w.sub.iter.value.horizon ==> id in w.sub.sent
  {
    SubscriptionsKeep(c, q, before, ms);
  }

  // ----- the loop -----

  /**
   A whole pass as the moves of the machine: the callback on each visited id, then the end. The
   callback on the id at position `cut` finds the subscription stopped, if there is such an id.
   */
  function PassFrom(q: Query, sub: Sub, start: Sub, ids: seq<nat>, cut: nat, i: nat, count: nat): Sub
    decreases |ids| - i
  {
    var counted := sub.(iter := Some(Iter({}, count, 0)));
    if i >= |ids| then End(counted)
    else if ids[i] !in Visits(start, {ids[i]}) then PassFrom(q, sub, start, ids, cut, i + 1, count)
    else if i == cut && !(q.until > 0 && ids[i] > q.until) then End(counted)
    else
      var next := Deliver(q, counted, ids[i]);
      if next.ending.Reached? then next else PassFrom(q, next.(iter := None), start, ids, cut, i + 1, count + 1)
  }

  function Pass(q: Query, sub: Sub, ids: seq<nat>, cut: nat): Sub {
    PassFrom(q, sub, sub, ids, cut, 0, 0)
  }

  /** The ids a pass visits from the i-th on. */
  function Ahead(start: Sub, ids: seq<nat>, i: nat): set<nat>
    requires i <= |ids|
  {
    Visits(start, set id | id in ids[i..])
  }

  lemma AheadStep(start: Sub, ids: seq<nat>, i: nat)
    requires Ascending(ids) && i < |ids|
    ensures ids[i] in Visits(start, {ids[i]}) ==>
      Least(ids[i], Ahead(start, ids, i)) && Ahead(start, ids, i) - {ids[i]} == Ahead(start, ids, i + 1)
    ensures ids[i] !in Visits(start, {ids[i]}) ==> Ahead(start, ids, i) == Ahead(start, ids, i + 1)
  {
    assert ids[i..] == [ids[i]] + ids[i + 1..];
    var later := ids[i + 1..];
    forall x | x in later ensures ids[i] < x {
      var j :| 0 <= j < |later| && later[j] == x;
      assert ids[i + 1 + j] == x;
    }
  }

  lemma {:induction false} RestIsARun(c: Config, q: Query, store: Sys, sub: Sub, start: Sub, ids: seq<nat>,
                                      cut: nat, i: nat, it: Iter)
    returns (ms: seq<Move>)
    requires Ascending(ids) && i <= |ids| && sub.ending.Running? && sub.iter == Some(it) && it.todo == Ahead(start, ids, i)
    ensures PossibleRun(c, q, World(store, sub), ms)
    ensures After(c, q, World(store, sub), ms) == World(store, PassFrom(q, sub.(iter := None), start, ids, cut, i, it.count))
    decreases |ids| - i
  {
    if i == |ids| {
      ms := [EndMove];
      assert Ahead(start, ids, i) == {};
      OneMove(c, q, World(store, sub), EndMove);
    } else {
      AheadStep(start, ids, i);
      if ids[i] !in Visits(start, {ids[i]}) {
        ms := RestIsARun(c, q, store, sub, start, ids, cut, i + 1, it);
      } else if i == cut && !(q.until > 0 && ids[i] > q.until) {
        ms := [CutMove];
        OneMove(c, q, World(store, sub), CutMove);
      } else {
        var next := Deliver(q, sub, ids[i]);
        if next.ending.Reached? {
          ms := [DeliverMove(ids[i])];
          OneMove(c, q, World(store, sub), DeliverMove(ids[i]));
        } else {
          var rest := RestIsARun(c, q, store, next, start, ids, cut, i + 1, next.iter.value);
          ms := [DeliverMove(ids[i])] + rest;
          assert ms[1..] == rest;
        }
      }
    }
  }

  lemma OneMove(c: Config, q: Query, w: World, m: Move)
    requires Possible(w, m)
    ensures PossibleRun(c, q, w, [m]) && After(c, q, w, [m]) == Do(c, q, w, m)
  {
    assert [m][1..] == [];
    assert PossibleRun(c, q, Do(c, q, w, m), []);
  }

  /** A pass over the index as it stands is a run of the machine: begin, deliver in order, end or be cut short. */
  lemma PassIsARun(c: Config, q: Query, w: World, ids: seq<nat>, cut: nat) returns (ms: seq<Move>)
    requires w.sub.ending.Running? && w.sub.iter.None? && Ascending(ids)
    requires forall id :: id in ids <==> id in IdsIn(w.store.ix, q.bin)
    ensures PossibleRun(c, q, w, ms)
    ensures After(c, q, w, ms) == World(w.store, Pass(q, w.sub, ids, cut))
  {
    var begun := Begin(q, w.sub, w.store.ix);
    assert Ahead(w.sub, ids, 0) == begun.iter.value.todo;
    var rest := RestIsARun(c, q, w.store, begun, w.sub, ids, cut, 0, begun.iter.value);
    ms := [BeginMove] + rest;
    assert ms[1..] == rest;
    assert begun.(iter := None) == w.sub;
  }

  /** The goroutine of one subscription, iteration by iteration. */
  class Subscription {
    const q: Query
    var sinceItem: Option<nat>
    var first: bool
    var sent: seq<nat>
    var ended: bool

    ghost function State(): Sub
      reads this
    {
      Sub(sent, sinceItem, first, None, if ended then Reached else Running)
    }

    constructor (q: Query)
      ensures this.q == q && State() == Subscribe(q)
    {
      this.q := q;
      sinceItem := if q.since > 0 then Some(q.since) else None;
      first := true;
      sent := [];
      ended := false;
    }

    /** One pass over the pull index, given as the ascending ids of the bin, and where it finds itself stopped. */
    method Iterate(ids: seq<nat>, cut: nat)
      requires Ascending(ids) && !ended
      modifies this
      ensures State() == Pass(q, old(State()), ids, cut)
    {
      ghost var start := State();
      var count := 0;
      var from := sinceItem;
      var skip := !first;
      for i := 0 to |ids|
        invariant !ended && first == start.first
        invariant Pass(q, start, ids, cut) == PassFrom(q, State(), start, ids, cut, i, count)
      {
        if from.Some? && (ids[i] < from.value || (skip && ids[i] == from.value)) {
          continue;
        }
        if q.until > 0 && ids[i] > q.until {
          ended := true;
          return;
        }
        if i == cut {
          break;
        }
        sent := sent + [ids[i]];
        if q.until > 0 && ids[i] == q.until {
          ended := true;
          return;
        }
        count := count + 1;
        sinceItem := Some(ids[i]);
      }
      if count > 0 {
        first := false;
      }
    }
  }
}
