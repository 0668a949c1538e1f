/** From a put to its delivery: a running subscription gets every chunk that is put and stays. */
module PullDelivery {
  import opened StoreIndexes
  import opened StoreOps
  import opened StorePuts
  import opened StoreRuns
  import opened StoreGrowth
  import opened StorePlaces
  import opened PullSubscription

  // ----- the entry of one chunk -----

  /** As long as the chunk is stored under the id, the pull index has its address there. */
  predicate EntryKept(c: Config, ix: Indexes, a: Address, id: nat) {
    && id <= Counter(ix, c.po(a))
    && (a in ix.data && ix.data[a].binID == id ==>
          PullKey(c.po(a), id) in ix.side.pull && ix.side.pull[PullKey(c.po(a), id)] == a)
  }

  /** A chunk that returns does so under another id, so its entry can only go with it. */
  lemma StepKeepsEntry(c: Config, s: Sys, ev: Event, a: Address, id: nat)
    requires SysOk(s) && Admissible(s, ev) && Tidy(c, s.ix) && EntryKept(c, s.ix, a, id)
    ensures EntryKept(c, Step(c, s, ev).ix, a, id)
  {
    var after := Step(c, s, ev).ix;
    StepGrowing(c, s, ev);
    assert Counter(s.ix, c.po(a)) <= Counter(after, c.po(a));
    assert PullKeptAt(c, s.ix, after, a);
  }

  // ----- moves -----

  ghost predicate AdmissibleMoves(c: Config, q: Query, w: World, ms: seq<Move>)
    requires PossibleRun(c, q, w, ms)
    decreases |ms|
  {
    || ms == []
    || ((ms[0].StoreMove? ==> Admissible(w.store, ms[0].ev)) && AdmissibleMoves(c, q, Do(c, q, w, ms[0]), ms[1..]))
  }

  /** What holds of the store while the chunk is watched. */
  ghost predicate Watched(c: Config, w: World, a: Address, id: nat) {
    SysOk(w.store) && Tidy(c, w.store.ix) && EntryKept(c, w.store.ix, a, id)
  }

  /** An iteration under way began when the id had been given out. */
  predicate Covers(w: World, id: nat) {
    w.sub.iter.Some? ==> id <= w.sub.iter.value.horizon
  }

  lemma MoveKeepsWatch(c: Config, q: Query, w: World, m: Move, a: Address, id: nat)
    requires Possible(w, m) && (m.StoreMove? ==> Admissible(w.store, m.ev))
    requires Watched(c, w, a, id) && c.po(a) == q.bin
    ensures Watched(c, Do(c, q, w, m), a, id)
    ensures Covers(w, id) || m.BeginMove? ==> Covers(Do(c, q, w, m), id)
  {
    if m.StoreMove? {
      StepOk(c, w.store, m.ev);
      StepGrowing(c, w.store, m.ev);
      StepKeepsEntry(c, w.store, m.ev, a, id);
    }
  }

  lemma {:induction false} MovesKeepWatch(c: Config, q: Query, w: World, ms: seq<Move>, a: Address, id: nat)
    requires PossibleRun(c, q, w, ms) && AdmissibleMoves(c, q, w, ms)
    requires Watched(c, w, a, id) && c.po(a) == q.bin
    ensures Watched(c, After(c, q, w, ms), a, id)
    ensures Covers(w, id) ==> Covers(After(c, q, w, ms), id)
    decreases |ms|
  {
    if ms != [] {
      MoveKeepsWatch(c, q, w, ms[0], a, id);
      MovesKeepWatch(c, q, Do(c, q, w, ms[0]), ms[1..], a, id);
    }
  }

  lemma {:induction false} MovesKeepStore(c: Config, q: Query, w: World, ms: seq<Move>)
    requires PossibleRun(c, q, w, ms) && AdmissibleMoves(c, q, w, ms) && SysOk(w.store) && Tidy(c, w.store.ix)
    ensures SysOk(After(c, q, w, ms).store) && Tidy(c, After(c, q, w, ms).store.ix)
    decreases |ms|
  {
    if ms != [] {
      if ms[0].StoreMove? {
        StepOk(c, w.store, ms[0].ev);
        StepGrowing(c, w.store, ms[0].ev);
      }
      MovesKeepStore(c, q, Do(c, q, w, ms[0]), ms[1..]);
    }
  }

  /** At the end of an iteration everything up to its horizon that is still there has been sent. */
  lemma CaughtUp(q: Query, w: World, id: nat)
    requires WorldOk(q, w) && Possible(w, EndMove) && Covers(w, id)
    requires PullKey(q.bin, id) in w.store.ix.side.pull && q.since <= id
    ensures id in w.sub.sent
  {
    assert id in IdsIn(w.store.ix, q.bin);
  }

  // ----- from the put to the delivery -----

  /** A world some subscription gets into, with a store that started empty. */
  ghost predicate Reachable(c: Config, q: Query, before: seq<Event>, ms: seq<Move>, w: World) {
    && AdmissibleRun(c, START, before)
    && PossibleRun(c, q, Subscribed(c, q, before), ms) && AdmissibleMoves(c, q, Subscribed(c, q, before), ms)
    && w == After(c, q, Subscribed(c, q, before), ms)
  }

  lemma ReachedOk(c: Config, q: Query, before: seq<Event>, ms: seq<Move>, w: World)
    requires Reachable(c, q, before, ms, w)
    ensures WorldOk(q, w) && SysOk(w.store) && Tidy(c, w.store.ix)
  {
    AlwaysTidy(c, before);
    SubscriptionsKeep(c, q, before, ms);
    MovesKeepStore(c, q, Subscribed(c, q, before), ms);
  }

  lemma PutIsWatched(c: Config, q: Query, w: World, kind: PutKind, chs: seq<Chunk>, now: nat -> Times, j: nat)
    requires SysOk(w.store) && Tidy(c, w.store.ix) && Commits(c, kind, w.store.ix, chs, now) && Pulled(kind)
    requires j < |chs| && StoredBy(w.store.ix, chs, j)
    ensures
      var put := Do(c, q, w, StoreMove(PutEvent(kind, chs, now)));
      && chs[j].addr in put.store.ix.data
      && Watched(c, put, chs[j].addr, put.store.ix.data[chs[j].addr].binID)
  {
    var put := Do(c, q, w, StoreMove(PutEvent(kind, chs, now)));
    PutPlaces(c, kind, w.store.ix, chs, now);
    StepOk(c, w.store, PutEvent(kind, chs, now));
    assert PlaceOf(c, kind, w.store.ix, put.store.ix, chs, j, |chs|);
  }

  /** One world leads to the other. */
  ghost predicate Continues(c: Config, q: Query, w: World, ms: seq<Move>, end: World) {
    PossibleRun(c, q, w, ms) && AdmissibleMoves(c, q, w, ms) && end == After(c, q, w, ms)
  }

  predicate StoredUnder(ix: Indexes, a: Address, id: nat) {
    a in ix.data && ix.data[a].binID == id
  }

  /** The id has been sent, and it is the address of the chunk that the subscriber finds under it. */
  predicate Delivered(q: Query, w: World, a: Address, id: nat) {
    && id in w.sub.sent
    && PullKey(q.bin, id) in w.store.ix.side.pull && w.store.ix.side.pull[PullKey(q.bin, id)] == a
  }

  lemma WatchedIsSent(c: Config, q: Query, put: World, a: Address, id: nat, first: seq<Move>, begun: World,
                      rest: seq<Move>, end: World)
    requires Watched(c, put, a, id) && WorldOk(q, put) && c.po(a) == q.bin && Continues(c, q, put, first, begun)
    requires Possible(begun, BeginMove) && Continues(c, q, Do(c, q, begun, BeginMove), rest, end)
    ensures Possible(end, EndMove) && q.since <= id && StoredUnder(end.store.ix, a, id) ==> Delivered(q, end, a, id)
  {
    var began := Do(c, q, begun, BeginMove);
    MovesKeepWatch(c, q, put, first, a, id);
    MoveKeepsWatch(c, q, begun, BeginMove, a, id);
    MovesKeepWatch(c, q, began, rest, a, id);
    RunsKeep(c, q, put, first);
    MoveKeeps(c, q, begun, BeginMove);
    RunsKeep(c, q, began, rest);
    if Possible(end, EndMove) && q.since <= id && StoredUnder(end.store.ix, a, id) {
      CaughtUp(q, end, id);
    }
  }

  /**
   A chunk is put while a subscription to its bin is running. Whatever happens in between, an iteration
   that begins after the put and visits all of its snapshot finds the chunk delivered, if its id is not
   before the start of the range and it is still stored under that id.
   */
  lemma PutIsDelivered(c: Config, q: Query, before: seq<Event>, ms: seq<Move>, w: World, kind: PutKind, chs: seq<Chunk>,
                       now: nat -> Times, j: nat, put: World, id: nat, first: seq<Move>, begun: World, rest: seq<Move>,
                       end: World)
    requires Reachable(c, q, before, ms, w) && Commits(c, kind, w.store.ix, chs, now) && Pulled(kind)
    requires j < |chs| && StoredBy(w.store.ix, chs, j) && c.po(chs[j].addr) == q.bin
    requires put == Do(c, q, w, StoreMove(PutEvent(kind, chs, now))) && StoredUnder(put.store.ix, chs[j].addr, id)
    requires Continues(c, q, put, first, begun) && Possible(begun, BeginMove)
    requires Continues(c, q, Do(c, q, begun, BeginMove), rest, end)
    ensures Possible(end, EndMove) && q.since <= id && StoredUnder(end.store.ix, chs[j].addr, id) ==>
      Delivered(q, end, chs[j].addr, id)
  {
    ReachedOk(c, q, before, ms, w);
    PutIsWatched(c, q, w, kind, chs, now, j);
    MoveKeeps(c, q, w, StoreMove(PutEvent(kind, chs, now)));
    WatchedIsSent(c, q, put, chs[j].addr, id, first, begun, rest, end);
  }
}
