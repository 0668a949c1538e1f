/** Runs from the empty store that reach the states in which a guarantee ends. */
module StoreWitnesses {
  import opened Wrappers

  import opened StoreIndexes
  import opened StoreOps
  import opened StoreLemmas
  import opened StoreRepeat
  import opened StoreCalls
  import opened StorePuts
  import opened StoreStatus
  import opened StoreGc
  import opened StoreRuns
  import opened StoreLimits

  const A: Address := 1
  const D: Address := 2
  const X: Address := 3
  const Y: Address := 4

  /** All chunks are in one bin, and those of radius 0 within it. */
  const NODE: Config := Config((a: Address) => 0)

  function Stamped(a: Address, index: StampIndex, stampTs: nat): Chunk {
    Chunk(a, Slot(7, index), stampTs, 0, false)
  }

  function At(ts: int): nat -> Times {
    (k: nat) => Times(ts, ts)
  }

  function Clock(ts: int): nat -> int {
    (k: nat) => ts
  }

  // ----- maps of two entries -----

  lemma PutTwo<K, V>(k: K, v: V, l: K, w: V)
    requires k != l
    ensures map[k := v][l := w] == map[k := v, l := w]
  {
  }

  lemma DropFirst<K, V>(k: K, v: V, l: K, w: V)
    requires k != l
    ensures map[k := v, l := w] - {k} == map[l := w]
  {
  }

  lemma DropSecond<K, V>(k: K, v: V, l: K, w: V)
    requires k != l
    ensures map[k := v, l := w] - {l} == map[k := v]
  {
  }

  // ----- calls with one chunk -----

  lemma PutOne(c: Config, kind: PutKind, db: Indexes, ch: Chunk, now: nat -> Times)
    requires ch.addr !in db.data && PutChunk(c, kind, db, db, ch, now(0)).err.None?
    ensures PutCall(c, kind, db, [ch], now) == Commit(db, PutChunk(c, kind, db, db, ch, now(0)))
  {
    var step := PutSteps(c, kind, db, [ch], now);
    assert First([ch], 0);
    assert Next(step, Effect(db, 0, None), 0) == PutChunk(c, kind, db, db, ch, now(0));
  }

  lemma SetJust(c: Config, mode: SetMode, db: Indexes, a: Address, now: nat -> int)
    requires SetOne(c, mode, db, db, a, now(0)).err.None?
    ensures SetCall(c, mode, db, [a], now) == Commit(db, SetOne(c, mode, db, db, a, now(0)))
  {
    var addrs := [a];
    var step := SetSteps(c, mode, db, addrs, now);
    var first := SetOne(c, mode, db, db, a, now(0));
    assert addrs[0] == a && |addrs| == 1;
    assert Next(step, Effect(db, 0, None), 0) == first;
    assert Fold(step, first, 1, 1) == first;
  }

  lemma RunCons(c: Config, s: Sys, ev: Event, rest: seq<Event>)
    ensures Run(c, s, [ev] + rest) == Run(c, Step(c, s, ev), rest)
    ensures AdmissibleRun(c, s, [ev] + rest) <==> Admissible(s, ev) && AdmissibleRun(c, Step(c, s, ev), rest)
  {
    assert ([ev] + rest)[1..] == rest;
  }

  /** A run told state by state. */
  ghost predicate Leads(c: Config, s: Sys, ev: Event, t: Sys) {
    Admissible(s, ev) && Step(c, s, ev) == t
  }

  lemma RunOfFour(c: Config, s: Sys, e0: Event, s1: Sys, e1: Event, s2: Sys, e2: Event, s3: Sys, e3: Event, s4: Sys)
    requires Leads(c, s, e0, s1) && Leads(c, s1, e1, s2) && Leads(c, s2, e2, s3) && Leads(c, s3, e3, s4)
    ensures AdmissibleRun(c, s, [e0, e1, e2, e3]) && Run(c, s, [e0, e1, e2, e3]) == s4
  {
    RunCons(c, s3, e3, []);
    RunCons(c, s2, e2, [e3] + []);
    RunCons(c, s1, e1, [e2] + ([e3] + []));
    RunCons(c, s, e0, [e1] + ([e2] + ([e3] + [])));
    assert [e0] + ([e1] + ([e2] + ([e3] + []))) == [e0, e1, e2, e3];
  }

  lemma RunOfThree(c: Config, s: Sys, e0: Event, s1: Sys, e1: Event, s2: Sys, e2: Event, s3: Sys)
    requires Leads(c, s, e0, s1) && Leads(c, s1, e1, s2) && Leads(c, s2, e2, s3)
    ensures AdmissibleRun(c, s, [e0, e1, e2]) && Run(c, s, [e0, e1, e2]) == s3
  {
    RunCons(c, s2, e2, []);
    RunCons(c, s1, e1, [e2] + []);
    RunCons(c, s, e0, [e1] + ([e2] + []));
    assert [e0] + ([e1] + ([e2] + [])) == [e0, e1, e2];
  }

  // ----- a chunk in the cache -----

  /** Bin ids given out so far, and nothing stored. */
  function Empty(id: nat): Indexes {
    EMPTY.(side := EMPTY.side.(binIDs := if id == 0 then map[] else map[0 := id]))
  }

  /** A in the gc index alone, stored under the bin id and time. */
  function OnlyA(id: nat, ts: int): Indexes {
    Indexes(map[A := DataEntry(ts, id, Slot(7, 1), 1)], map[A := ts], {}, map[GcKey(ts, id, A) := Slot(7, 1)], map[],
            Side(map[], {ChunkKey(7, 0, A)}, map[Slot(7, 1) := Occupant(A, 1)], map[], map[0 := id]), 1)
  }

  const CACHE: PutKind := Request(false, true)

  lemma CachesA(id: nat, ts: int)
    ensures PutCall(NODE, CACHE, Empty(id), [Stamped(A, 1, 1)], At(ts)) == OnlyA(id + 1, ts)
  {
    var db := Empty(id);
    var e := PutChunk(NODE, CACHE, db, db, Stamped(A, 1, 1), At(ts)(0));
    assert e.err.None? && e.gcChange == 1;
    PutOne(NODE, CACHE, db, Stamped(A, 1, 1), At(ts));
    assert e.batch.side == OnlyA(id + 1, ts).side;
    assert e.batch.data == OnlyA(id + 1, ts).data && e.batch.gc == OnlyA(id + 1, ts).gc;
  }

  lemma StartCachesA()
    ensures Leads(NODE, START, PutEvent(CACHE, [Stamped(A, 1, 1)], At(1)), Sys(OnlyA(1, 1), Idle))
  {
    assert EMPTY == Empty(0);
    CachesA(0, 1);
  }

  lemma RemovesA(id: nat, ts: int)
    requires id > 0
    ensures SetCall(NODE, ModeRemove, OnlyA(id, ts), [A], Clock(0)) == Empty(id)
  {
    var db := OnlyA(id, ts);
    var e := SetRemove(NODE, db, db, A);
    SetJust(NODE, ModeRemove, db, A, Clock(0));
    assert GcKey(ts, id, A) in db.gc;
    assert e.batch.data == map[] && e.batch.access == map[] && e.batch.gc == map[] && e.batch.push == {};
    assert e.batch.side.pull == map[] && e.batch.side.chunks == {} && e.batch.side.slots == map[];
  }

  const PUT_A: Event := PutEvent(CACHE, [Stamped(A, 1, 1)], At(1))
  const REMOVE_A: Event := SetEvent(ModeRemove, [A], Clock(0))
  const PUT_A_AGAIN: Event := PutEvent(CACHE, [Stamped(A, 1, 1)], At(3))

  lemma ComesAndGoes()
    ensures AdmissibleRun(NODE, START, [PUT_A, REMOVE_A, PUT_A_AGAIN])
    ensures Run(NODE, START, [PUT_A, REMOVE_A, PUT_A_AGAIN]) == Sys(OnlyA(2, 3), Idle)
  {
    var s1, s2, s := Sys(OnlyA(1, 1), Idle), Sys(Empty(1), Idle), Sys(OnlyA(2, 3), Idle);
    StartCachesA();
    RemovesA(1, 1);
    CachesA(1, 3);
    RunOfThree(NODE, START, PUT_A, s1, REMOVE_A, s2, PUT_A_AGAIN, s);
  }

  /** What a read of A returns after the first put of that run. */
  const OLD_READ: Read := Read(A, OnlyA(1, 1).data[A].binID, OnlyA(1, 1).data[A].slot)

  lemma OldReadBreaks()
    requires Partition(OnlyA(2, 3))
    ensures !MovesItsEntry(OnlyA(2, 3), OLD_READ, 5) && !Partition(UpdateGC(OnlyA(2, 3), OLD_READ, 5))
  {
    UpdateGCKeepsIff(OnlyA(2, 3), OLD_READ, 5);
  }

  /**
   A read of A that is overtaken by its removal and its return: updateGC then moves nothing but the
   access time, and the gc entry can no longer be found.
   */
  lemma StaleReadBreaksPartition()
    ensures AdmissibleRun(NODE, START, [PUT_A, REMOVE_A, PUT_A_AGAIN])
    ensures Step(NODE, START, PUT_A).ix == OnlyA(1, 1)
    ensures Run(NODE, START, [PUT_A, REMOVE_A, PUT_A_AGAIN]).ix == OnlyA(2, 3)
    ensures !MovesItsEntry(OnlyA(2, 3), OLD_READ, 5) && !Partition(UpdateGC(OnlyA(2, 3), OLD_READ, 5))
  {
    StartCachesA();
    ComesAndGoes();
    StartOk();
    EveryRunKeeps(NODE, START, [PUT_A, REMOVE_A, PUT_A_AGAIN]);
    OldReadBreaks();
  }

  // ----- a candidate replaced -----

  function OnlyX(id: nat, ts: int): Indexes {
    Indexes(map[X := DataEntry(ts, id, Slot(7, 1), 2)], map[X := ts], {}, map[GcKey(ts, id, X) := Slot(7, 1)], map[],
            Side(map[], {ChunkKey(7, 0, X)}, map[Slot(7, 1) := Occupant(X, 2)], map[], map[0 := id]), 1)
  }

  lemma ReplacesA()
    ensures PutCall(NODE, CACHE, OnlyA(1, 1), [Stamped(X, 1, 2)], At(4)) == OnlyX(2, 4)
  {
    var c, db, ch := NODE, OnlyA(1, 1), Stamped(X, 1, 2);
    var removed := SetRemove(c, db, db, A).batch;
    assert GcKey(1, 1, A) in db.gc && SlotOf(db, ch) == Replace(A);
    assert removed == Empty(1).(gcSize := 1) by {
      assert removed.data == map[] && removed.access == map[] && removed.gc == map[] && removed.push == {};
      assert removed.side.pull == map[] && removed.side.chunks == {} && removed.side.slots == map[];
    }
    var e := PutChunk(c, CACHE, db, db, ch, At(4)(0));
    assert e.err.None? && e.gcChange == 0;
    PutOne(c, CACHE, db, ch, At(4));
    assert e.batch.side == OnlyX(2, 4).side;
    assert e.batch.data == OnlyX(2, 4).data && e.batch.gc == OnlyX(2, 4).gc;
  }

  lemma OnlyAGathers()
    ensures OldestFirst(OnlyA(1, 1), [Candidate(GcKey(1, 1, A), Slot(7, 1))])
  {
    var cands := [Candidate(GcKey(1, 1, A), Slot(7, 1))];
    forall k | k in OnlyA(1, 1).gc ensures exists i :: 0 <= i < |cands| && cands[i].key == k {
      assert cands[0].key == k;
    }
  }

  lemma PutOverGathered(c: Config, s: Sys, cands: seq<Candidate>)
    requires c == NODE && s == Sys(OnlyA(1, 1), Gathered({}, cands))
    ensures Leads(c, s, PutEvent(CACHE, [Stamped(X, 1, 2)], At(4)), Sys(OnlyX(2, 4), Gathered({X}, cands)))
  {
    ReplacesA();
    assert Addresses([Stamped(X, 1, 2)]) == [X] && ToSet([X]) == {X} && {} + {X} == {X};
  }

  lemma MissingFails(c: Config, db: Indexes, cands: seq<Candidate>, dirty: set<Address>)
    requires |cands| == 1 && cands[0].key.addr !in dirty && cands[0].key.addr !in db.data && db.gcSize > 0
    ensures Collect(c, db, cands, dirty, 0).failed && AfterCollect(db, Collect(c, db, cands, dirty, 0)) == db
  {
  }

  const CAND_A: Candidate := Candidate(GcKey(1, 1, A), Slot(7, 1))
  const PUT_X_OVER: Event := PutEvent(CACHE, [Stamped(X, 1, 2)], At(4))

  lemma ReplacedWhileGathered()
    ensures AdmissibleRun(NODE, START, [PUT_A, RaiseEvent, GatherEvent([CAND_A]), PUT_X_OVER])
    ensures Run(NODE, START, [PUT_A, RaiseEvent, GatherEvent([CAND_A]), PUT_X_OVER]) ==
      Sys(OnlyX(2, 4), Gathered({X}, [CAND_A]))
  {
    var s1, s2, s3 := Sys(OnlyA(1, 1), Idle), Sys(OnlyA(1, 1), Raised({})), Sys(OnlyA(1, 1), Gathered({}, [CAND_A]));
    StartCachesA();
    OnlyAGathers();
    PutOverGathered(NODE, s3, [CAND_A]);
    RunOfFour(NODE, START, PUT_A, s1, RaiseEvent, s2, GatherEvent([CAND_A]), s3, PUT_X_OVER,
              Sys(OnlyX(2, 4), Gathered({X}, [CAND_A])));
  }

  /** A put that takes over the slot of a gathered chunk marks its own address only: the collection fails. */
  lemma ReplacedCandidateFails()
    ensures AdmissibleRun(NODE, START, [PUT_A, RaiseEvent, GatherEvent([CAND_A]), PUT_X_OVER])
    ensures
      var mid := Sys(OnlyX(2, 4), Gathered({X}, [CAND_A]));
      && Run(NODE, START, [PUT_A, RaiseEvent, GatherEvent([CAND_A]), PUT_X_OVER]) == mid
      && Collect(NODE, mid.ix, [CAND_A], {X}, 0).failed
      && Step(NODE, mid, CollectEvent(0)).ix == mid.ix && mid.ix.gcSize > 0
  {
    ReplacedWhileGathered();
    MissingFails(NODE, OnlyX(2, 4), [CAND_A], {X});
  }

  // ----- two slots of one chunk -----

  const RESERVE: PutKind := Request(false, false)

  /** A in the reserve: pinned, pulled, under stamp index 1. */
  const RESERVED_A: Indexes :=
    Indexes(map[A := DataEntry(1, 1, Slot(7, 1), 1)], map[A := 1], {}, map[], map[A := 1],
            Side(map[PullKey(0, 1) := A], {ChunkKey(7, 0, A)}, map[Slot(7, 1) := Occupant(A, 1)], map[], map[0 := 1]), 0)

  /** Unpinned: the gc entry carries no stamp index. */
  const RELEASED_A: Indexes :=
    RESERVED_A.(pin := map[], gc := map[GcKey(1, 1, A) := Slot(7, 0)], gcSize := 1)

  /** Evicted: the slot entry has stayed. */
  const LEFT_SLOT: Indexes :=
    EMPTY.(side := Side(map[], {}, map[Slot(7, 1) := Occupant(A, 1)], map[], map[0 := 1]))

  /** A again, under stamp index 2. */
  const TWO_SLOTS: Indexes :=
    Indexes(map[A := DataEntry(3, 2, Slot(7, 2), 1)], map[A := 3], {}, map[GcKey(3, 2, A) := Slot(7, 2)], map[],
            Side(map[], {ChunkKey(7, 0, A)}, map[Slot(7, 1) := Occupant(A, 1), Slot(7, 2) := Occupant(A, 1)], map[],
                 map[0 := 2]), 1)

  /** And another chunk in the cache. */
  const WITH_D: Indexes :=
    Indexes(map[A := DataEntry(3, 2, Slot(7, 2), 1), D := DataEntry(4, 3, Slot(7, 9), 1)], map[A := 3, D := 4], {},
            map[GcKey(3, 2, A) := Slot(7, 2), GcKey(4, 3, D) := Slot(7, 9)], map[],
            Side(map[], {ChunkKey(7, 0, A), ChunkKey(7, 0, D)},
                 map[Slot(7, 1) := Occupant(A, 1), Slot(7, 2) := Occupant(A, 1), Slot(7, 9) := Occupant(D, 1)], map[],
                 map[0 := 3]), 2)

  const RESERVE_A: Event := PutEvent(RESERVE, [Stamped(A, 1, 1)], At(1))
  const RELEASE_A: Event := SetEvent(ModeUnpin, [A], Clock(2))
  const CAND_RELEASED: Candidate := Candidate(GcKey(1, 1, A), Slot(7, 0))
  const PUT_A_ELSEWHERE: Event := PutEvent(CACHE, [Stamped(A, 2, 1)], At(3))
  const PUT_D: Event := PutEvent(CACHE, [Stamped(D, 9, 1)], At(4))

  lemma ReservesA()
    ensures Leads(NODE, START, RESERVE_A, Sys(RESERVED_A, Idle))
  {
    var e := PutChunk(NODE, RESERVE, EMPTY, EMPTY, Stamped(A, 1, 1), At(1)(0));
    assert e.err.None? && e.gcChange == 0;
    PutOne(NODE, RESERVE, EMPTY, Stamped(A, 1, 1), At(1));
    assert e.batch.side == RESERVED_A.side && e.batch.data == RESERVED_A.data && e.batch.pin == RESERVED_A.pin;
  }

  lemma ReleasesA()
    ensures Leads(NODE, Sys(RESERVED_A, Idle), RELEASE_A, Sys(RELEASED_A, Idle))
  {
    var e := SetUnpin(RESERVED_A, RESERVED_A, A, 2);
    assert e.err.None? && e.gcChange == 1;
    SetJust(NODE, ModeUnpin, RESERVED_A, A, Clock(2));
    assert e.batch.pin == map[] && e.batch.gc == RELEASED_A.gc;
  }

  lemma ReleasedGathers()
    ensures OldestFirst(RELEASED_A, [CAND_RELEASED])
  {
    forall k | k in RELEASED_A.gc ensures exists i :: 0 <= i < |[CAND_RELEASED]| && [CAND_RELEASED][i].key == k {
      assert [CAND_RELEASED][0].key == k;
    }
  }

  lemma CollectsOne(c: Config, db: Indexes, cand: Candidate)
    requires cand.key.addr in db.data && db.gcSize == 1
    ensures Collect(c, db, [cand], {}, 0) == Collected(Evict(c, db, cand), [cand], false, false)
  {
    var cands := [cand];
    var r := Collected(Evict(c, db, cand), [cand], false, false);
    assert [] + [cand] == [cand];
    assert Sub64(1, 0) == 1 && Sub64(1, 1) == 0;
    assert CollectFrom(c, db, r, cands, 1, {}, 0) == r;
  }

  lemma EvictsA()
    ensures Leads(NODE, Sys(RELEASED_A, Gathered({}, [CAND_RELEASED])), CollectEvent(0), Sys(LEFT_SLOT, Finished({})))
  {
    var after := Evict(NODE, RELEASED_A, CAND_RELEASED);
    assert after.data == map[] && after.access == map[] && after.gc == map[] && after.push == {};
    assert after.side.pull == map[] && after.side.chunks == {} && after.side.slots == LEFT_SLOT.side.slots;
    CollectsOne(NODE, RELEASED_A, CAND_RELEASED);
  }

  lemma TakesSecondSlot()
    ensures Leads(NODE, Sys(LEFT_SLOT, Idle), PUT_A_ELSEWHERE, Sys(TWO_SLOTS, Idle))
  {
    var e := PutChunk(NODE, CACHE, LEFT_SLOT, LEFT_SLOT, Stamped(A, 2, 1), At(3)(0));
    assert e.err.None? && e.gcChange == 1;
    PutOne(NODE, CACHE, LEFT_SLOT, Stamped(A, 2, 1), At(3));
    assert e.batch.side == TWO_SLOTS.side && e.batch.data == TWO_SLOTS.data && e.batch.gc == TWO_SLOTS.gc;
  }

  lemma CachedBoth(batch: Indexes)
    requires batch == PutChunk(NODE, CACHE, TWO_SLOTS, TWO_SLOTS, Stamped(D, 9, 1), Times(4, 4)).batch
    ensures batch == WITH_D.(gcSize := 1)
  {
    PutTwo(A, DataEntry(3, 2, Slot(7, 2), 1), D, DataEntry(4, 3, Slot(7, 9), 1));
    PutTwo(A, 3, D, 4);
    PutTwo(GcKey(3, 2, A), Slot(7, 2), GcKey(4, 3, D), Slot(7, 9));
    assert batch.side.slots == WITH_D.side.slots;
    assert {ChunkKey(7, 0, A)} + {ChunkKey(7, 0, D)} == {ChunkKey(7, 0, A), ChunkKey(7, 0, D)};
    assert map[0 := 2][0 := 3] == map[0 := 3];
  }

  lemma CachesD()
    ensures Leads(NODE, Sys(TWO_SLOTS, Idle), PUT_D, Sys(WITH_D, Idle))
  {
    var e := PutChunk(NODE, CACHE, TWO_SLOTS, TWO_SLOTS, Stamped(D, 9, 1), At(4)(0));
    assert e.err.None? && e.gcChange == 1;
    PutOne(NODE, CACHE, TWO_SLOTS, Stamped(D, 9, 1), At(4));
    CachedBoth(e.batch);
  }

  const GATHER_RUN: seq<Event> := [RESERVE_A, RELEASE_A, RaiseEvent, GatherEvent([CAND_RELEASED])]
  const RETURN_RUN: seq<Event> := [CollectEvent(0), LowerEvent, PUT_A_ELSEWHERE, PUT_D]
  const RELEASED: Sys := Sys(RELEASED_A, Gathered({}, [CAND_RELEASED]))

  lemma IsGathered()
    ensures AdmissibleRun(NODE, START, GATHER_RUN) && Run(NODE, START, GATHER_RUN) == RELEASED
  {
    ReservesA();
    ReleasesA();
    ReleasedGathers();
    RunOfFour(NODE, START, RESERVE_A, Sys(RESERVED_A, Idle), RELEASE_A, Sys(RELEASED_A, Idle), RaiseEvent,
              Sys(RELEASED_A, Raised({})), GatherEvent([CAND_RELEASED]), RELEASED);
  }

  lemma Lowers(ix: Indexes, dirty: set<Address>)
    ensures Leads(NODE, Sys(ix, Finished(dirty)), LowerEvent, Sys(ix, Idle))
  {
  }

  lemma ReturnsBy(s: Sys, s1: Sys, s2: Sys, s3: Sys, s4: Sys)
    requires Leads(NODE, s, CollectEvent(0), s1) && Leads(NODE, s1, LowerEvent, s2)
    requires Leads(NODE, s2, PUT_A_ELSEWHERE, s3) && Leads(NODE, s3, PUT_D, s4)
    ensures AdmissibleRun(NODE, s, RETURN_RUN) && Run(NODE, s, RETURN_RUN) == s4
  {
    RunOfFour(NODE, s, CollectEvent(0), s1, LowerEvent, s2, PUT_A_ELSEWHERE, s3, PUT_D, s4);
  }

  lemma Returns()
    ensures AdmissibleRun(NODE, RELEASED, RETURN_RUN) && Run(NODE, RELEASED, RETURN_RUN) == Sys(WITH_D, Idle)
  {
    EvictsA();
    Lowers(LEFT_SLOT, {});
    TakesSecondSlot();
    CachesD();
    ReturnsBy(RELEASED, Sys(LEFT_SLOT, Finished({})), Sys(LEFT_SLOT, Idle), Sys(TWO_SLOTS, Idle), Sys(WITH_D, Idle));
  }

  lemma TwoSlotsReached()
    ensures AdmissibleRun(NODE, START, GATHER_RUN + RETURN_RUN)
    ensures Run(NODE, START, GATHER_RUN + RETURN_RUN) == Sys(WITH_D, Idle)
  {
    IsGathered();
    Returns();
    RunSplit(NODE, START, GATHER_RUN, RETURN_RUN);
  }

  lemma WithDOk()
    ensures Good(WITH_D)
  {
    TwoSlotsReached();
    StartOk();
    EveryRunKeeps(NODE, START, GATHER_RUN + RETURN_RUN);
  }

  lemma SharesOwner(db: Indexes, x: Chunk, y: Chunk, prev: Address)
    requires InCache(db, prev) && x.addr !in db.data && y.addr !in db.data && x.addr != y.addr
    requires SlotOf(db, x) == Replace(prev) && SlotOf(db, y) == Replace(prev)
    ensures SharedOwner(db, [x, y]) && Takeovers(db, [x, y], 2) <= 2
  {
    var chs := [x, y];
    assert chs[0] == x && chs[1] == y && First(chs, 0) && First(chs, 1);
    assert TakesCached(db, chs, 0) && TakesCached(db, chs, 1) && Replaced(db, chs[0]) == Replaced(db, chs[1]);
    assert Takeovers(db, chs, 1) <= 1;
  }

  /** Two new chunks over two slots of one cached chunk, with another chunk in the cache. */
  lemma SharedFallsBehind(db: Indexes, x: Chunk, y: Chunk, now: nat -> Times, prev: Address)
    requires Partition(db) && Excess(db) == 0 && db.gcSize >= 2 && InCache(db, prev)
    requires x.addr !in db.data && y.addr !in db.data && x.addr != y.addr
    requires SlotOf(db, x) == Replace(prev) && SlotOf(db, y) == Replace(prev)
    ensures
      var after := PutCall(NODE, RESERVE, db, [x, y], now);
      SharedOwner(db, [x, y]) && Partition(after) && after.gcSize < |after.gc|
  {
    SharesOwner(db, x, y, prev);
    CommitsBoth(db, x, y, now);
    PutCallKeeps(NODE, RESERVE, db, [x, y], now);
    PutFallsBehindIff(NODE, RESERVE, db, [x, y], now);
  }

  lemma CommitsBoth(db: Indexes, x: Chunk, y: Chunk, now: nat -> Times)
    requires Partition(db) && Storable(db, x) && Storable(db, y)
    ensures Commits(NODE, RESERVE, db, [x, y], now)
  {
    PutCallCommitsIff(NODE, RESERVE, db, [x, y], now);
  }

  lemma CountOfWithD()
    ensures |WITH_D.gc| == 2
  {
    AddedSize(map[GcKey(3, 2, A) := Slot(7, 2)], GcKey(4, 3, D), Slot(7, 9));
    assert WITH_D.gc == map[GcKey(3, 2, A) := Slot(7, 2)][GcKey(4, 3, D) := Slot(7, 9)];
  }

  /**
   Two slots come to name one chunk: garbage collection takes a chunk that was unpinned and leaves
   its slot entry, and the chunk returns under another stamp index. A request that takes over both
   slots counts the removal twice, and gcSize is behind the gc index from then on.
   */
  lemma SharedOwnerReached()
    ensures AdmissibleRun(NODE, START, GATHER_RUN + RETURN_RUN)
    ensures Run(NODE, START, GATHER_RUN + RETURN_RUN) == Sys(WITH_D, Idle)
    ensures
      var chs := [Stamped(X, 2, 2), Stamped(Y, 1, 2)];
      var after := PutCall(NODE, RESERVE, WITH_D, chs, At(5));
      && WITH_D.gcSize == |WITH_D.gc| && SharedOwner(WITH_D, chs)
      && Partition(after) && after.gcSize < |after.gc|
  {
    TwoSlotsReached();
    WithDOk();
    CountOfWithD();
    SharedFallsBehind(WITH_D, Stamped(X, 2, 2), Stamped(Y, 1, 2), At(5), A);
  }

  /** Once it is evicted, the slot it has left lets no later stamp pass. */
  lemma BlockedSlotReached(kind: PutKind, now: nat -> Times)
    ensures AdmissibleRun(NODE, START, GATHER_RUN + [CollectEvent(0)])
    ensures Run(NODE, START, GATHER_RUN + [CollectEvent(0)]) == Sys(LEFT_SLOT, Finished({}))
    ensures !Commits(NODE, kind, LEFT_SLOT, [Stamped(X, 1, 2)], now)
  {
    IsGathered();
    EvictsA();
    RunCons(NODE, RELEASED, CollectEvent(0), []);
    assert [CollectEvent(0)] + [] == [CollectEvent(0)];
    RunSplit(NODE, START, GATHER_RUN, [CollectEvent(0)]);
    StartOk();
    EveryRunKeeps(NODE, START, GATHER_RUN + [CollectEvent(0)]);
    StaleSlotBlocks(NODE, kind, LEFT_SLOT, Stamped(X, 1, 2), now);
  }

  // ----- one chunk named twice -----

  /** A pinning, removal or sync that names a cached chunk twice, with another chunk in the cache. */
  lemma RepeatedNamingReached(mode: SetMode)
    requires !mode.ModeUnpin?
    ensures AdmissibleRun(NODE, START, GATHER_RUN + RETURN_RUN)
    ensures Run(NODE, START, GATHER_RUN + RETURN_RUN) == Sys(WITH_D, Idle)
    ensures
      var after := SetCall(NODE, mode, WITH_D, [A, A], Clock(5));
      WITH_D.gcSize == |WITH_D.gc| && after.gcSize < |after.gc|
  {
    TwoSlotsReached();
    WithDOk();
    CountOfWithD();
    CountedAgain(mode, WITH_D);
  }

  lemma TwoNamings(mode: SetMode, db: Indexes)
    requires Counts(mode, db, A)
    ensures Namings(mode, db, [A, A], 2) <= 2 && Repeats(mode, db, [A, A])
  {
    var addrs := [A, A];
    assert addrs[0] == A && addrs[1] == A && Latest(addrs, 1, A) == 0;
    assert NamedAgain(mode, db, addrs, 1);
    assert Namings(mode, db, addrs, 0) == 0 && Namings(mode, db, addrs, 1) <= 1;
  }

  lemma CommitsTwice(mode: SetMode, db: Indexes, now: nat -> int)
    requires Good(db) && Allowed(mode, StatusOf(db, A))
    ensures SetCommits(NODE, mode, db, [A, A], now)
  {
    SetCallCommitsIff(NODE, mode, db, [A, A], now);
  }

  lemma CountedAgain(mode: SetMode, db: Indexes)
    requires !mode.ModeUnpin? && Good(db) && InCache(db, A) && A in db.access && Excess(db) == 0 && db.gcSize >= 2
    ensures var after := SetCall(NODE, mode, db, [A, A], Clock(5)); after.gcSize < |after.gc|
  {
    TwoNamings(mode, db);
    CommitsTwice(mode, db, Clock(5));
    SetFallsBehindIff(NODE, mode, db, [A, A], Clock(5));
  }

  /** An unpinning that names a chunk on its last pin twice: the counter is ahead of the gc index. */
  lemma RepeatedUnpinReached()
    ensures AdmissibleRun(NODE, START, [RESERVE_A]) && Run(NODE, START, [RESERVE_A]) == Sys(RESERVED_A, Idle)
    ensures
      var after := SetCall(NODE, ModeUnpin, RESERVED_A, [A, A], Clock(2));
      RESERVED_A.gcSize == |RESERVED_A.gc| && after.gcSize > |after.gc|
  {
    ReservesA();
    RunCons(NODE, START, RESERVE_A, []);
    assert [RESERVE_A] + [] == [RESERVE_A];
    StartOk();
    EveryRunKeeps(NODE, START, [RESERVE_A]);
    UnpinnedAgain(RESERVED_A);
  }

  lemma UnpinnedAgain(db: Indexes)
    requires Good(db) && LastPin(db, A) && db.pin[A] == 1 && Excess(db) == 0
    ensures var after := SetCall(NODE, ModeUnpin, db, [A, A], Clock(2)); after.gcSize > |after.gc|
  {
    TwoNamings(ModeUnpin, db);
    CommitsTwice(ModeUnpin, db, Clock(2));
    SetFallsBehindIff(NODE, ModeUnpin, db, [A, A], Clock(2));
  }

  // ----- an upload over a cached chunk -----

  /** An upload over the slot of a cached chunk: the entry goes, the counter stays. */
  lemma LostCountReached()
    ensures AdmissibleRun(NODE, START, [PUT_A]) && Run(NODE, START, [PUT_A]) == Sys(OnlyA(1, 1), Idle)
    ensures
      var after := PutCall(NODE, Upload(false), OnlyA(1, 1), [Stamped(X, 1, 2)], At(4));
      OnlyA(1, 1).gcSize == |OnlyA(1, 1).gc| && after.gcSize == |after.gc| + 1
  {
    StartCachesA();
    RunCons(NODE, START, PUT_A, []);
    assert [PUT_A] + [] == [PUT_A];
    StartOk();
    EveryRunKeeps(NODE, START, [PUT_A]);
    UploadOver(OnlyA(1, 1), Stamped(X, 1, 2), At(4), A);
  }

  lemma UploadOver(db: Indexes, ch: Chunk, now: nat -> Times, prev: Address)
    requires Partition(db) && Excess(db) == 0
    requires ch.addr !in db.data && SlotOf(db, ch) == Replace(prev) && InCache(db, prev)
    ensures var after := PutCall(NODE, Upload(false), db, [ch], now); after.gcSize == |after.gc| + 1
  {
    var chs := [ch];
    assert chs[0] == ch && First(chs, 0);
    PutCallCommitsIff(NODE, Upload(false), db, chs, now);
    PutCallKeeps(NODE, Upload(false), db, chs, now);
    PutGains(NODE, Upload(false), db, chs, now);
    CachedOwnersNext(db, chs, 0);
    assert CachedOwners(db, chs, 0) == {};
  }

  // ----- an eviction that frees the slot of another chunk -----

  /** A and D in the reserve, D under stamp index 0 of the same batch. */
  const BOTH: Indexes :=
    Indexes(map[A := DataEntry(1, 1, Slot(7, 1), 1), D := DataEntry(2, 2, Slot(7, 0), 1)], map[A := 1, D := 2], {}, map[],
            map[A := 1, D := 1],
            Side(map[PullKey(0, 1) := A, PullKey(0, 2) := D], {ChunkKey(7, 0, A), ChunkKey(7, 0, D)},
                 map[Slot(7, 1) := Occupant(A, 1), Slot(7, 0) := Occupant(D, 1)], map[], map[0 := 2]), 0)

  const BOTH_RELEASED: Indexes :=
    BOTH.(pin := map[D := 1], gc := map[GcKey(1, 1, A) := Slot(7, 0)], gcSize := 1)

  /** A is evicted; its slot is still taken, and that of D is not. */
  const LOST_SLOT: Indexes :=
    Indexes(map[D := DataEntry(2, 2, Slot(7, 0), 1)], map[D := 2], {}, map[], map[D := 1],
            Side(map[PullKey(0, 2) := D], {ChunkKey(7, 0, D)}, map[Slot(7, 1) := Occupant(A, 1)], map[], map[0 := 2]), 0)

  const RESERVE_D: Event := PutEvent(RESERVE, [Stamped(D, 0, 1)], At(2))
  const EVICT_RUN: seq<Event> := [RaiseEvent, GatherEvent([CAND_RELEASED]), CollectEvent(0)]

  lemma ReservedBoth(batch: Indexes)
    requires batch == PutChunk(NODE, RESERVE, RESERVED_A, RESERVED_A, Stamped(D, 0, 1), Times(2, 2)).batch
    ensures batch == BOTH
  {
    PutTwo(A, DataEntry(1, 1, Slot(7, 1), 1), D, DataEntry(2, 2, Slot(7, 0), 1));
    PutTwo(A, 1, D, 2);
    PutTwo(A, 1, D, 1);
    PutTwo(PullKey(0, 1), A, PullKey(0, 2), D);
    PutTwo(Slot(7, 1), Occupant(A, 1), Slot(7, 0), Occupant(D, 1));
    assert {ChunkKey(7, 0, A)} + {ChunkKey(7, 0, D)} == {ChunkKey(7, 0, A), ChunkKey(7, 0, D)};
    assert map[0 := 1][0 := 2] == map[0 := 2];
  }

  lemma ReservesD()
    ensures Leads(NODE, Sys(RESERVED_A, Idle), RESERVE_D, Sys(BOTH, Idle))
  {
    var e := PutChunk(NODE, RESERVE, RESERVED_A, RESERVED_A, Stamped(D, 0, 1), At(2)(0));
    assert e.err.None? && e.gcChange == 0;
    PutOne(NODE, RESERVE, RESERVED_A, Stamped(D, 0, 1), At(2));
    ReservedBoth(e.batch);
  }

  lemma ReleasesFirst()
    ensures Leads(NODE, Sys(BOTH, Idle), RELEASE_A, Sys(BOTH_RELEASED, Idle))
  {
    var e := SetUnpin(BOTH, BOTH, A, 2);
    assert e.err.None? && e.gcChange == 1;
    SetJust(NODE, ModeUnpin, BOTH, A, Clock(2));
    assert e.batch.pin == BOTH_RELEASED.pin && e.batch.gc == BOTH_RELEASED.gc;
  }

  lemma BothGathers()
    ensures OldestFirst(BOTH_RELEASED, [CAND_RELEASED])
  {
    forall k | k in BOTH_RELEASED.gc ensures exists i :: 0 <= i < |[CAND_RELEASED]| && [CAND_RELEASED][i].key == k {
      assert [CAND_RELEASED][0].key == k;
    }
  }

  lemma EvictedFirst()
    ensures Evict(NODE, BOTH_RELEASED, CAND_RELEASED) == LOST_SLOT.(gcSize := 1)
  {
    DropFirst(A, DataEntry(1, 1, Slot(7, 1), 1), D, DataEntry(2, 2, Slot(7, 0), 1));
    DropFirst(A, 1, D, 2);
    DropFirst(PullKey(0, 1), A, PullKey(0, 2), D);
    DropSecond(Slot(7, 1), Occupant(A, 1), Slot(7, 0), Occupant(D, 1));
    assert {ChunkKey(7, 0, A), ChunkKey(7, 0, D)} - {ChunkKey(7, 0, A)} == {ChunkKey(7, 0, D)};
  }

  lemma EvictsFirst()
    ensures Leads(NODE, Sys(BOTH_RELEASED, Gathered({}, [CAND_RELEASED])), CollectEvent(0), Sys(LOST_SLOT, Finished({})))
  {
    EvictedFirst();
    CollectsOne(NODE, BOTH_RELEASED, CAND_RELEASED);
  }

  lemma SlotLost()
    ensures AdmissibleRun(NODE, START, [RESERVE_A, RESERVE_D, RELEASE_A] + EVICT_RUN)
    ensures Run(NODE, START, [RESERVE_A, RESERVE_D, RELEASE_A] + EVICT_RUN) == Sys(LOST_SLOT, Finished({}))
  {
    var s := Sys(BOTH_RELEASED, Idle);
    ReservesA();
    ReservesD();
    ReleasesFirst();
    RunOfThree(NODE, START, RESERVE_A, Sys(RESERVED_A, Idle), RESERVE_D, Sys(BOTH, Idle), RELEASE_A, s);
    BothGathers();
    EvictsFirst();
    RunOfThree(NODE, s, RaiseEvent, Sys(BOTH_RELEASED, Raised({})), GatherEvent([CAND_RELEASED]),
               Sys(BOTH_RELEASED, Gathered({}, [CAND_RELEASED])), CollectEvent(0), Sys(LOST_SLOT, Finished({})));
    RunSplit(NODE, START, [RESERVE_A, RESERVE_D, RELEASE_A], EVICT_RUN);
  }

  lemma BothOk()
    ensures Partition(BOTH)
  {
    StartOk();
    ReservesA();
    ReservesD();
    StepOk(NODE, START, RESERVE_A);
    StepOk(NODE, Sys(RESERVED_A, Idle), RESERVE_D);
  }

  lemma LostOk()
    ensures Partition(LOST_SLOT)
  {
    StartOk();
    SlotLost();
    EveryRunKeeps(NODE, START, [RESERVE_A, RESERVE_D, RELEASE_A] + EVICT_RUN);
  }

  /**
   An unpinned chunk is evicted, and with it the slot entry of another chunk that is still stored.
   A chunk under the same stamp of an immutable batch is then stored beside it, which was refused before.
   */
  lemma ForeignSlotFreed(kind: PutKind, now: nat -> Times)
    ensures AdmissibleRun(NODE, START, [RESERVE_A, RESERVE_D, RELEASE_A] + EVICT_RUN)
    ensures Run(NODE, START, [RESERVE_A, RESERVE_D, RELEASE_A] + EVICT_RUN) == Sys(LOST_SLOT, Finished({}))
    ensures BOTH.side.slots[Slot(7, 0)].addr == D && !Commits(NODE, kind, BOTH, [Chunk(X, Slot(7, 0), 1, 0, true)], now)
    ensures D in LOST_SLOT.data && LOST_SLOT.data[D].slot == Slot(7, 0) && Slot(7, 0) !in LOST_SLOT.side.slots
    ensures Commits(NODE, kind, LOST_SLOT, [Chunk(X, Slot(7, 0), 1, 0, true)], now)
  {
    SlotLost();
    BothOk();
    LostOk();
    AloneCommitsIff(kind, BOTH, Chunk(X, Slot(7, 0), 1, 0, true), now);
    AloneCommitsIff(kind, LOST_SLOT, Chunk(X, Slot(7, 0), 1, 0, true), now);
  }

  lemma AloneCommitsIff(kind: PutKind, db: Indexes, ch: Chunk, now: nat -> Times)
    requires Partition(db) && ch.addr !in db.data
    ensures Commits(NODE, kind, db, [ch], now) <==> Storable(db, ch)
  {
    PutCallCommitsIff(NODE, kind, db, [ch], now);
    assert [ch][0] == ch && First([ch], 0);
  }
}
