/** Whole calls: one batch each, committed with the counter change; and the calls of Set. */
module StoreCalls {
  import opened Wrappers

  import opened StoreIndexes
  import opened StoreOps
  import opened StoreRepeat

  /** incGCSizeInBatch: adds the change, but a subtraction that would underflow is dropped. */
  function IncGCSize(gcSize: nat, change: int): nat {
    if change >= 0 then gcSize + change
    else if -change > gcSize then gcSize
    else gcSize + change
  }

  function Commit(db: Indexes, e: Effect): Indexes {
    e.batch.(gcSize := IncGCSize(db.gcSize, e.gcChange))
  }

  /** How far the counter is above the number of entries it counts. */
  function Excess(ix: Indexes): int {
    ix.gcSize - |ix.gc|
  }

  /** How far the guard of incGCSizeInBatch leaves the counter above what it should be. */
  function Underflow(gcSize: nat, change: int): nat {
    if -change > gcSize then -change else 0
  }

  lemma CommitMoves(db: Indexes, e: Effect, off: int)
    requires |e.batch.gc| == |db.gc| + e.gcChange + off
    ensures Excess(Commit(db, e)) == Excess(db) - off + Underflow(db.gcSize, e.gcChange)
  {
  }

  /** The state that invariants are about: the partition, and what holds of each chunk by itself. */
  ghost predicate Good(ix: Indexes) {
    Partition(ix) && ChunksOk(ix)
  }

  // ----- set -----

  /** A loop that adds one effect after the other to a pending batch; the first error ends it. */
  type Steps = (Indexes, nat) -> Effect

  function Next(step: Steps, pending: Effect, k: nat): Effect {
    var e := step(pending.batch, k);
    e.(gcChange := pending.gcChange + e.gcChange)
  }

  function Fold(step: Steps, pending: Effect, n: nat, k: nat): Effect
    decreases n - k
  {
    if k >= n || pending.err.Some? then pending else Fold(step, Next(step, pending, k), n, k + 1)
  }

  /** What every step without an error keeps, the whole loop keeps. */
  lemma {:induction false} FoldKeeps(step: Steps, inv: (Effect, nat) -> bool, pending: Effect, n: nat, k: nat)
    requires k <= n && inv(pending, k)
    requires forall p: Effect, j: nat :: j < n && inv(p, j) && Next(step, p, j).err.None? ==> inv(Next(step, p, j), j + 1)
    ensures var e := Fold(step, pending, n, k); e.err.Some? || inv(e, n)
    decreases n - k
  {
    if k < n && pending.err.None? && Next(step, pending, k).err.None? {
      FoldKeeps(step, inv, Next(step, pending, k), n, k + 1);
    }
  }

  lemma {:induction false} FoldNoError(step: Steps, pending: Effect, n: nat, k: nat)
    requires pending.err.None?
    requires forall p: Effect, j: nat :: j < n && p.err.None? ==> Next(step, p, j).err.None?
    ensures Fold(step, pending, n, k).err.None?
    decreases n - k
  {
    if k < n {
      FoldNoError(step, Next(step, pending, k), n, k + 1);
    }
  }

  function SetSteps(c: Config, mode: SetMode, db: Indexes, addrs: seq<Address>, now: nat -> int): Steps {
    (batch: Indexes, k: nat) => if k < |addrs| then SetOne(c, mode, db, batch, addrs[k], now(k)) else Effect(batch, 0, None)
  }

  function SetCall(c: Config, mode: SetMode, db: Indexes, addrs: seq<Address>, now: nat -> int): Indexes {
    var e := Fold(SetSteps(c, mode, db, addrs, now), Effect(db, 0, None), |addrs|, 0);
    if e.err.Some? then db else Commit(db, e)
  }

  /** The position before the k-th at which the address was last named, or -1. */
  function Latest(addrs: seq<Address>, k: nat, x: Address): (i: int)
    requires k <= |addrs|
    ensures -1 <= i < k && (i >= 0 ==> addrs[i] == x)
    ensures forall j :: i < j < k ==> addrs[j] != x
  {
    if k == 0 then -1 else if addrs[k - 1] == x then k - 1 else Latest(addrs, k - 1, x)
  }

  /** What the first k namings count in all. */
  function NamedCount(mode: SetMode, db: Indexes, addrs: seq<Address>, k: nat): int
    requires k <= |addrs|
  {
    if k == 0 then 0 else NamedCount(mode, db, addrs, k - 1) + CountOf(mode, db, addrs[k - 1])
  }

  /** What the repeated ones among them count: setOne reads the committed state and counts them once more. */
  function Recounted(mode: SetMode, db: Indexes, addrs: seq<Address>, k: nat): int
    requires k <= |addrs|
  {
    if k == 0 then 0
    else
      Recounted(mode, db, addrs, k - 1) +
      if Latest(addrs, k - 1, addrs[k - 1]) < 0 then 0 else CountOf(mode, db, addrs[k - 1])
  }

  /** An address is as committed, or where the last naming alone would have taken it. */
  ghost predicate SetAt(c: Config, mode: SetMode, db: Indexes, batch: Indexes, addrs: seq<Address>,
                        now: nat -> int, k: nat, x: Address)
    requires k <= |addrs|
  {
    var i := Latest(addrs, k, x);
    if i < 0 then SameAt(db, batch, x) else SameAt(SetOne(c, mode, db, db, x, now(i)).batch, batch, x)
  }

  /** What holds before the k-th address of a set call. */
  ghost predicate SetInv(c: Config, mode: SetMode, db: Indexes, pending: Effect, addrs: seq<Address>,
                         now: nat -> int, k: nat) {
    && k <= |addrs| && Good(db)
    && (forall x :: SetAt(c, mode, db, pending.batch, addrs, now, k, x))
    && pending.gcChange == NamedCount(mode, db, addrs, k)
    && |pending.batch.gc| == |db.gc| + NamedCount(mode, db, addrs, k) - Recounted(mode, db, addrs, k)
  }

  lemma SetAtElsewhere(c: Config, mode: SetMode, db: Indexes, batch: Indexes, after: Indexes, addrs: seq<Address>,
                       now: nat -> int, k: nat, x: Address)
    requires k < |addrs| && x != addrs[k] && SetAt(c, mode, db, batch, addrs, now, k, x) && SameAt(batch, after, x)
    ensures SetAt(c, mode, db, after, addrs, now, k + 1, x)
  {
    var i := Latest(addrs, k, x);
    assert Latest(addrs, k + 1, x) == i;
    if i < 0 {
      SameAtTrans(db, batch, after, x);
    } else {
      SameAtTrans(SetOne(c, mode, db, db, x, now(i)).batch, batch, after, x);
    }
  }

  lemma SetAtHere(c: Config, mode: SetMode, db: Indexes, batch: Indexes, addrs: seq<Address>, now: nat -> int, k: nat)
    requires k < |addrs| && Good(db) && SetAt(c, mode, db, batch, addrs, now, k, addrs[k])
    ensures
      var e := SetOne(c, mode, db, batch, addrs[k], now(k));
      && SetAt(c, mode, db, e.batch, addrs, now, k + 1, addrs[k])
      && |e.batch.gc| == |batch.gc| + if Latest(addrs, k, addrs[k]) < 0 then e.gcChange else 0
  {
    var x := addrs[k];
    var i := Latest(addrs, k, x);
    assert AddrOk(db, x) && ChunkOk(db, x);
    assert Latest(addrs, k + 1, x) == k;
    if i < 0 {
      SetOneLocal(c, mode, db, batch, x, now(k));
      SetOneSound(c, mode, db, batch, x, now(k));
    } else {
      SetOneAgain(c, mode, db, batch, x, now(i), now(k));
    }
  }

  lemma SetStepElsewhere(c: Config, mode: SetMode, db: Indexes, batch: Indexes, addrs: seq<Address>, now: nat -> int,
                         k: nat, after: Indexes, x: Address)
    requires k < |addrs| && SetAt(c, mode, db, batch, addrs, now, k, x) && x != addrs[k]
    requires after == SetOne(c, mode, db, batch, addrs[k], now(k)).batch
    ensures SetAt(c, mode, db, after, addrs, now, k + 1, x)
  {
    SetOneElsewhere(c, mode, db, batch, addrs[k], now(k), x);
    SetAtElsewhere(c, mode, db, batch, after, addrs, now, k, x);
  }

  lemma SetStepAt(c: Config, mode: SetMode, db: Indexes, batch: Indexes, addrs: seq<Address>, now: nat -> int,
                  k: nat, after: Indexes)
    requires k < |addrs| && Good(db) && forall x :: SetAt(c, mode, db, batch, addrs, now, k, x)
    requires after == SetOne(c, mode, db, batch, addrs[k], now(k)).batch
    ensures var j := k + 1; forall x :: SetAt(c, mode, db, after, addrs, now, j, x)
  {
    var j := k + 1;
    SetAtHere(c, mode, db, batch, addrs, now, k);
    forall x ensures SetAt(c, mode, db, after, addrs, now, j, x) {
      if x != addrs[k] {
        SetStepElsewhere(c, mode, db, batch, addrs, now, k, after, x);
      }
    }
  }

  lemma SetStepCounts(c: Config, mode: SetMode, db: Indexes, batch: Indexes, addrs: seq<Address>, now: nat -> int,
                      k: nat, e: Effect)
    requires k < |addrs| && Good(db) && SetAt(c, mode, db, batch, addrs, now, k, addrs[k])
    requires e == SetOne(c, mode, db, batch, addrs[k], now(k))
    ensures e.gcChange == NamedCount(mode, db, addrs, k + 1) - NamedCount(mode, db, addrs, k)
    ensures |e.batch.gc| == |batch.gc| + e.gcChange - (Recounted(mode, db, addrs, k + 1) - Recounted(mode, db, addrs, k))
  {
    assert AddrOk(db, addrs[k]);
    SetAtHere(c, mode, db, batch, addrs, now, k);
    SetOneCounts(c, mode, db, batch, addrs[k], now(k));
  }

  lemma SetStepKeeps(c: Config, mode: SetMode, db: Indexes, pending: Effect, addrs: seq<Address>, now: nat -> int,
                     k: nat, e: Effect, next: Effect)
    requires SetInv(c, mode, db, pending, addrs, now, k) && k < |addrs|
    requires e == SetOne(c, mode, db, pending.batch, addrs[k], now(k))
    requires next.batch == e.batch && next.gcChange == pending.gcChange + e.gcChange
    ensures SetInv(c, mode, db, next, addrs, now, k + 1)
  {
    assert SetAt(c, mode, db, pending.batch, addrs, now, k, addrs[k]);
    SetStepAt(c, mode, db, pending.batch, addrs, now, k, e.batch);
    SetStepCounts(c, mode, db, pending.batch, addrs, now, k, e);
  }

  lemma SetNextKeeps(c: Config, mode: SetMode, db: Indexes, addrs: seq<Address>, now: nat -> int,
                     pending: Effect, k: nat)
    requires SetInv(c, mode, db, pending, addrs, now, k) && k < |addrs|
    ensures SetInv(c, mode, db, Next(SetSteps(c, mode, db, addrs, now), pending, k), addrs, now, k + 1)
  {
    SetStepKeeps(c, mode, db, pending, addrs, now, k, SetOne(c, mode, db, pending.batch, addrs[k], now(k)),
                 Next(SetSteps(c, mode, db, addrs, now), pending, k));
  }

  lemma FirstSetInv(c: Config, mode: SetMode, db: Indexes, addrs: seq<Address>, now: nat -> int)
    requires Good(db)
    ensures SetInv(c, mode, db, Effect(db, 0, None), addrs, now, 0)
  {
  }

  ghost function SetInvOf(c: Config, mode: SetMode, db: Indexes, addrs: seq<Address>, now: nat -> int): (Effect, nat) -> bool {
    (p: Effect, j: nat) => SetInv(c, mode, db, p, addrs, now, j)
  }

  lemma SetInvSteps(c: Config, mode: SetMode, db: Indexes, addrs: seq<Address>, now: nat -> int, p: Effect, j: nat)
    requires j < |addrs| && SetInvOf(c, mode, db, addrs, now)(p, j)
    ensures SetInvOf(c, mode, db, addrs, now)(Next(SetSteps(c, mode, db, addrs, now), p, j), j + 1)
  {
    SetNextKeeps(c, mode, db, addrs, now, p, j);
  }

  lemma SetFoldKeeps(c: Config, mode: SetMode, db: Indexes, addrs: seq<Address>, now: nat -> int)
    requires Good(db)
    ensures
      var e := Fold(SetSteps(c, mode, db, addrs, now), Effect(db, 0, None), |addrs|, 0);
      e.err.Some? || SetInv(c, mode, db, e, addrs, now, |addrs|)
  {
    var step := SetSteps(c, mode, db, addrs, now);
    var inv := SetInvOf(c, mode, db, addrs, now);
    FirstSetInv(c, mode, db, addrs, now);
    forall p: Effect, j: nat | j < |addrs| && inv(p, j) ensures inv(Next(step, p, j), j + 1) {
      SetInvSteps(c, mode, db, addrs, now, p, j);
    }
    FoldKeeps(step, inv, Effect(db, 0, None), |addrs|, 0);
  }

  lemma SetAtOk(c: Config, mode: SetMode, db: Indexes, batch: Indexes, addrs: seq<Address>, now: nat -> int, k: nat, x: Address)
    requires k <= |addrs| && Good(db) && SetAt(c, mode, db, batch, addrs, now, k, x)
    ensures AddrOk(batch, x) && ChunkOk(batch, x)
  {
    var i := Latest(addrs, k, x);
    assert AddrOk(db, x) && ChunkOk(db, x);
    if i < 0 {
      SameAtOk(db, batch, x);
    } else {
      var once := SetOne(c, mode, db, db, x, now(i)).batch;
      SetOneSound(c, mode, db, db, x, now(i));
      SetOneChunkOk(c, mode, db, x, now(i));
      SameAtOk(once, batch, x);
    }
  }

  lemma SetOneChunkOk(c: Config, mode: SetMode, db: Indexes, a: Address, now: int)
    requires AddrOk(db, a) && ChunkOk(db, a)
    ensures ChunkOk(SetOne(c, mode, db, db, a, now).batch, a)
  {
    match mode {
      case ModeSync => SyncChunkOk(c, db, a, now);
      case ModeRemove =>
      case ModePin =>
      case ModeUnpin =>
    }
  }

  lemma SyncChunkOk(c: Config, db: Indexes, a: Address, now: int)
    requires AddrOk(db, a) && ChunkOk(db, a)
    ensures ChunkOk(SetSync(c, db, db, a, now).batch, a)
  {
    if a in db.data {
      SyncPins(c, db, db, a, now);
    }
  }

  predicate SetCommits(c: Config, mode: SetMode, db: Indexes, addrs: seq<Address>, now: nat -> int) {
    Fold(SetSteps(c, mode, db, addrs, now), Effect(db, 0, None), |addrs|, 0).err.None?
  }

  /** How a set call moves the counter against the entries it counts. */
  function SetDrift(c: Config, mode: SetMode, db: Indexes, addrs: seq<Address>, now: nat -> int): int {
    if SetCommits(c, mode, db, addrs, now) then
      Recounted(mode, db, addrs, |addrs|) + Underflow(db.gcSize, NamedCount(mode, db, addrs, |addrs|))
    else 0
  }

  /**
   Set keeps the partition for every mode, every list of addresses and every clock. The counter
   moves against the gc index by what repeated addresses are counted once more, but for its
   underflow guard.
   */
  lemma SetCallKeeps(c: Config, mode: SetMode, db: Indexes, addrs: seq<Address>, now: nat -> int)
    requires Good(db)
    ensures
      var after := SetCall(c, mode, db, addrs, now);
      && Good(after)
      && Excess(after) == Excess(db) + SetDrift(c, mode, db, addrs, now)
      && forall x :: x !in addrs ==> SameAt(db, after, x)
  {
    SetFoldKeeps(c, mode, db, addrs, now);
    if SetCommits(c, mode, db, addrs, now) {
      var e := Fold(SetSteps(c, mode, db, addrs, now), Effect(db, 0, None), |addrs|, 0);
      SetInvEnd(c, mode, db, e, addrs, now, Commit(db, e));
    }
  }

  lemma SizeOnly(x: Indexes, y: Indexes, a: Address)
    requires y == x.(gcSize := y.gcSize)
    ensures SameAt(x, y, a)
  {
  }

  lemma SetInvEnd(c: Config, mode: SetMode, db: Indexes, e: Effect, addrs: seq<Address>, now: nat -> int, after: Indexes)
    requires SetInv(c, mode, db, e, addrs, now, |addrs|) && after == Commit(db, e)
    ensures Good(after)
    ensures forall x :: x !in addrs ==> SameAt(db, after, x)
    ensures Excess(after) ==
      Excess(db) + Recounted(mode, db, addrs, |addrs|) + Underflow(db.gcSize, NamedCount(mode, db, addrs, |addrs|))
  {
    forall x ensures AddrOk(after, x) && ChunkOk(after, x) && (x !in addrs ==> SameAt(db, after, x)) {
      assert SetAt(c, mode, db, e.batch, addrs, now, |addrs|, x);
      SetAtOk(c, mode, db, e.batch, addrs, now, |addrs|, x);
      SizeOnly(e.batch, after, x);
    }
    CommitMoves(db, e, -Recounted(mode, db, addrs, |addrs|));
  }

  // ----- set without repetitions -----

  ghost predicate Distinct(addrs: seq<Address>) {
    forall i, j :: 0 <= i < j < |addrs| ==> addrs[i] != addrs[j]
  }

  lemma {:induction false} DistinctCountsOnce(mode: SetMode, db: Indexes, addrs: seq<Address>, k: nat)
    requires Distinct(addrs) && k <= |addrs|
    ensures Recounted(mode, db, addrs, k) == 0
    decreases k
  {
    if k > 0 {
      DistinctCountsOnce(mode, db, addrs, k - 1);
    }
  }

  /** A set call that names each address once keeps the exact distance of the counter, unless it was behind already. */
  lemma DistinctSetKeeps(c: Config, mode: SetMode, db: Indexes, addrs: seq<Address>, now: nat -> int)
    requires Good(db) && Distinct(addrs) && Excess(db) >= 0
    ensures SetDrift(c, mode, db, addrs, now) == 0
    ensures Excess(SetCall(c, mode, db, addrs, now)) == Excess(db)
  {
    SetCallKeeps(c, mode, db, addrs, now);
    DistinctCountsOnce(mode, db, addrs, |addrs|);
    SetFoldKeeps(c, mode, db, addrs, now);
  }
}
