/** Taking pins off the chunks of a batch (reserve.go), in rounds that commit on their own. */
module StoreReserve {
  import opened Wrappers

  import opened StoreIndexes
  import opened StoreOps
  import opened StoreLemmas
  import opened StoreCalls

  /** unpinBatchChunks: like setUnpin, but a missing chunk or pin is logged and passed over. */
  function UnpinSteps(db: Indexes, addrs: seq<Address>, now: nat -> int): Steps {
    (batch: Indexes, k: nat) =>
      if k < |addrs| then SetUnpin(db, batch, addrs[k], now(k)).(err := None) else Effect(batch, 0, None)
  }

  function UnpinRound(db: Indexes, addrs: seq<Address>, now: nat -> int): Indexes {
    Commit(db, Fold(UnpinSteps(db, addrs, now), Effect(db, 0, None), |addrs|, 0))
  }

  /** unpinBatchSize; a round stops after one more chunk than this. */
  const UNPIN_BATCH_SIZE: nat := 10000

  /** The clock of the rounds to come. */
  function Later(now: nat -> int): nat -> int {
    (k: nat) => now(UNPIN_BATCH_SIZE + 1 + k)
  }

  /** The chunks of one bin of one batch, in rounds that commit on their own. */
  function UnpinAll(db: Indexes, addrs: seq<Address>, now: nat -> int): Indexes
    decreases |addrs|
  {
    if |addrs| <= UNPIN_BATCH_SIZE + 1 then UnpinRound(db, addrs, now)
    else UnpinAll(UnpinRound(db, addrs[..UNPIN_BATCH_SIZE + 1], now), addrs[UNPIN_BATCH_SIZE + 1..], Later(now))
  }

  /** Unpinning leaves the stored chunks alone, and does nothing at all to chunks without a pin. */
  ghost predicate OnlyPinned(db: Indexes, batch: Indexes) {
    && batch.data == db.data
    && forall x :: x !in db.pin ==> SameAt(db, batch, x)
  }

  lemma EvictableData(db: Indexes, batch: Indexes, a: Address, now: int)
    requires a in db.data
    ensures Evictable(db, batch, a, now).data == batch.data
  {
  }

  lemma SetUnpinData(db: Indexes, batch: Indexes, a: Address, now: int)
    requires a in db.pin
    ensures SetUnpin(db, batch, a, now).batch.data == batch.data
  {
    if db.pin[a] <= 1 && a in db.data {
      EvictableData(db, batch.DropPin(a), a, now);
    }
  }

  lemma OnlyPinnedAfter(db: Indexes, batch: Indexes, a: Address, after: Indexes)
    requires OnlyPinned(db, batch) && a in db.pin
    requires after.data == batch.data && OnlyAt(batch, after, {a})
    ensures OnlyPinned(db, after)
  {
    forall x | x !in db.pin ensures SameAt(db, after, x) {
      assert SameAt(batch, after, x);
      SameAtTrans(db, batch, after, x);
    }
  }

  lemma SetUnpinOnlyPinned(db: Indexes, batch: Indexes, a: Address, now: int)
    requires OnlyPinned(db, batch) && Sound(batch, SetUnpin(db, batch, a, now), a)
    ensures OnlyPinned(db, SetUnpin(db, batch, a, now).batch)
  {
    if a in db.pin {
      SetUnpinData(db, batch, a, now);
      OnlyPinnedAfter(db, batch, a, SetUnpin(db, batch, a, now).batch);
    }
  }

  lemma NextUnpins(db: Indexes, addrs: seq<Address>, now: nat -> int, pending: Effect, k: nat, e: Effect)
    requires k < |addrs| && pending.err.None? && e == SetUnpin(db, pending.batch, addrs[k], now(k))
    ensures Next(UnpinSteps(db, addrs, now), pending, k) == Effect(e.batch, pending.gcChange + e.gcChange, None)
  {
  }

  /** What holds before the k-th chunk of a round; the change of the counter is never negative. */
  ghost predicate RoundInv(c: Config, db: Indexes, pending: Effect, addrs: seq<Address>, now: nat -> int, k: nat) {
    && SetInv(c, ModeUnpin, db, pending, addrs, now, k)
    && pending.err.None? && pending.gcChange >= 0 && OnlyPinned(db, pending.batch)
  }

  lemma UnpinNextKeeps(c: Config, db: Indexes, addrs: seq<Address>, now: nat -> int, pending: Effect, k: nat)
    requires RoundInv(c, db, pending, addrs, now, k) && Distinct(addrs) && k < |addrs|
    ensures RoundInv(c, db, Next(UnpinSteps(db, addrs, now), pending, k), addrs, now, k + 1)
  {
    var e := SetUnpin(db, pending.batch, addrs[k], now(k));
    var next := Next(UnpinSteps(db, addrs, now), pending, k);
    assert SetAt(c, ModeUnpin, db, pending.batch, addrs, now, k, addrs[k]);
    assert AddrOk(db, addrs[k]);
    SetUnpinSound(db, pending.batch, addrs[k], now(k));
    SetUnpinOnlyPinned(db, pending.batch, addrs[k], now(k));
    SetStepKeeps(c, ModeUnpin, db, pending, addrs, now, k, e, next);
  }

  ghost function RoundInvOf(c: Config, db: Indexes, addrs: seq<Address>, now: nat -> int): (Effect, nat) -> bool {
    (p: Effect, j: nat) => RoundInv(c, db, p, addrs, now, j)
  }

  lemma RoundInvSteps(c: Config, db: Indexes, addrs: seq<Address>, now: nat -> int, p: Effect, j: nat)
    requires j < |addrs| && Distinct(addrs) && RoundInvOf(c, db, addrs, now)(p, j)
    ensures RoundInvOf(c, db, addrs, now)(Next(UnpinSteps(db, addrs, now), p, j), j + 1)
  {
    UnpinNextKeeps(c, db, addrs, now, p, j);
  }

  lemma RoundFoldKeeps(c: Config, db: Indexes, addrs: seq<Address>, now: nat -> int)
    requires Good(db) && Distinct(addrs)
    ensures RoundInv(c, db, Fold(UnpinSteps(db, addrs, now), Effect(db, 0, None), |addrs|, 0), addrs, now, |addrs|)
  {
    var step := UnpinSteps(db, addrs, now);
    var inv := RoundInvOf(c, db, addrs, now);
    FirstSetInv(c, ModeUnpin, db, addrs, now);
    SameAtAll(db);
    assert inv(Effect(db, 0, None), 0);
    forall p: Effect, j: nat | j < |addrs| && inv(p, j) ensures inv(Next(step, p, j), j + 1) {
      RoundInvSteps(c, db, addrs, now, p, j);
    }
    FoldKeeps(step, inv, Effect(db, 0, None), |addrs|, 0);
    FoldNoError(step, Effect(db, 0, None), |addrs|, 0);
  }

  /** What unreserving keeps, from one state to a later one. */
  ghost predicate OnlyUnreserved(x: Indexes, y: Indexes) {
    Good(y) && Excess(y) == Excess(x) && OnlyPinned(x, y)
  }

  lemma OnlyPinnedSized(db: Indexes, batch: Indexes, after: Indexes)
    requires OnlyPinned(db, batch) && after == batch.(gcSize := after.gcSize)
    ensures OnlyPinned(db, after)
  {
    forall x | x !in db.pin ensures SameAt(db, after, x) {
      SizeOnly(batch, after, x);
      SameAtTrans(db, batch, after, x);
    }
  }

  lemma UnpinRoundKeeps(c: Config, db: Indexes, addrs: seq<Address>, now: nat -> int)
    requires Good(db) && Distinct(addrs)
    ensures OnlyUnreserved(db, UnpinRound(db, addrs, now))
  {
    var e := Fold(UnpinSteps(db, addrs, now), Effect(db, 0, None), |addrs|, 0);
    RoundFoldKeeps(c, db, addrs, now);
    SetInvEnd(c, ModeUnpin, db, e, addrs, now, Commit(db, e));
    DistinctCountsOnce(ModeUnpin, db, addrs, |addrs|);
    OnlyPinnedSized(db, e.batch, Commit(db, e));
  }

  lemma OnlyUnreservedTrans(x: Indexes, y: Indexes, z: Indexes)
    requires OnlyUnreserved(x, y) && OnlyUnreserved(y, z)
    ensures OnlyUnreserved(x, z)
  {
    forall a | a !in x.pin ensures SameAt(x, z, a) {
      assert SameAt(x, y, a);
      SameAtTrans(x, y, z, a);
    }
  }

  /** Unreserving keeps the partition and the exact distance of gcSize, whatever the rounds meet. */
  lemma {:induction false} UnpinAllKeeps(c: Config, db: Indexes, addrs: seq<Address>, now: nat -> int)
    requires Good(db) && Distinct(addrs)
    ensures OnlyUnreserved(db, UnpinAll(db, addrs, now))
    decreases |addrs|
  {
    if |addrs| <= UNPIN_BATCH_SIZE + 1 {
      UnpinRoundKeeps(c, db, addrs, now);
    } else {
      var round := addrs[..UNPIN_BATCH_SIZE + 1];
      UnpinRoundKeeps(c, db, round, now);
      var mid := UnpinRound(db, round, now);
      UnpinAllKeeps(c, mid, addrs[UNPIN_BATCH_SIZE + 1..], Later(now));
      OnlyUnreservedTrans(db, mid, UnpinAll(db, addrs, now));
    }
  }
}
