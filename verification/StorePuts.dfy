/** Whole calls of Put. */
module StorePuts {
  import opened Wrappers

  import opened StoreIndexes
  import opened StoreOps
  import opened StoreLemmas
  import opened StoreCalls

  /** containsChunk over the chunks before the k-th one. */
  predicate First(chs: seq<Chunk>, k: nat)
    requires k < |chs|
  {
    forall j :: 0 <= j < k ==> chs[j].addr != chs[k].addr
  }

  function PutSteps(c: Config, kind: PutKind, db: Indexes, chs: seq<Chunk>, now: nat -> Times): Steps {
    (batch: Indexes, k: nat) =>
      if k < |chs| && First(chs, k) then PutChunk(c, kind, db, batch, chs[k], now(k)) else Effect(batch, 0, None)
  }

  predicate Pins(kind: PutKind) {
    match kind
    case Request(pin, _) => pin
    case Upload(pin) => pin
    case Sync => false
  }

  function PutCall(c: Config, kind: PutKind, db: Indexes, chs: seq<Chunk>, now: nat -> Times): Indexes {
    if |chs| == 1 && !Pins(kind) && chs[0].addr in db.data then
      db
    else
      var e := Fold(PutSteps(c, kind, db, chs, now), Effect(db, 0, None), |chs|, 0);
      if e.err.Some? then db else Commit(db, e)
  }

  // ----- the older owners of stamp slots -----

  /** The owners whose slots the first k chunks of a put take over. */
  function Owners(db: Indexes, chs: seq<Chunk>, k: nat): set<Address>
    requires k <= |chs|
  {
    if k == 0 then {}
    else
      Owners(db, chs, k - 1) +
      if First(chs, k - 1) && Replaced(db, chs[k - 1]).Some? then {Replaced(db, chs[k - 1]).value} else {}
  }

  /** Those of them that are in the gc index. */
  function CachedOwners(db: Indexes, chs: seq<Chunk>, k: nat): set<Address>
    requires k <= |chs|
  {
    set x | x in Owners(db, chs, k) && InCache(db, x)
  }

  /** Whether the k-th chunk takes over the slot of a chunk in the gc index. */
  predicate TakesCached(db: Indexes, chs: seq<Chunk>, k: nat)
    requires k < |chs|
  {
    First(chs, k) && Replaced(db, chs[k]).Some? && InCache(db, Replaced(db, chs[k]).value)
  }

  /** How often the first k chunks take over the slot of a chunk in the gc index. */
  function Takeovers(db: Indexes, chs: seq<Chunk>, k: nat): nat
    requires k <= |chs|
  {
    if k == 0 then 0 else Takeovers(db, chs, k - 1) + if TakesCached(db, chs, k - 1) then 1 else 0
  }

  /** The takeovers the counter hears of: uploads and syncs drop the change that setRemove returns. */
  function Counted(kind: PutKind, db: Indexes, chs: seq<Chunk>, k: nat): nat
    requires k <= |chs|
  {
    if kind.Request? then Takeovers(db, chs, k) else 0
  }

  /** A new chunk is put into the gc index: it has no pin, and is a forced cache entry or outside the radius. */
  predicate GoesToCache(c: Config, kind: PutKind, db: Indexes, ch: Chunk) {
    && ch.addr !in db.data && ch.addr !in db.pin && (SlotOf(db, ch).Free? || SlotOf(db, ch).Replace?)
    && match kind
       case Request(pin, cache) => cache || !(c.Within(ch.addr, ch.radius) || pin)
       case Upload(_) => false
       case Sync => !c.Within(ch.addr, ch.radius)
  }

  /** How many of the first k chunks are put into the gc index. */
  function Added(c: Config, kind: PutKind, db: Indexes, chs: seq<Chunk>, k: nat): nat
    requires k <= |chs|
  {
    if k == 0 then 0
    else Added(c, kind, db, chs, k - 1) + if First(chs, k - 1) && GoesToCache(c, kind, db, chs[k - 1]) then 1 else 0
  }

  lemma PutNewCounts(c: Config, kind: PutKind, db: Indexes, batch: Indexes, ch: Chunk, t: Times)
    requires AddrOk(db, ch.addr) && ch.addr !in db.data && (SlotOf(db, ch).Free? || SlotOf(db, ch).Replace?)
    ensures PutNew(c, kind, db, batch, ch, t).gcChange == if GoesToCache(c, kind, db, ch) then 1 else 0
  {
    assert GcKey(t.access, NextBinID(batch, c.po(ch.addr)), ch.addr) !in db.gc;
  }

  /** The counter change of one chunk depends on the committed state alone. */
  lemma PutChunkCounts(c: Config, kind: PutKind, db: Indexes, batch: Indexes, ch: Chunk, t: Times)
    requires AddrOk(db, ch.addr) && PutChunk(c, kind, db, batch, ch, t).err.None?
    ensures PutChunk(c, kind, db, batch, ch, t).gcChange ==
      (if GoesToCache(c, kind, db, ch) then 1 else 0) - CountedNow(kind, db, ch)
  {
    if ch.addr !in db.data {
      PutOpCounts(c, kind, db, batch, ch, t);
      if kind.Upload? && kind.pin {
        assert ch.addr !in db.access;
      }
    }
  }

  lemma PutOpCounts(c: Config, kind: PutKind, db: Indexes, batch: Indexes, ch: Chunk, t: Times)
    requires AddrOk(db, ch.addr) && ch.addr !in db.data && PutOp(c, kind, db, batch, ch, t).err.None?
    ensures PutOp(c, kind, db, batch, ch, t).gcChange ==
      (if GoesToCache(c, kind, db, ch) then 1 else 0) - CountedNow(kind, db, ch)
  {
    match SlotOf(db, ch) {
      case Free => PutNewCounts(c, kind, db, batch, ch, t);
      case Keep =>
      case Refuse =>
      case Replace(prev) =>
        PutOverShape(c, kind, db, batch, ch, t, prev);
        PutNewCounts(c, kind, db, SetRemove(c, db, batch, prev).batch, ch, t);
        SetRemoveChange(c, db, batch, prev);
    }
  }

  /** Two new chunks of the call take over slots of the same chunk in the gc index. */
  ghost predicate SharedOwnerIn(db: Indexes, chs: seq<Chunk>, k: nat)
    requires k <= |chs|
  {
    exists i: nat, j: nat :: i < j < k && TakesCached(db, chs, i) && TakesCached(db, chs, j) &&
                             Replaced(db, chs[i]) == Replaced(db, chs[j])
  }

  ghost predicate SharedOwner(db: Indexes, chs: seq<Chunk>) {
    SharedOwnerIn(db, chs, |chs|)
  }

  lemma {:induction false} OwnerCame(db: Indexes, chs: seq<Chunk>, k: nat, x: Address)
    requires k <= |chs|
    ensures x in Owners(db, chs, k) <==> exists j: nat :: j < k && First(chs, j) && Replaced(db, chs[j]) == Some(x)
    decreases k
  {
    if k > 0 {
      OwnerCame(db, chs, k - 1, x);
      if j: nat :| j < k && First(chs, j) && Replaced(db, chs[j]) == Some(x) {
        assert j < k - 1 || j == k - 1;
      }
    }
  }

  lemma CachedOwnersNext(db: Indexes, chs: seq<Chunk>, k: nat)
    requires k < |chs|
    ensures
      var next := CachedOwners(db, chs, k + 1);
      if TakesCached(db, chs, k) then next == CachedOwners(db, chs, k) + {Replaced(db, chs[k]).value}
      else next == CachedOwners(db, chs, k)
    ensures |CachedOwners(db, chs, k + 1)| == |CachedOwners(db, chs, k)| +
      if TakesCached(db, chs, k) && Replaced(db, chs[k]).value !in Owners(db, chs, k) then 1 else 0
  {
    if TakesCached(db, chs, k) {
      assert CachedOwners(db, chs, k + 1) == CachedOwners(db, chs, k) + {Replaced(db, chs[k]).value};
    } else {
      assert CachedOwners(db, chs, k + 1) == CachedOwners(db, chs, k);
    }
  }

  /** Every takeover removes an entry of its own exactly when no owner is shared. */
  lemma {:induction false} SharedIffFewer(db: Indexes, chs: seq<Chunk>, k: nat)
    requires k <= |chs|
    ensures |CachedOwners(db, chs, k)| <= Takeovers(db, chs, k)
    ensures |CachedOwners(db, chs, k)| < Takeovers(db, chs, k) <==> SharedOwnerIn(db, chs, k)
    decreases k
  {
    if k == 0 {
      assert CachedOwners(db, chs, 0) == {};
    } else {
      SharedIffFewer(db, chs, k - 1);
      CachedOwnersNext(db, chs, k - 1);
      if TakesCached(db, chs, k - 1) {
        OwnerCame(db, chs, k - 1, Replaced(db, chs[k - 1]).value);
      }
      SharedNext(db, chs, k - 1);
    }
  }

  lemma SharedNext(db: Indexes, chs: seq<Chunk>, k: nat)
    requires k < |chs|
    ensures SharedOwnerIn(db, chs, k + 1) <==>
      SharedOwnerIn(db, chs, k) || (TakesCached(db, chs, k) && Replaced(db, chs[k]).value in Owners(db, chs, k))
  {
    if TakesCached(db, chs, k) {
      OwnerCame(db, chs, k, Replaced(db, chs[k]).value);
    }
    if SharedOwnerIn(db, chs, k + 1) {
      var i: nat, j: nat :| i < j < k + 1 && TakesCached(db, chs, i) && TakesCached(db, chs, j) &&
                            Replaced(db, chs[i]) == Replaced(db, chs[j]);
      assert j < k ==> SharedOwnerIn(db, chs, k);
    }
    if SharedOwnerIn(db, chs, k) {
      var i: nat, j: nat :| i < j < k && TakesCached(db, chs, i) && TakesCached(db, chs, j) &&
                            Replaced(db, chs[i]) == Replaced(db, chs[j]);
      assert j < k + 1;
    }
    if TakesCached(db, chs, k) && Replaced(db, chs[k]).value in Owners(db, chs, k) {
      var i: nat :| i < k && First(chs, i) && Replaced(db, chs[i]) == Some(Replaced(db, chs[k]).value);
      assert TakesCached(db, chs, i) && i < k < k + 1;
    }
  }

  // ----- the loop -----

  function Addresses(chs: seq<Chunk>): seq<Address> {
    seq(|chs|, i requires 0 <= i < |chs| => chs[i].addr)
  }

  /** One of the first k chunks has the address, and it was not stored before. */
  ghost predicate NewBy(db: Indexes, chs: seq<Chunk>, k: nat, x: Address)
    requires k <= |chs|
  {
    x !in db.data && exists j :: 0 <= j < k && chs[j].addr == x
  }

  /** The owners of the slots taken over are gone, and all chunks but the new ones are as committed. */
  ghost predicate OwnersGone(db: Indexes, batch: Indexes, chs: seq<Chunk>, k: nat)
    requires k <= |chs|
  {
    && (forall x :: x in Owners(db, chs, k) ==> x in db.data && Gone(batch, x))
    && (forall x :: x !in Owners(db, chs, k) && !NewBy(db, chs, k, x) ==> SameAt(db, batch, x))
  }

  /** What holds before the k-th chunk of a put call. */
  ghost predicate PutInv(c: Config, kind: PutKind, db: Indexes, pending: Effect, chs: seq<Chunk>, k: nat) {
    && k <= |chs|
    && Partition(db) && Partition(pending.batch)
    && OwnersGone(db, pending.batch, chs, k)
    && pending.gcChange == Added(c, kind, db, chs, k) - Counted(kind, db, chs, k)
    && |pending.batch.gc| == |db.gc| + Added(c, kind, db, chs, k) - |CachedOwners(db, chs, k)|
  }

  lemma PutKeepsPartition(c: Config, kind: PutKind, db: Indexes, batch: Indexes, ch: Chunk, e: Effect)
    requires Partition(batch) && PutSound(c, kind, db, batch, ch, e)
    ensures Partition(e.batch)
  {
    forall x ensures AddrOk(e.batch, x) {
      if x !in Touched(db, ch) {
        assert SameAt(batch, e.batch, x);
        SameAtOk(batch, e.batch, x);
      }
    }
  }

  /** A first chunk that is not stored yet finds its own address as committed, and its slot's owner too, or gone. */
  lemma PutFinds(c: Config, kind: PutKind, db: Indexes, pending: Effect, chs: seq<Chunk>, k: nat)
    requires PutInv(c, kind, db, pending, chs, k) && k < |chs| && First(chs, k)
    ensures chs[k].addr !in db.data ==> Pending(db, pending.batch, chs[k].addr)
    ensures Replaced(db, chs[k]).Some? && Replaced(db, chs[k]).value in db.data ==>
      Removable(db, pending.batch, Replaced(db, chs[k]).value)
  {
    assert AddrOk(db, chs[k].addr);
    if chs[k].addr !in db.data {
      assert !NewBy(db, chs, k, chs[k].addr);
    }
    if Replaced(db, chs[k]).Some? {
      var prev := Replaced(db, chs[k]).value;
      assert AddrOk(db, prev);
      if prev in db.data && prev !in Owners(db, chs, k) {
        assert !NewBy(db, chs, k, prev);
      }
    }
  }

  lemma OwnersNext(db: Indexes, chs: seq<Chunk>, k: nat)
    requires k < |chs| && First(chs, k)
    ensures Owners(db, chs, k + 1) ==
      Owners(db, chs, k) + if Replaced(db, chs[k]).Some? then {Replaced(db, chs[k]).value} else {}
  {
  }

  /** What the put of one more chunk leaves of the other ones. */
  lemma PutKeepsOthers(db: Indexes, batch: Indexes, chs: seq<Chunk>, k: nat, after: Indexes)
    requires k < |chs| && First(chs, k) && OwnersGone(db, batch, chs, k)
    requires OnlyAt(batch, after, Touched(db, chs[k]))
    requires Replaced(db, chs[k]).Some? ==> Replaced(db, chs[k]).value in db.data && Gone(after, Replaced(db, chs[k]).value)
    ensures OwnersGone(db, after, chs, k + 1)
  {
    OwnersNext(db, chs, k);
    forall x | x in Owners(db, chs, k + 1) ensures x in db.data && Gone(after, x) {
      if x !in Touched(db, chs[k]) {
        SameAtGone(batch, after, x);
      }
    }
    forall x | x !in Owners(db, chs, k + 1) && !NewBy(db, chs, k + 1, x) ensures SameAt(db, after, x) {
      assert x in db.data || x != chs[k].addr;
      assert !NewBy(db, chs, k, x);
      assert x !in Touched(db, chs[k]);
      SameAtTrans(db, batch, after, x);
    }
  }

  lemma PutCounts(c: Config, kind: PutKind, db: Indexes, pending: Effect, chs: seq<Chunk>, k: nat, e: Effect)
    requires PutInv(c, kind, db, pending, chs, k) && k < |chs| && First(chs, k)
    requires PutSound(c, kind, db, pending.batch, chs[k], e)
    requires Replaced(db, chs[k]).Some? ==> Replaced(db, chs[k]).value in db.data
    requires e.gcChange == (if GoesToCache(c, kind, db, chs[k]) then 1 else 0) - CountedNow(kind, db, chs[k])
    ensures |e.batch.gc| == |db.gc| + Added(c, kind, db, chs, k + 1) - |CachedOwners(db, chs, k + 1)|
  {
    CachedOwnersNext(db, chs, k);
    if TakesCached(db, chs, k) {
      var prev := Replaced(db, chs[k]).value;
      assert prev !in Owners(db, chs, k) ==> !NewBy(db, chs, k, prev) && SameAt(db, pending.batch, prev);
      assert prev in pending.batch.data <==> prev !in Owners(db, chs, k);
    }
  }

  lemma PutStepKeeps(c: Config, kind: PutKind, db: Indexes, pending: Effect, chs: seq<Chunk>, k: nat,
                     now: Times, e: Effect, next: Effect)
    requires PutInv(c, kind, db, pending, chs, k) && k < |chs| && First(chs, k)
    requires e == PutChunk(c, kind, db, pending.batch, chs[k], now) && e.err.None?
    requires next == e.(gcChange := pending.gcChange + e.gcChange)
    ensures PutInv(c, kind, db, next, chs, k + 1)
  {
    PutFinds(c, kind, db, pending, chs, k);
    PutChunkSound(c, kind, db, pending.batch, chs[k], now, e);
    OwnerStored(c, kind, db, pending.batch, chs[k], now);
    PutKeepsPartition(c, kind, db, pending.batch, chs[k], e);
    PutKeepsOthers(db, pending.batch, chs, k, e.batch);
    assert AddrOk(db, chs[k].addr);
    PutChunkCounts(c, kind, db, pending.batch, chs[k], now);
    PutCounts(c, kind, db, pending, chs, k, e);
  }

  lemma OwnerStored(c: Config, kind: PutKind, db: Indexes, batch: Indexes, ch: Chunk, now: Times)
    requires PutChunk(c, kind, db, batch, ch, now).err.None?
    ensures Replaced(db, ch).Some? ==> Replaced(db, ch).value in db.data
  {
    if Replaced(db, ch).Some? {
      PutOverShape(c, kind, db, batch, ch, now, Replaced(db, ch).value);
    }
  }

  lemma PutSkipKeeps(c: Config, kind: PutKind, db: Indexes, pending: Effect, chs: seq<Chunk>, k: nat)
    requires PutInv(c, kind, db, pending, chs, k) && k < |chs| && !First(chs, k)
    ensures PutInv(c, kind, db, pending, chs, k + 1)
  {
    CachedOwnersNext(db, chs, k);
    SkipKeepsOthers(db, pending.batch, chs, k);
  }

  lemma SkipKeepsOthers(db: Indexes, batch: Indexes, chs: seq<Chunk>, k: nat)
    requires k < |chs| && !First(chs, k) && OwnersGone(db, batch, chs, k)
    ensures OwnersGone(db, batch, chs, k + 1)
  {
    var next := k + 1;
    forall x | NewBy(db, chs, k, x) ensures NewBy(db, chs, next, x) {
    }
  }

  lemma PutNextKeeps(c: Config, kind: PutKind, db: Indexes, chs: seq<Chunk>, now: nat -> Times, pending: Effect, k: nat)
    requires PutInv(c, kind, db, pending, chs, k) && k < |chs|
    requires Next(PutSteps(c, kind, db, chs, now), pending, k).err.None?
    ensures PutInv(c, kind, db, Next(PutSteps(c, kind, db, chs, now), pending, k), chs, k + 1)
  {
    var next := Next(PutSteps(c, kind, db, chs, now), pending, k);
    if First(chs, k) {
      PutStepKeeps(c, kind, db, pending, chs, k, now(k), PutChunk(c, kind, db, pending.batch, chs[k], now(k)), next);
    } else {
      PutSkipKeeps(c, kind, db, pending.(err := None), chs, k);
    }
  }

  lemma FirstPutInv(c: Config, kind: PutKind, db: Indexes, chs: seq<Chunk>)
    requires Partition(db)
    ensures PutInv(c, kind, db, Effect(db, 0, None), chs, 0)
  {
    assert CachedOwners(db, chs, 0) == {};
  }

  /** PutInv as a property of a pending batch and a position. */
  ghost function PutInvOf(c: Config, kind: PutKind, db: Indexes, chs: seq<Chunk>): (Effect, nat) -> bool {
    (p: Effect, j: nat) => PutInv(c, kind, db, p, chs, j)
  }

  lemma PutInvSteps(c: Config, kind: PutKind, db: Indexes, chs: seq<Chunk>, now: nat -> Times, p: Effect, j: nat)
    requires j < |chs| && PutInvOf(c, kind, db, chs)(p, j) && Next(PutSteps(c, kind, db, chs, now), p, j).err.None?
    ensures PutInvOf(c, kind, db, chs)(Next(PutSteps(c, kind, db, chs, now), p, j), j + 1)
  {
    PutNextKeeps(c, kind, db, chs, now, p, j);
  }

  lemma PutFoldKeeps(c: Config, kind: PutKind, db: Indexes, chs: seq<Chunk>, now: nat -> Times)
    requires Partition(db)
    ensures
      var e := Fold(PutSteps(c, kind, db, chs, now), Effect(db, 0, None), |chs|, 0);
      e.err.Some? || PutInv(c, kind, db, e, chs, |chs|)
  {
    var step := PutSteps(c, kind, db, chs, now);
    var inv := PutInvOf(c, kind, db, chs);
    FirstPutInv(c, kind, db, chs);
    forall p: Effect, j: nat | j < |chs| && inv(p, j) && Next(step, p, j).err.None? ensures inv(Next(step, p, j), j + 1) {
      PutInvSteps(c, kind, db, chs, now, p, j);
    }
    FoldKeeps(step, inv, Effect(db, 0, None), |chs|, 0);
  }

  // ----- the call -----

  /** The put call went through to its commit. */
  predicate Commits(c: Config, kind: PutKind, db: Indexes, chs: seq<Chunk>, now: nat -> Times) {
    && !(|chs| == 1 && !Pins(kind) && chs[0].addr in db.data)
    && Fold(PutSteps(c, kind, db, chs, now), Effect(db, 0, None), |chs|, 0).err.None?
  }

  /** How a put call moves the counter against the entries it counts. */
  function PutDrift(c: Config, kind: PutKind, db: Indexes, chs: seq<Chunk>, now: nat -> Times): int {
    if Commits(c, kind, db, chs, now) then
      var counted := Counted(kind, db, chs, |chs|);
      |CachedOwners(db, chs, |chs|)| - counted + Underflow(db.gcSize, Added(c, kind, db, chs, |chs|) - counted)
    else 0
  }

  /** The chunk is as committed, or gone. */
  ghost predicate KeptOrGone(db: Indexes, batch: Indexes, x: Address) {
    SameAt(db, batch, x) || Gone(batch, x)
  }

  /**
   Put keeps the partition in every mode, whatever slots its chunks take over. The counter moves
   against the gc index by the cached chunks that were removed less the removals that were counted.
   */
  lemma PutCallKeeps(c: Config, kind: PutKind, db: Indexes, chs: seq<Chunk>, now: nat -> Times)
    requires Partition(db)
    ensures Partition(PutCall(c, kind, db, chs, now))
    ensures Excess(PutCall(c, kind, db, chs, now)) == Excess(db) + PutDrift(c, kind, db, chs, now)
    ensures forall x :: x !in Addresses(chs) ==> KeptOrGone(db, PutCall(c, kind, db, chs, now), x)
  {
    if Commits(c, kind, db, chs, now) {
      PutFoldKeeps(c, kind, db, chs, now);
      var e := Fold(PutSteps(c, kind, db, chs, now), Effect(db, 0, None), |chs|, 0);
      CommitMoves(db, e, Counted(kind, db, chs, |chs|) - |CachedOwners(db, chs, |chs|)|);
      PutInvEnd(c, kind, db, e, chs, Commit(db, e));
    }
  }

  lemma PutInvAt(c: Config, kind: PutKind, db: Indexes, e: Effect, chs: seq<Chunk>, x: Address)
    requires PutInv(c, kind, db, e, chs, |chs|) && x !in Addresses(chs)
    ensures KeptOrGone(db, e.batch, x)
  {
    assert forall j :: 0 <= j < |chs| ==> Addresses(chs)[j] == chs[j].addr;
    assert !NewBy(db, chs, |chs|, x);
  }

  lemma PutInvEnd(c: Config, kind: PutKind, db: Indexes, e: Effect, chs: seq<Chunk>, after: Indexes)
    requires PutInv(c, kind, db, e, chs, |chs|) && after == Commit(db, e)
    ensures Partition(after)
    ensures forall x :: x !in Addresses(chs) ==> KeptOrGone(db, after, x)
  {
    forall x ensures AddrOk(after, x) {
      assert AddrOk(e.batch, x);
      SizeOnly(e.batch, after, x);
    }
    forall x | x !in Addresses(chs) ensures KeptOrGone(db, after, x) {
      PutInvAt(c, kind, db, e, chs, x);
      KeptOrGoneSized(db, e.batch, after, x);
    }
  }

  lemma KeptOrGoneSized(db: Indexes, batch: Indexes, after: Indexes, x: Address)
    requires KeptOrGone(db, batch, x) && after == batch.(gcSize := after.gcSize)
    ensures KeptOrGone(db, after, x)
  {
    SizeOnly(batch, after, x);
    if SameAt(db, batch, x) {
      SameAtTrans(db, batch, after, x);
    } else {
      SameAtGone(batch, after, x);
    }
  }

  /**
   When a put moves the counter down against the gc index. If it counts no more removals than the
   counter and the new entries can bear: exactly a request two of whose new chunks take over slots
   of the same cached chunk. Otherwise the underflow guard drops the whole change, which only such a
   request can bring about, and the counter falls behind exactly if the put adds more entries than
   there are cached chunks it removes.
   */
  lemma PutFallsBehindIff(c: Config, kind: PutKind, db: Indexes, chs: seq<Chunk>, now: nat -> Times)
    requires Partition(db) && Commits(c, kind, db, chs, now)
    ensures
      var after := PutCall(c, kind, db, chs, now);
      var added, counted := Added(c, kind, db, chs, |chs|), Counted(kind, db, chs, |chs|);
      && (counted <= db.gcSize + added ==>
            (Excess(after) < Excess(db) <==> kind.Request? && SharedOwner(db, chs)))
      && (counted > db.gcSize + added ==>
            && (Excess(db) >= 0 ==> kind.Request? && SharedOwner(db, chs))
            && (Excess(after) < Excess(db) <==> added > |CachedOwners(db, chs, |chs|)|))
  {
    PutCallKeeps(c, kind, db, chs, now);
    SharedIffFewer(db, chs, |chs|);
    PutFoldKeeps(c, kind, db, chs, now);
  }

  /** Everywhere else the counter can only gain: by the cached chunks that uploads and syncs remove. */
  lemma PutGains(c: Config, kind: PutKind, db: Indexes, chs: seq<Chunk>, now: nat -> Times)
    requires Partition(db) && Excess(db) >= 0 && !(kind.Request? && SharedOwner(db, chs))
    ensures PutDrift(c, kind, db, chs, now) ==
      if Commits(c, kind, db, chs, now) && !kind.Request? then |CachedOwners(db, chs, |chs|)| else 0
  {
    SharedIffFewer(db, chs, |chs|);
    PutFoldKeeps(c, kind, db, chs, now);
  }
}
