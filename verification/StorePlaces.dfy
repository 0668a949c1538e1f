/** The pull and postage entries of stored chunks: which of them a put leaves behind, and how long they stay. */
module StorePlaces {
  import opened Wrappers

  import opened StoreIndexes
  import opened StoreOps
  import opened StoreLemmas
  import opened StoreCalls
  import opened StorePuts
  import opened StoreStatus
  import opened StoreGc
  import opened StoreRuns
  import opened StoreGrowth
  import opened StoreUnreserve

  // ----- one chunk -----

  /** The key of a stored chunk in the pull index. */
  function PullKeyOf(c: Config, ix: Indexes, a: Address): PullKey
    requires a in ix.data
  {
    PullKey(c.po(a), ix.data[a].binID)
  }

  /** The data and side entries after a chunk was stored. */
  function Placed(c: Config, batch: Indexes, ch: Chunk, now: int, pulled: bool): (map<Address, DataEntry>, Side) {
    var po := c.po(ch.addr);
    var id := Counter(batch, po) + 1;
    (batch.data[ch.addr := DataEntry(now, id, ch.slot, ch.stampTs)],
     Side(if pulled then batch.side.pull[PullKey(po, id) := ch.addr] else batch.side.pull,
          batch.side.chunks + {ChunkKey(ch.slot.batch, po, ch.addr)},
          batch.side.slots[ch.slot := Occupant(ch.addr, ch.stampTs)],
          batch.side.radius,
          batch.side.binIDs[po := id]))
  }

  /** And after the removal of one. */
  function Displaced(c: Config, db: Indexes, batch: Indexes, a: Address): (map<Address, DataEntry>, Side)
    requires a in db.data
  {
    var e := db.data[a];
    (batch.data - {a},
     Side(batch.side.pull - {PullKey(c.po(a), e.binID)},
          batch.side.chunks - {ChunkKey(e.slot.batch, c.po(a), a)},
          batch.side.slots - {e.slot},
          batch.side.radius,
          batch.side.binIDs))
  }

  lemma SetRemovePlaces(c: Config, db: Indexes, batch: Indexes, a: Address)
    requires a in db.data
    ensures var after := SetRemove(c, db, batch, a).batch; (after.data, after.side) == Displaced(c, db, batch, a)
  {
    var key := GcKey(if a in db.access then db.access[a] else 0, db.data[a].binID, a);
    if key in db.gc {
    } else {
    }
  }

  /** Every new chunk goes to the pull index but one that a request forces into the cache. */
  predicate Pulled(kind: PutKind) {
    !(kind.Request? && kind.cache)
  }

  lemma StoredPlaces(c: Config, batch: Indexes, ch: Chunk, now: int, pulled: bool)
    ensures var after := Stored(c, batch, ch, now, pulled); (after.data, after.side) == Placed(c, batch, ch, now, pulled)
  {
  }

  lemma PutNewPlaces(c: Config, kind: PutKind, db: Indexes, batch: Indexes, ch: Chunk, t: Times)
    ensures
      var after := PutNew(c, kind, db, batch, ch, t).batch;
      (after.data, after.side) == Placed(c, batch, ch, t.store, Pulled(kind))
  {
    StoredPlaces(c, batch, ch, t.store, Pulled(kind));
    match kind {
      case Request(pin, cache) =>
        PreserveShrinks(c, db, Accessed(c, batch, ch, t, !cache), NewItem(c, batch, ch, t), pin, cache);
      case Upload(_) =>
      case Sync => PreserveShrinks(c, db, Accessed(c, batch, ch, t, true), NewItem(c, batch, ch, t), false, false);
    }
  }

  /** The chunk is new and gets stored: its stamp slot is not held by the same or a later stamp. */
  predicate Stores(db: Indexes, ch: Chunk) {
    ch.addr !in db.data && (SlotOf(db, ch).Free? || (SlotOf(db, ch).Replace? && SlotOf(db, ch).prev in db.data))
  }

  /** The state without the owner whose slot a chunk takes over. */
  function Cleared(c: Config, db: Indexes, batch: Indexes, ch: Chunk): Indexes
    requires Stores(db, ch)
  {
    if SlotOf(db, ch).Free? then batch else SetRemove(c, db, batch, SlotOf(db, ch).prev).batch
  }

  lemma PutChunkPlaces(c: Config, kind: PutKind, db: Indexes, batch: Indexes, ch: Chunk, t: Times)
    requires Stores(db, ch)
    ensures
      var after := PutChunk(c, kind, db, batch, ch, t).batch;
      (after.data, after.side) == Placed(c, Cleared(c, db, batch, ch), ch, t.store, Pulled(kind))
  {
    var cleared := Cleared(c, db, batch, ch);
    PutNewPlaces(c, kind, db, cleared, ch, t);
    if SlotOf(db, ch).Replace? {
      PutOverShape(c, kind, db, batch, ch, t, SlotOf(db, ch).prev);
    }
    var put := PutOp(c, kind, db, batch, ch, t);
    SetPinShrinks(db, put.batch, ch.addr);
  }

  lemma PutChunkElse(c: Config, kind: PutKind, db: Indexes, batch: Indexes, ch: Chunk, t: Times)
    requires !Stores(db, ch) && PutChunk(c, kind, db, batch, ch, t).err.None?
    ensures var after := PutChunk(c, kind, db, batch, ch, t).batch; after.data == batch.data && after.side == batch.side
  {
    if ch.addr !in db.data {
      if SlotOf(db, ch).Replace? {
        PutOverShape(c, kind, db, batch, ch, t, SlotOf(db, ch).prev);
      }
      SetPinShrinks(db, PutOp(c, kind, db, batch, ch, t).batch, ch.addr);
    }
  }

  // ----- what holds of every store -----

  predicate IdsApart(c: Config, ix: Indexes, a: Address, b: Address) {
    a != b && a in ix.data && b in ix.data && c.po(a) == c.po(b) ==> ix.data[a].binID != ix.data[b].binID
  }

  /** No id is given out twice in a bin or beyond its counter, and chunks are listed under their own proximity order. */
  ghost predicate Tidy(c: Config, ix: Indexes) {
    CountersOk(c, ix) && Filed(c, ix) && forall a, b :: IdsApart(c, ix, a, b)
  }

  /** A chunk that stays as it is keeps its pull entry. */
  predicate PullKeptAt(c: Config, x: Indexes, y: Indexes, a: Address) {
    a in x.data && a in y.data && y.data[a] == x.data[a] && PullKeyOf(c, x, a) in x.side.pull ==>
      PullKeyOf(c, x, a) in y.side.pull && y.side.pull[PullKeyOf(c, x, a)] == x.side.pull[PullKeyOf(c, x, a)]
  }

  ghost predicate PullKept(c: Config, x: Indexes, y: Indexes) {
    forall a :: PullKeptAt(c, x, y, a)
  }

  lemma SameSideTidy(c: Config, x: Indexes, y: Indexes)
    requires Tidy(c, x) && y.data == x.data && y.side == x.side.(radius := y.side.radius)
    ensures Tidy(c, y) && PullKept(c, x, y)
  {
    forall a, b ensures IdsApart(c, y, a, b) {
      assert IdsApart(c, x, a, b);
    }
    forall k {:trigger k in y.side.pull} | k in y.side.pull ensures k.binID <= Counter(y, k.po) {
      assert Counter(y, k.po) == Counter(x, k.po);
    }
    forall a {:trigger a in y.data} | a in y.data ensures y.data[a].binID <= Counter(y, c.po(a)) {
      assert Counter(y, c.po(a)) == Counter(x, c.po(a));
    }
  }

  /** A chunk goes, and with it at least its pull entry; nothing comes. */
  ghost predicate Leaves(c: Config, db: Indexes, batch: Indexes, a: Address, after: Indexes) {
    && a in db.data && after.data == batch.data - {a}
    && after.side.pull == batch.side.pull - {PullKeyOf(c, db, a)}
    && after.side.binIDs == batch.side.binIDs && after.side.chunks <= batch.side.chunks
  }

  lemma LeavesTidy(c: Config, db: Indexes, batch: Indexes, a: Address, after: Indexes)
    requires Tidy(c, batch) && Leaves(c, db, batch, a, after)
    ensures Tidy(c, after)
  {
    forall x, y ensures IdsApart(c, after, x, y) {
      assert IdsApart(c, batch, x, y);
    }
    forall k {:trigger k in after.side.pull} | k in after.side.pull ensures k.binID <= Counter(after, k.po) {
      assert Counter(after, k.po) == Counter(batch, k.po);
    }
    forall x {:trigger x in after.data} | x in after.data ensures after.data[x].binID <= Counter(after, c.po(x)) {
      assert Counter(after, c.po(x)) == Counter(batch, c.po(x));
    }
  }

  lemma LeavesPulls(c: Config, db: Indexes, batch: Indexes, a: Address, after: Indexes)
    requires Tidy(c, db) && PullKept(c, db, batch) && Leaves(c, db, batch, a, after)
    ensures PullKept(c, db, after)
  {
    forall x ensures PullKeptAt(c, db, after, x) {
      assert PullKeptAt(c, db, batch, x) && IdsApart(c, db, x, a);
    }
  }

  lemma PlacedTidy(c: Config, batch: Indexes, ch: Chunk, now: int, pulled: bool, after: Indexes)
    requires Tidy(c, batch) && (after.data, after.side) == Placed(c, batch, ch, now, pulled)
    ensures Tidy(c, after)
  {
    forall po: nat ensures Counter(batch, po) <= Counter(after, po) {
    }
    forall a, b ensures IdsApart(c, after, a, b) {
      assert IdsApart(c, batch, a, b);
    }
    forall k {:trigger k in after.side.pull} | k in after.side.pull ensures k.binID <= Counter(after, k.po) {
      assert Counter(batch, k.po) <= Counter(after, k.po);
    }
    forall a {:trigger a in after.data} | a in after.data ensures after.data[a].binID <= Counter(after, c.po(a)) {
      assert Counter(batch, c.po(a)) <= Counter(after, c.po(a));
    }
  }

  lemma PlacedPulls(c: Config, db: Indexes, batch: Indexes, ch: Chunk, now: int, pulled: bool, after: Indexes)
    requires Tidy(c, db) && PullKept(c, db, batch) && Grows(c, db, batch) && ch.addr !in db.data
    requires (after.data, after.side) == Placed(c, batch, ch, now, pulled)
    ensures PullKept(c, db, after)
  {
    forall x ensures PullKeptAt(c, db, after, x) {
      assert PullKeptAt(c, db, batch, x);
      assert Counter(db, c.po(ch.addr)) <= Counter(batch, c.po(ch.addr));
    }
  }

  // ----- a chunk in its place -----

  /** Stored under its stamp and a fresh id, in the pull index or not, and listed with its batch. */
  predicate InPlace(c: Config, db: Indexes, ix: Indexes, ch: Chunk, pulled: bool) {
    && ch.addr in ix.data && ix.data[ch.addr].slot == ch.slot && ix.data[ch.addr].stampTs == ch.stampTs
    && Counter(db, c.po(ch.addr)) < ix.data[ch.addr].binID <= Counter(ix, c.po(ch.addr))
    && (pulled <==> PullKeyOf(c, ix, ch.addr) in ix.side.pull)
    && (pulled ==> ix.side.pull[PullKeyOf(c, ix, ch.addr)] == ch.addr)
    && ChunkKey(ch.slot.batch, c.po(ch.addr), ch.addr) in ix.side.chunks
  }

  lemma PlacedIsInPlace(c: Config, db: Indexes, batch: Indexes, ch: Chunk, now: int, pulled: bool, after: Indexes)
    requires Tidy(c, batch) && Grows(c, db, batch) && (after.data, after.side) == Placed(c, batch, ch, now, pulled)
    ensures InPlace(c, db, after, ch, pulled)
  {
    assert Counter(db, c.po(ch.addr)) <= Counter(batch, c.po(ch.addr));
  }

  lemma DisplacedKeepsPlace(c: Config, db: Indexes, batch: Indexes, a: Address, after: Indexes, ch: Chunk, pulled: bool)
    requires Tidy(c, db) && InPlace(c, db, batch, ch, pulled) && ch.addr !in db.data
    requires a in db.data && (after.data, after.side) == Displaced(c, db, batch, a)
    ensures InPlace(c, db, after, ch, pulled)
  {
    assert db.data[a].binID <= Counter(db, c.po(a));
    assert Counter(after, c.po(ch.addr)) == Counter(batch, c.po(ch.addr));
  }

  lemma PlacedKeepsPlace(c: Config, db: Indexes, batch: Indexes, other: Chunk, now: int, others: bool, after: Indexes,
                         ch: Chunk, pulled: bool)
    requires InPlace(c, db, batch, ch, pulled) && other.addr != ch.addr
    requires (after.data, after.side) == Placed(c, batch, other, now, others)
    ensures InPlace(c, db, after, ch, pulled)
  {
    assert Counter(batch, c.po(ch.addr)) <= Counter(after, c.po(ch.addr));
  }

  // ----- a chunk of a put after the other -----

  /** What holds of the pending batch of a put call. */
  ghost predicate Growing(c: Config, db: Indexes, batch: Indexes) {
    Tidy(c, batch) && Grows(c, db, batch) && PullKept(c, db, batch)
  }

  lemma ClearedGrows(c: Config, db: Indexes, batch: Indexes, ch: Chunk)
    requires Tidy(c, db) && Growing(c, db, batch) && Stores(db, ch)
    ensures Growing(c, db, Cleared(c, db, batch, ch))
  {
    if SlotOf(db, ch).Replace? {
      var prev, cleared := SlotOf(db, ch).prev, Cleared(c, db, batch, ch);
      SetRemovePlaces(c, db, batch, prev);
      LeavesTidy(c, db, batch, prev, cleared);
      LeavesPulls(c, db, batch, prev, cleared);
      SetRemoveShrinks(c, db, batch, prev);
      ShrinkGrows(c, batch, cleared);
      GrowsTrans(c, db, batch, cleared);
    }
  }

  lemma PutGrowing(c: Config, kind: PutKind, db: Indexes, batch: Indexes, ch: Chunk, t: Times, after: Indexes)
    requires Tidy(c, db) && Growing(c, db, batch) && Stores(db, ch)
    requires after == PutChunk(c, kind, db, batch, ch, t).batch
    ensures Growing(c, db, after) && InPlace(c, db, after, ch, Pulled(kind))
  {
    var cleared := Cleared(c, db, batch, ch);
    ClearedGrows(c, db, batch, ch);
    PutChunkPlaces(c, kind, db, batch, ch, t);
    PlacedTidy(c, cleared, ch, t.store, Pulled(kind), after);
    PlacedPulls(c, db, cleared, ch, t.store, Pulled(kind), after);
    PlacedIsInPlace(c, db, cleared, ch, t.store, Pulled(kind), after);
    PutChunkGrows(c, kind, db, batch, ch, t);
    GrowsTrans(c, db, batch, after);
  }

  lemma PutKeepsPlace(c: Config, kind: PutKind, db: Indexes, batch: Indexes, other: Chunk, t: Times, after: Indexes,
                      ch: Chunk, pulled: bool)
    requires Tidy(c, db) && Stores(db, other) && after == PutChunk(c, kind, db, batch, other, t).batch
    requires InPlace(c, db, batch, ch, pulled) && ch.addr !in db.data && other.addr != ch.addr
    ensures InPlace(c, db, after, ch, pulled)
  {
    var cleared := Cleared(c, db, batch, other);
    if SlotOf(db, other).Replace? {
      SetRemovePlaces(c, db, batch, SlotOf(db, other).prev);
      DisplacedKeepsPlace(c, db, batch, SlotOf(db, other).prev, cleared, ch, pulled);
    }
    PutChunkPlaces(c, kind, db, batch, other, t);
    PlacedKeepsPlace(c, db, cleared, other, t.store, Pulled(kind), after, ch, pulled);
  }

  // ----- stamp slots within a call -----

  /** The m-th chunk of a call is stored, and takes the slot or removes an owner that stands under it. */
  predicate Disturbs(db: Indexes, chs: seq<Chunk>, m: nat, slot: Slot)
    requires m < |chs|
  {
    && First(chs, m) && Stores(db, chs[m])
    && (chs[m].slot == slot || (SlotOf(db, chs[m]).Replace? && db.data[SlotOf(db, chs[m]).prev].slot == slot))
  }

  ghost predicate Undisturbed(db: Indexes, chs: seq<Chunk>, j: nat, k: nat)
    requires j < k <= |chs|
  {
    forall m: nat {:trigger Disturbs(db, chs, m, chs[j].slot)} :: j < m < k ==> !Disturbs(db, chs, m, chs[j].slot)
  }

  /** The slot of the j-th chunk names it with its stamp time. */
  predicate HoldsSlot(ix: Indexes, ch: Chunk) {
    ch.slot in ix.side.slots && ix.side.slots[ch.slot] == Occupant(ch.addr, ch.stampTs)
  }

  lemma PutSlots(c: Config, kind: PutKind, db: Indexes, batch: Indexes, other: Chunk, t: Times, after: Indexes, ch: Chunk)
    requires Stores(db, other) && after == PutChunk(c, kind, db, batch, other, t).batch && other.addr != ch.addr
    ensures HoldsSlot(after, ch) <==>
      && HoldsSlot(batch, ch) && other.slot != ch.slot
      && !(SlotOf(db, other).Replace? && db.data[SlotOf(db, other).prev].slot == ch.slot)
  {
    PutChunkPlaces(c, kind, db, batch, other, t);
    if SlotOf(db, other).Replace? {
      SetRemovePlaces(c, db, batch, SlotOf(db, other).prev);
    }
  }

  lemma PutTakesSlot(c: Config, kind: PutKind, db: Indexes, batch: Indexes, ch: Chunk, t: Times)
    requires Stores(db, ch)
    ensures HoldsSlot(PutChunk(c, kind, db, batch, ch, t).batch, ch)
  {
    PutChunkPlaces(c, kind, db, batch, ch, t);
  }

  // ----- whole calls -----

  /** The j-th chunk of a put is new and stored. */
  predicate StoredBy(db: Indexes, chs: seq<Chunk>, j: nat)
    requires j < |chs|
  {
    First(chs, j) && Stores(db, chs[j])
  }

  ghost predicate PlaceOf(c: Config, kind: PutKind, db: Indexes, ix: Indexes, chs: seq<Chunk>, j: nat, k: nat)
    requires j < k <= |chs|
  {
    InPlace(c, db, ix, chs[j], Pulled(kind)) && (HoldsSlot(ix, chs[j]) <==> Undisturbed(db, chs, j, k))
  }

  ghost predicate Places(c: Config, kind: PutKind, db: Indexes, ix: Indexes, chs: seq<Chunk>, k: nat) {
    && k <= |chs| && Growing(c, db, ix)
    && forall j: nat :: j < k && StoredBy(db, chs, j) ==> PlaceOf(c, kind, db, ix, chs, j, k)
  }

  lemma UndisturbedNext(db: Indexes, chs: seq<Chunk>, j: nat, k: nat)
    requires j < k < |chs|
    ensures Undisturbed(db, chs, j, k + 1) <==> Undisturbed(db, chs, j, k) && !Disturbs(db, chs, k, chs[j].slot)
  {
    if Undisturbed(db, chs, j, k) && !Disturbs(db, chs, k, chs[j].slot) {
      var next := k + 1;
      forall m: nat {:trigger Disturbs(db, chs, m, chs[j].slot)} | j < m < next ensures !Disturbs(db, chs, m, chs[j].slot) {
      }
    }
  }

  lemma PlaceStays(c: Config, kind: PutKind, db: Indexes, batch: Indexes, chs: seq<Chunk>, j: nat, k: nat, t: Times,
                   after: Indexes)
    requires j < k < |chs| && StoredBy(db, chs, j) && StoredBy(db, chs, k) && Tidy(c, db)
    requires PlaceOf(c, kind, db, batch, chs, j, k) && after == PutChunk(c, kind, db, batch, chs[k], t).batch
    ensures PlaceOf(c, kind, db, after, chs, j, k + 1)
  {
    PutKeepsPlace(c, kind, db, batch, chs[k], t, after, chs[j], Pulled(kind));
    PutSlots(c, kind, db, batch, chs[k], t, after, chs[j]);
    UndisturbedNext(db, chs, j, k);
  }

  lemma PlaceUntouched(c: Config, kind: PutKind, db: Indexes, batch: Indexes, chs: seq<Chunk>, j: nat, k: nat, after: Indexes)
    requires j < k < |chs| && !StoredBy(db, chs, k) && PlaceOf(c, kind, db, batch, chs, j, k)
    requires after.data == batch.data && after.side == batch.side
    ensures PlaceOf(c, kind, db, after, chs, j, k + 1)
  {
    UndisturbedNext(db, chs, j, k);
  }

  lemma PlaceTaken(c: Config, kind: PutKind, db: Indexes, batch: Indexes, chs: seq<Chunk>, k: nat, t: Times, after: Indexes)
    requires Tidy(c, db) && Growing(c, db, batch) && k < |chs| && StoredBy(db, chs, k)
    requires after == PutChunk(c, kind, db, batch, chs[k], t).batch
    ensures Growing(c, db, after) && PlaceOf(c, kind, db, after, chs, k, k + 1)
  {
    var next := k + 1;
    PutGrowing(c, kind, db, batch, chs[k], t, after);
    PutTakesSlot(c, kind, db, batch, chs[k], t);
    assert Undisturbed(db, chs, k, next);
  }

  lemma StoresNext(c: Config, kind: PutKind, db: Indexes, batch: Indexes, chs: seq<Chunk>, k: nat, t: Times, after: Indexes)
    requires Tidy(c, db) && Places(c, kind, db, batch, chs, k) && k < |chs| && StoredBy(db, chs, k)
    requires after == PutChunk(c, kind, db, batch, chs[k], t).batch
    ensures Places(c, kind, db, after, chs, k + 1)
  {
    PlaceTaken(c, kind, db, batch, chs, k, t, after);
    forall j: nat | j < k && StoredBy(db, chs, j) ensures PlaceOf(c, kind, db, after, chs, j, k + 1) {
      PlaceStays(c, kind, db, batch, chs, j, k, t, after);
    }
  }

  lemma GrowingSame(c: Config, db: Indexes, batch: Indexes, after: Indexes)
    requires Growing(c, db, batch) && after.data == batch.data && after.side == batch.side
    ensures Growing(c, db, after)
  {
    SameSideTidy(c, batch, after);
    SideGrows(c, db, batch, after);
    forall a ensures PullKeptAt(c, db, after, a) {
      assert PullKeptAt(c, db, batch, a);
    }
  }

  lemma SkipsNext(c: Config, kind: PutKind, db: Indexes, batch: Indexes, chs: seq<Chunk>, k: nat, after: Indexes)
    requires Places(c, kind, db, batch, chs, k) && k < |chs| && !StoredBy(db, chs, k)
    requires after.data == batch.data && after.side == batch.side
    ensures Places(c, kind, db, after, chs, k + 1)
  {
    var next := k + 1;
    GrowingSame(c, db, batch, after);
    forall j: nat | j < next && StoredBy(db, chs, j) ensures PlaceOf(c, kind, db, after, chs, j, next) {
      PlaceUntouched(c, kind, db, batch, chs, j, k, after);
    }
  }

  lemma PlacesNext(c: Config, kind: PutKind, db: Indexes, chs: seq<Chunk>, now: nat -> Times, pending: Effect, k: nat)
    requires Tidy(c, db) && Places(c, kind, db, pending.batch, chs, k) && k < |chs|
    requires Next(PutSteps(c, kind, db, chs, now), pending, k).err.None?
    ensures Places(c, kind, db, Next(PutSteps(c, kind, db, chs, now), pending, k).batch, chs, k + 1)
  {
    var after := Next(PutSteps(c, kind, db, chs, now), pending, k).batch;
    PutStep(c, kind, db, chs, now, pending, k);
    if StoredBy(db, chs, k) {
      StoresNext(c, kind, db, pending.batch, chs, k, now(k), after);
    } else {
      if First(chs, k) {
        PutChunkElse(c, kind, db, pending.batch, chs[k], now(k));
      }
      SkipsNext(c, kind, db, pending.batch, chs, k, after);
    }
  }

  ghost function PlacesInv(c: Config, kind: PutKind, db: Indexes, chs: seq<Chunk>): (Effect, nat) -> bool {
    (p: Effect, j: nat) => Places(c, kind, db, p.batch, chs, j)
  }

  lemma PlacesInvSteps(c: Config, kind: PutKind, db: Indexes, chs: seq<Chunk>, now: nat -> Times, p: Effect, j: nat)
    requires Tidy(c, db) && j < |chs| && PlacesInv(c, kind, db, chs)(p, j)
    requires Next(PutSteps(c, kind, db, chs, now), p, j).err.None?
    ensures PlacesInv(c, kind, db, chs)(Next(PutSteps(c, kind, db, chs, now), p, j), j + 1)
  {
    PlacesNext(c, kind, db, chs, now, p, j);
  }

  lemma FirstPlaces(c: Config, kind: PutKind, db: Indexes, chs: seq<Chunk>)
    requires Tidy(c, db)
    ensures Places(c, kind, db, db, chs, 0)
  {
    ShrinkGrows(c, db, db);
    SameSideTidy(c, db, db);
  }

  /**
   After a put that commits, every new chunk it stores has a fresh bin id, its address under that id
   in the pull index unless it is a request that forces it into the cache, and its entry with its
   batch; its stamp slot names it unless a later chunk of the call has taken the slot over or removed
   an older owner of it. Chunks stored before keep their pull entries as long as they stay.
   */
  lemma PutPlaces(c: Config, kind: PutKind, db: Indexes, chs: seq<Chunk>, now: nat -> Times)
    requires Tidy(c, db) && Commits(c, kind, db, chs, now)
    ensures Places(c, kind, db, PutCall(c, kind, db, chs, now), chs, |chs|)
  {
    var step := PutSteps(c, kind, db, chs, now);
    var inv := PlacesInv(c, kind, db, chs);
    FirstPlaces(c, kind, db, chs);
    assert inv(Effect(db, 0, None), 0);
    forall p: Effect, j: nat | j < |chs| && inv(p, j) && Next(step, p, j).err.None? ensures inv(Next(step, p, j), j + 1) {
      PlacesInvSteps(c, kind, db, chs, now, p, j);
    }
    FoldKeeps(step, inv, Effect(db, 0, None), |chs|, 0);
    var e := Fold(step, Effect(db, 0, None), |chs|, 0);
    PlacesSized(c, kind, db, e.batch, chs, |chs|, Commit(db, e));
  }

  lemma PlacesSized(c: Config, kind: PutKind, db: Indexes, batch: Indexes, chs: seq<Chunk>, k: nat, after: Indexes)
    requires Places(c, kind, db, batch, chs, k) && after == batch.(gcSize := after.gcSize)
    ensures Places(c, kind, db, after, chs, k)
  {
    GrowingSame(c, db, batch, after);
    forall j: nat | j < k && StoredBy(db, chs, j) ensures PlaceOf(c, kind, db, after, chs, j, k) {
      assert PlaceOf(c, kind, db, batch, chs, j, k);
    }
  }

  // ----- every event -----

  lemma SetCallGrowing(c: Config, mode: SetMode, db: Indexes, addrs: seq<Address>, now: nat -> int)
    requires Tidy(c, db)
    ensures Growing(c, db, SetCall(c, mode, db, addrs, now))
  {
    var step := SetSteps(c, mode, db, addrs, now);
    var inv := (p: Effect, j: nat) => Growing(c, db, p.batch);
    FirstGrowing(c, db);
    assert inv(Effect(db, 0, None), 0);
    forall p: Effect, j: nat | j < |addrs| && inv(p, j) ensures inv(Next(step, p, j), j + 1) {
      SetOneGrowing(c, mode, db, p.batch, addrs[j], now(j));
    }
    FoldKeeps(step, inv, Effect(db, 0, None), |addrs|, 0);
    var e := Fold(step, Effect(db, 0, None), |addrs|, 0);
    if e.err.None? {
      GrowingSame(c, db, e.batch, Commit(db, e));
    }
  }

  lemma FirstGrowing(c: Config, db: Indexes)
    requires Tidy(c, db)
    ensures Growing(c, db, db)
  {
    ShrinkGrows(c, db, db);
    SameSideTidy(c, db, db);
  }

  lemma SetOneGrowing(c: Config, mode: SetMode, db: Indexes, batch: Indexes, a: Address, now: int)
    requires Tidy(c, db) && Growing(c, db, batch)
    ensures Growing(c, db, SetOne(c, mode, db, batch, a, now).batch)
  {
    var after := SetOne(c, mode, db, batch, a, now).batch;
    match mode {
      case ModeRemove =>
        if a in db.data {
          SetRemovePlaces(c, db, batch, a);
          LeavesTidy(c, db, batch, a, after);
          LeavesPulls(c, db, batch, a, after);
          SetRemoveShrinks(c, db, batch, a);
          ShrinkGrows(c, batch, after);
          GrowsTrans(c, db, batch, after);
        }
      case ModeSync =>
        SetSyncShrinks(c, db, batch, a, now);
        GrowingSame(c, db, batch, after);
      case ModePin =>
        SetPinShrinks(db, batch, a);
        GrowingSame(c, db, batch, after);
      case ModeUnpin =>
        SetUnpinShrinks(db, batch, a, now);
        GrowingSame(c, db, batch, after);
    }
  }

  lemma {:induction false} CollectGrowing(c: Config, db: Indexes, r: Collected, cands: seq<Candidate>, k: nat,
                                          dirty: set<Address>, target: nat)
    requires Partition(db) && CandidatesOk(db, cands, dirty) && Tidy(c, db) && Growing(c, db, r.batch)
    ensures Growing(c, db, CollectFrom(c, db, r, cands, k, dirty, target).batch)
    decreases |cands| - k
  {
    if k < |cands| {
      if cands[k].key.addr in dirty {
        CollectGrowing(c, db, r, cands, k + 1, dirty, target);
      } else if Sub64(db.gcSize, |r.evicted|) > target && cands[k].key.addr in db.data {
        assert CandidateOk(db, cands[k], dirty);
        EvictGrowing(c, db, r.batch, cands[k]);
        CollectGrowing(c, db, Evicted(c, r, cands[k]), cands, k + 1, dirty, target);
      }
    }
  }

  lemma EvictGrowing(c: Config, db: Indexes, batch: Indexes, cand: Candidate)
    requires AddrOk(db, cand.key.addr) && cand.key in db.gc && Tidy(c, db) && Growing(c, db, batch)
    ensures Growing(c, db, Evict(c, batch, cand))
  {
    var after := Evict(c, batch, cand);
    LeavesTidy(c, db, batch, cand.key.addr, after);
    LeavesPulls(c, db, batch, cand.key.addr, after);
    EvictShrinks(c, batch, cand);
    ShrinkGrows(c, batch, after);
    GrowsTrans(c, db, batch, after);
  }

  lemma UnreserveGrowing(c: Config, db: Indexes, id: BatchID, radius: nat, order: nat -> seq<Address>, now: nat -> nat -> int)
    requires Good(db) && Tidy(c, db) && BinOrders(db, id, OldRadius(db, id), radius, order)
    ensures Growing(c, db, UnreserveBatch(db, id, radius, order, now))
  {
    var after := UnreserveBatch(db, id, radius, order, now);
    UnreserveRefines(c, db, id, radius, order, now);
    UnreserveGrows(c, db, id, OldRadius(db, id), radius, order, now);
    BinsApart(c, db, id, OldRadius(db, id), radius, order);
    UnreserveKeeps(c, db, id, OldRadius(db, id), radius, order, now);
    SameSideTidy(c, db, after);
  }

  /** Every admissible event keeps the store tidy, and every chunk that stays as it is in the pull index. */
  lemma StepGrowing(c: Config, s: Sys, ev: Event)
    requires SysOk(s) && Admissible(s, ev) && Tidy(c, s.ix)
    ensures Growing(c, s.ix, Step(c, s, ev).ix)
  {
    FirstGrowing(c, s.ix);
    match ev {
      case SetEvent(mode, addrs, now) => SetCallGrowing(c, mode, s.ix, addrs, now);
      case PutEvent(kind, chs, now) =>
        if Commits(c, kind, s.ix, chs, now) {
          PutPlaces(c, kind, s.ix, chs, now);
        }
      case ReadEvent(item, now) => GrowingSame(c, s.ix, s.ix, UpdateGC(s.ix, item, now));
      case UnreserveEvent(id, radius, order, now) => UnreserveGrowing(c, s.ix, id, radius, order, now);
      case CollectEvent(target) =>
        var r := Collect(c, s.ix, s.phase.cands, s.phase.dirty, target);
        CollectGrowing(c, s.ix, Collected(s.ix, [], false, false), s.phase.cands, 0, s.phase.dirty, target);
        if !r.failed {
          GrowingSame(c, s.ix, r.batch, AfterCollect(s.ix, r));
        }
      case _ =>
    }
  }

  lemma {:induction false} RunTidy(c: Config, s: Sys, evs: seq<Event>)
    requires SysOk(s) && Tidy(c, s.ix) && AdmissibleRun(c, s, evs)
    ensures SysOk(Run(c, s, evs)) && Tidy(c, Run(c, s, evs).ix)
    decreases |evs|
  {
    if evs != [] {
      StepOk(c, s, evs[0]);
      StepGrowing(c, s, evs[0]);
      RunTidy(c, Step(c, s, evs[0]), evs[1..]);
    }
  }

  lemma EmptyTidy(c: Config)
    ensures Tidy(c, EMPTY)
  {
    forall a, b ensures IdsApart(c, EMPTY, a, b) {
    }
  }

  /** In every store that started empty no bin gives out an id twice, and chunks are listed under their own proximity order. */
  lemma AlwaysTidy(c: Config, evs: seq<Event>)
    requires AdmissibleRun(c, START, evs)
    ensures SysOk(Run(c, START, evs)) && Tidy(c, Run(c, START, evs).ix)
  {
    StartOk();
    EmptyTidy(c);
    RunTidy(c, START, evs);
  }

  /** Unreserving, in every store that started empty: each chunk of the batch in the bins concerned loses exactly one pin. */
  lemma UnreserveUnpinsOnce(c: Config, evs: seq<Event>, id: BatchID, radius: nat, order: nat -> seq<Address>,
                            now: nat -> nat -> int)
    requires AdmissibleRun(c, START, evs) && Admissible(Run(c, START, evs), UnreserveEvent(id, radius, order, now))
    ensures
      var s := Run(c, START, evs);
      var after := Step(c, s, UnreserveEvent(id, radius, order, now)).ix;
      var bin := OldRadius(s.ix, id);
      && BinsUnpinned(s.ix, after, bin, radius, order, now)
      && (forall a :: Listed(order, bin, radius, a) <==>
            bin <= c.po(a) < radius && ChunkKey(id, c.po(a), a) in s.ix.side.chunks)
      && OnlyRadius(s.ix, after, id) && RadiusOf(after, id) == NotedRadius(RadiusOf(s.ix, id), bin, radius)
  {
    AlwaysTidy(c, evs);
    UnreserveRefines(c, Run(c, START, evs).ix, id, radius, order, now);
  }
}
