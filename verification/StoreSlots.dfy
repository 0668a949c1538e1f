/** Which stamp slot the entries of the gc index carry over whole runs, and so what an eviction frees. */
module StoreSlots {
  import opened Wrappers

  import opened StoreIndexes
  import opened StoreOps
  import opened StoreLemmas
  import opened StoreRepeat
  import opened StoreCalls
  import opened StorePuts
  import opened StoreReserve
  import opened StoreGc
  import opened StoreRuns
  import opened StoreGrowth

  /** What an entry carries: the slot of the chunk, or, if it is bare, that slot without its stamp index. */
  function Carried(own: Slot, bare: bool): Slot {
    if bare then Slot(own.batch, 0) else own
  }

  // ----- pinning, removing, syncing and collecting only drop entries -----

  ghost predicate OnlyDrops(x: Indexes, y: Indexes) {
    forall k {:trigger k in y.gc} :: k in y.gc ==> k in x.gc && y.gc[k] == x.gc[k]
  }

  lemma SetOneDrops(c: Config, mode: SetMode, db: Indexes, batch: Indexes, a: Address, now: int)
    requires !mode.ModeUnpin?
    ensures OnlyDrops(batch, SetOne(c, mode, db, batch, a, now).batch)
  {
    match mode {
      case ModeSync =>
        if a in db.data {
          SyncPins(c, db, batch, a, now);
          SetPinDrops(db, Synced(db, batch, a, now), a);
        }
      case ModeRemove => SetRemoveDrops(c, db, batch, a);
      case ModePin => SetPinDrops(db, batch, a);
    }
  }

  lemma SetPinDrops(db: Indexes, batch: Indexes, a: Address)
    ensures OnlyDrops(batch, SetPin(db, batch, a).batch)
  {
  }

  lemma SetRemoveDrops(c: Config, db: Indexes, batch: Indexes, a: Address)
    ensures OnlyDrops(batch, SetRemove(c, db, batch, a).batch)
  {
  }

  lemma SetCallDrops(c: Config, mode: SetMode, db: Indexes, addrs: seq<Address>, now: nat -> int)
    requires !mode.ModeUnpin?
    ensures OnlyDrops(db, SetCall(c, mode, db, addrs, now))
  {
    var step := SetSteps(c, mode, db, addrs, now);
    var inv := (p: Effect, j: nat) => OnlyDrops(db, p.batch);
    assert inv(Effect(db, 0, None), 0);
    forall p: Effect, j: nat | j < |addrs| && inv(p, j) ensures inv(Next(step, p, j), j + 1) {
      SetOneDrops(c, mode, db, p.batch, addrs[j], now(j));
    }
    FoldKeeps(step, inv, Effect(db, 0, None), |addrs|, 0);
  }

  lemma {:induction false} CollectDrops(c: Config, db: Indexes, r: Collected, cands: seq<Candidate>, k: nat,
                                        dirty: set<Address>, target: nat)
    requires OnlyDrops(db, r.batch)
    ensures OnlyDrops(db, CollectFrom(c, db, r, cands, k, dirty, target).batch)
    decreases |cands| - k
  {
    if k < |cands| {
      if cands[k].key.addr in dirty {
        CollectDrops(c, db, r, cands, k + 1, dirty, target);
      } else if Sub64(db.gcSize, |r.evicted|) > target && cands[k].key.addr in db.data {
        CollectDrops(c, db, Evicted(c, r, cands[k]), cands, k + 1, dirty, target);
      }
    }
  }

  // ----- unpinning adds bare entries -----

  /** An entry of the chunk as it is stored, without its stamp index. */
  predicate BareEntry(db: Indexes, k: GcKey, slot: Slot) {
    k.addr in db.data && k.binID == db.data[k.addr].binID && slot == Carried(db.data[k.addr].slot, true)
  }

  ghost predicate AddsBare(db: Indexes, batch: Indexes) {
    && batch.data == db.data
    && (forall k {:trigger k in db.gc} :: k in db.gc ==> k in batch.gc)
    && (forall k {:trigger k in batch.gc} :: k in batch.gc ==>
          if k in db.gc then batch.gc[k] == db.gc[k] else BareEntry(db, k, batch.gc[k]))
  }

  lemma SetUnpinAdds(db: Indexes, batch: Indexes, a: Address, now: int)
    requires AddrOk(db, a) && AddsBare(db, batch)
    ensures AddsBare(db, SetUnpin(db, batch, a, now).batch)
  {
    if a in db.pin && db.pin[a] <= 1 && a in db.data {
      EvictableAdds(db, batch, a, now);
    }
  }

  lemma EvictableAdds(db: Indexes, batch: Indexes, a: Address, now: int)
    requires AddrOk(db, a) && AddsBare(db, batch) && a in db.pin && a in db.data
    ensures AddsBare(db, Evictable(db, batch.DropPin(a), a, now))
  {
    var key := GcKey(if a in db.access then db.access[a] else now, db.data[a].binID, a);
    assert key !in db.gc;
    if a in db.access {
    } else {
    }
  }

  lemma AddsBareSteps(db: Indexes, step: Steps, n: nat)
    requires forall b: Indexes, j: nat :: j < n && AddsBare(db, b) ==> AddsBare(db, step(b, j).batch)
    ensures
      var e := Fold(step, Effect(db, 0, None), n, 0);
      e.err.None? ==> AddsBare(db, Commit(db, e))
  {
    var inv := (p: Effect, j: nat) => AddsBare(db, p.batch);
    assert inv(Effect(db, 0, None), 0);
    forall p: Effect, j: nat | j < n && inv(p, j) ensures inv(Next(step, p, j), j + 1) {
    }
    FoldKeeps(step, inv, Effect(db, 0, None), n, 0);
  }

  lemma UnpinCallAdds(c: Config, db: Indexes, addrs: seq<Address>, now: nat -> int)
    requires Partition(db)
    ensures AddsBare(db, SetCall(c, ModeUnpin, db, addrs, now))
  {
    var step := SetSteps(c, ModeUnpin, db, addrs, now);
    forall b: Indexes, j: nat | j < |addrs| && AddsBare(db, b) ensures AddsBare(db, step(b, j).batch) {
      assert AddrOk(db, addrs[j]);
      SetUnpinAdds(db, b, addrs[j], now(j));
    }
    AddsBareSteps(db, step, |addrs|);
  }

  lemma UnpinRoundAdds(db: Indexes, addrs: seq<Address>, now: nat -> int)
    requires Partition(db)
    ensures AddsBare(db, UnpinRound(db, addrs, now))
  {
    var step := UnpinSteps(db, addrs, now);
    forall b: Indexes, j: nat | j < |addrs| && AddsBare(db, b) ensures AddsBare(db, step(b, j).batch) {
      assert AddrOk(db, addrs[j]);
      SetUnpinAdds(db, b, addrs[j], now(j));
    }
    FoldNoError(step, Effect(db, 0, None), |addrs|, 0);
    AddsBareSteps(db, step, |addrs|);
  }

  lemma AddsBareTrans(x: Indexes, y: Indexes, z: Indexes)
    requires AddsBare(x, y) && AddsBare(y, z)
    ensures AddsBare(x, z)
  {
    forall k {:trigger k in x.gc} | k in x.gc ensures k in z.gc {
      assert k in y.gc;
    }
    forall k {:trigger k in z.gc} | k in z.gc ensures if k in x.gc then z.gc[k] == x.gc[k] else BareEntry(x, k, z.gc[k]) {
      if k in y.gc {
      }
    }
  }

  lemma {:induction false} UnpinAllAdds(c: Config, db: Indexes, addrs: seq<Address>, now: nat -> int)
    requires Good(db) && Distinct(addrs)
    ensures AddsBare(db, UnpinAll(db, addrs, now))
    decreases |addrs|
  {
    if |addrs| <= UNPIN_BATCH_SIZE + 1 {
      UnpinRoundAdds(db, addrs, now);
    } else {
      var round := addrs[..UNPIN_BATCH_SIZE + 1];
      var mid := UnpinRound(db, round, now);
      UnpinRoundAdds(db, round, now);
      UnpinRoundKeeps(c, db, round, now);
      UnpinAllAdds(c, mid, addrs[UNPIN_BATCH_SIZE + 1..], Later(now));
      AddsBareTrans(db, mid, UnpinAll(db, addrs, now));
    }
  }

  lemma SideAdds(x: Indexes, y: Indexes, z: Indexes)
    requires AddsBare(x, y) && z == y.(side := z.side)
    ensures AddsBare(x, z)
  {
  }

  lemma UnreserveBinAdds(c: Config, db: Indexes, id: BatchID, bin: nat, addrs: seq<Address>, now: nat -> int)
    requires Good(db) && Distinct(addrs)
    ensures AddsBare(db, UnreserveBin(db, id, bin, addrs, now))
  {
    UnpinAllAdds(c, db, addrs, now);
    SideAdds(db, UnpinAll(db, addrs, now), UnreserveBin(db, id, bin, addrs, now));
  }

  lemma {:induction false} UnreserveAdds(c: Config, db: Indexes, id: BatchID, bin: nat, radius: nat,
                                         order: nat -> seq<Address>, now: nat -> nat -> int)
    requires Good(db)
    requires forall b: nat :: bin <= b < radius ==> Distinct(order(b))
    ensures AddsBare(db, UnreserveFrom(db, id, bin, radius, order, now))
    decreases radius - bin
  {
    if bin >= radius {
      SideAdds(db, db, UnreserveFrom(db, id, bin, radius, order, now));
    } else {
      var noted := UnreserveBin(db, id, bin, order(bin), now(bin));
      UnreserveBinAdds(c, db, id, bin, order(bin), now(bin));
      UnreserveBinKeeps(c, db, id, bin, order(bin), now(bin));
      UnreserveAdds(c, noted, id, bin + 1, radius, order, now);
      AddsBareTrans(db, noted, UnreserveFrom(noted, id, bin + 1, radius, order, now));
    }
  }

  // ----- puts add entries with the slot of the chunk -----

  /** The entry of a chunk put since, under an id that was not given out yet. */
  predicate OwnEntry(c: Config, db: Indexes, batch: Indexes, k: GcKey, slot: Slot) {
    && Counter(db, c.po(k.addr)) < k.binID
    && (k.addr in batch.data && batch.data[k.addr].binID == k.binID ==> slot == batch.data[k.addr].slot)
  }

  ghost predicate AddsOwn(c: Config, db: Indexes, batch: Indexes) {
    forall k {:trigger k in batch.gc} :: k in batch.gc ==>
      && k.binID <= Counter(batch, c.po(k.addr))
      && if k in db.gc then batch.gc[k] == db.gc[k] else OwnEntry(c, db, batch, k, batch.gc[k])
  }

  lemma AddsNothing(c: Config, db: Indexes)
    requires Partition(db) && CountersOk(c, db)
    ensures AddsOwn(c, db, db)
  {
    forall k {:trigger k in db.gc} | k in db.gc ensures k.binID <= Counter(db, c.po(k.addr)) {
      assert AddrOk(db, k.addr);
    }
  }

  lemma DropsKeepOwn(c: Config, db: Indexes, batch: Indexes, after: Indexes)
    requires AddsOwn(c, db, batch) && Shrinks(batch, after) && OnlyDrops(batch, after)
    ensures AddsOwn(c, db, after)
  {
    forall k {:trigger k in after.gc} | k in after.gc
      ensures k.binID <= Counter(after, c.po(k.addr))
      ensures if k in db.gc then after.gc[k] == db.gc[k] else OwnEntry(c, db, after, k, after.gc[k])
    {
      assert k in batch.gc;
    }
  }

  lemma StoredOwn(c: Config, db: Indexes, batch: Indexes, ch: Chunk, now: int, pulled: bool)
    requires AddsOwn(c, db, batch)
    ensures
      var stored := Stored(c, batch, ch, now, pulled);
      && AddsOwn(c, db, stored) && Counter(stored, c.po(ch.addr)) == NextBinID(batch, c.po(ch.addr))
      && ch.addr in stored.data && stored.data[ch.addr].binID == NextBinID(batch, c.po(ch.addr))
      && stored.data[ch.addr].slot == ch.slot
  {
    var stored := Stored(c, batch, ch, now, pulled);
    forall k {:trigger k in stored.gc} | k in stored.gc
      ensures k.binID <= Counter(stored, c.po(k.addr))
      ensures if k in db.gc then stored.gc[k] == db.gc[k] else OwnEntry(c, db, stored, k, stored.gc[k])
    {
      assert k in batch.gc && k.binID <= Counter(batch, c.po(k.addr));
    }
  }

  lemma PreserveOwn(c: Config, db: Indexes, batch: Indexes, item: Cached, pin: bool, cache: bool)
    requires AddsOwn(c, db, batch) && item.addr in batch.data
    requires batch.data[item.addr].binID == item.binID && batch.data[item.addr].slot == item.slot
    requires Counter(db, c.po(item.addr)) < item.binID <= Counter(batch, c.po(item.addr))
    requires forall k {:trigger k in db.gc} :: k in db.gc ==> k.binID <= Counter(db, c.po(k.addr))
    ensures AddsOwn(c, db, PreserveOrCache(c, db, batch, item, pin, cache).batch)
  {
    var after := PreserveOrCache(c, db, batch, item, pin, cache).batch;
    var key := GcKey(item.accessTs, item.binID, item.addr);
    if !cache && (c.Within(item.addr, item.radius) || pin) {
      SetPinShrinks(db, batch, item.addr);
      SetPinDrops(db, batch, item.addr);
      DropsKeepOwn(c, db, batch, after);
    } else if item.addr !in db.pin && key !in db.gc {
      assert after == batch.PutGc(key, item.slot);
      AddedOwn(c, db, batch, key, item.slot);
    }
  }

  lemma AddedOwn(c: Config, db: Indexes, batch: Indexes, key: GcKey, slot: Slot)
    requires AddsOwn(c, db, batch) && key !in db.gc && OwnEntry(c, db, batch, key, slot)
    requires key.binID <= Counter(batch, c.po(key.addr))
    ensures AddsOwn(c, db, batch.PutGc(key, slot))
  {
    var after := batch.PutGc(key, slot);
    forall k {:trigger k in after.gc} | k in after.gc
      ensures k.binID <= Counter(after, c.po(k.addr))
      ensures if k in db.gc then after.gc[k] == db.gc[k] else OwnEntry(c, db, after, k, after.gc[k])
    {
      assert k in batch.gc || k == key;
    }
  }

  /** What holds of the pending batch of a put call. */
  ghost predicate OwnInv(c: Config, db: Indexes, batch: Indexes) {
    AddsOwn(c, db, batch) && Grows(c, db, batch)
  }

  lemma AccessedOwn(c: Config, db: Indexes, batch: Indexes, ch: Chunk, t: Times, pulled: bool, pin: bool, cache: bool)
    requires AddsOwn(c, db, db) && AddsOwn(c, db, batch) && Counter(db, c.po(ch.addr)) <= Counter(batch, c.po(ch.addr))
    ensures AddsOwn(c, db, PreserveOrCache(c, db, Accessed(c, batch, ch, t, pulled), NewItem(c, batch, ch, t), pin, cache).batch)
  {
    var stored := Stored(c, batch, ch, t.store, pulled);
    StoredOwn(c, db, batch, ch, t.store, pulled);
    DropsKeepOwn(c, db, stored, stored.PutAccess(ch.addr, t.access));
    PreserveOwn(c, db, Accessed(c, batch, ch, t, pulled), NewItem(c, batch, ch, t), pin, cache);
  }

  lemma PutNewOwn(c: Config, kind: PutKind, db: Indexes, batch: Indexes, ch: Chunk, t: Times)
    requires AddsOwn(c, db, db) && OwnInv(c, db, batch)
    ensures AddsOwn(c, db, PutNew(c, kind, db, batch, ch, t).batch)
  {
    assert Counter(db, c.po(ch.addr)) <= Counter(batch, c.po(ch.addr));
    match kind {
      case Request(pin, cache) => AccessedOwn(c, db, batch, ch, t, !cache, pin, cache);
      case Upload(_) =>
        var stored := Stored(c, batch, ch, t.store, true);
        StoredOwn(c, db, batch, ch, t.store, true);
        DropsKeepOwn(c, db, stored, stored.PutPush(PushKey(t.store, ch.addr)));
      case Sync => AccessedOwn(c, db, batch, ch, t, true, false, false);
    }
  }

  lemma PutOpOwn(c: Config, kind: PutKind, db: Indexes, batch: Indexes, ch: Chunk, t: Times)
    requires AddsOwn(c, db, db) && OwnInv(c, db, batch)
    ensures AddsOwn(c, db, PutOp(c, kind, db, batch, ch, t).batch)
  {
    match SlotOf(db, ch) {
      case Free => PutNewOwn(c, kind, db, batch, ch, t);
      case Keep =>
      case Refuse =>
      case Replace(prev) =>
        var removed := SetRemove(c, db, batch, prev).batch;
        SetRemoveShrinks(c, db, batch, prev);
        SetRemoveDrops(c, db, batch, prev);
        DropsKeepOwn(c, db, batch, removed);
        ShrinkGrows(c, batch, removed);
        GrowsTrans(c, db, batch, removed);
        PutNewOwn(c, kind, db, removed, ch, t);
    }
  }

  lemma PutChunkOwn(c: Config, kind: PutKind, db: Indexes, batch: Indexes, ch: Chunk, t: Times)
    requires AddsOwn(c, db, db) && OwnInv(c, db, batch)
    ensures OwnInv(c, db, PutChunk(c, kind, db, batch, ch, t).batch)
  {
    PutChunkGrows(c, kind, db, batch, ch, t);
    GrowsTrans(c, db, batch, PutChunk(c, kind, db, batch, ch, t).batch);
    if ch.addr !in db.data {
      var put := PutOp(c, kind, db, batch, ch, t);
      PutOpOwn(c, kind, db, batch, ch, t);
      SetPinShrinks(db, put.batch, ch.addr);
      SetPinDrops(db, put.batch, ch.addr);
      DropsKeepOwn(c, db, put.batch, SetPin(db, put.batch, ch.addr).batch);
    }
  }

  lemma PutCallOwn(c: Config, kind: PutKind, db: Indexes, chs: seq<Chunk>, now: nat -> Times)
    requires Partition(db) && CountersOk(c, db)
    ensures AddsOwn(c, db, PutCall(c, kind, db, chs, now))
  {
    var step := PutSteps(c, kind, db, chs, now);
    var inv := (p: Effect, j: nat) => OwnInv(c, db, p.batch);
    AddsNothing(c, db);
    ShrinkGrows(c, db, db);
    assert inv(Effect(db, 0, None), 0);
    forall p: Effect, j: nat | j < |chs| && inv(p, j) ensures inv(Next(step, p, j), j + 1) {
      if First(chs, j) {
        PutChunkOwn(c, kind, db, p.batch, chs[j], now(j));
      }
    }
    FoldKeeps(step, inv, Effect(db, 0, None), |chs|, 0);
    var e := Fold(step, Effect(db, 0, None), |chs|, 0);
    if e.err.None? {
      SizedOwn(c, db, e.batch, Commit(db, e));
    }
  }

  lemma SizedOwn(c: Config, db: Indexes, batch: Indexes, after: Indexes)
    requires AddsOwn(c, db, batch) && after == batch.(gcSize := after.gcSize)
    ensures AddsOwn(c, db, after)
  {
    DropsKeepOwn(c, db, batch, after);
  }

  // ----- every event -----

  /** Unpinning is what writes bare entries. */
  predicate Unpins(ev: Event) {
    ev.UnreserveEvent? || (ev.SetEvent? && ev.mode.ModeUnpin?)
  }

  /** The read moves the entry of its chunk to this key. */
  predicate Rewrites(ix: Indexes, ev: Event, k: GcKey) {
    && ev.ReadEvent? && ev.item.addr in ix.access && ix.access[ev.item.addr] != 0
    && k == GcKey(ev.readNow, ev.item.binID, ev.item.addr)
  }

  /** What a read returned is true of the chunk, as long as it is stored under the same bin id. */
  predicate StillTrue(ix: Indexes, item: Read) {
    item.addr in ix.data && ix.data[item.addr].binID == item.binID ==> ix.data[item.addr].slot == item.slot
  }

  /** The entry carries the slot of its chunk, or that slot without the stamp index. */
  predicate Carries(ix: Indexes, k: GcKey, bare: bool) {
    k in ix.gc && k.addr in ix.data ==> ix.gc[k] == Carried(ix.data[k.addr].slot, bare)
  }

  /** An entry that was there before is as it was, unless a read has moved it to its own key; the others are as the event writes them. */
  predicate Written(x: Indexes, y: Indexes, ev: Event, k: GcKey) {
    k in y.gc ==> if k in x.gc && !Rewrites(x, ev, k) then y.gc[k] == x.gc[k] else Carries(y, k, Unpins(ev))
  }

  lemma UpdateGCWrites(c: Config, x: Indexes, ev: Event, k: GcKey)
    requires ev.ReadEvent? && Partition(x) && MovesItsEntry(x, ev.item, ev.readNow) && StillTrue(x, ev.item)
    ensures Written(x, UpdateGC(x, ev.item, ev.readNow), ev, k)
  {
    assert AddrOk(x, ev.item.addr);
    var y := UpdateGC(x, ev.item, ev.readNow);
    if k in y.gc && !(k in x.gc && !Rewrites(x, ev, k)) {
      assert GcKey(x.access[ev.item.addr], ev.item.binID, ev.item.addr) in x.gc;
    }
  }

  lemma DropsWrite(x: Indexes, y: Indexes, ev: Event, k: GcKey)
    requires OnlyDrops(x, y) && !ev.ReadEvent?
    ensures Written(x, y, ev, k)
  {
  }

  lemma UnpinsWrite(x: Indexes, y: Indexes, ev: Event, k: GcKey)
    requires AddsBare(x, y) && Unpins(ev)
    ensures Written(x, y, ev, k)
  {
  }

  lemma PutsWrite(c: Config, x: Indexes, y: Indexes, ev: Event, k: GcKey)
    requires AddsOwn(c, x, y) && Partition(y) && ev.PutEvent?
    ensures Written(x, y, ev, k)
  {
    assert AddrOk(y, k.addr);
  }

  lemma StepWrites(c: Config, s: Sys, ev: Event, k: GcKey)
    requires SysOk(s) && Admissible(s, ev) && CountersOk(c, s.ix) && (ev.ReadEvent? ==> StillTrue(s.ix, ev.item))
    ensures Written(s.ix, Step(c, s, ev).ix, ev, k)
  {
    match ev {
      case SetEvent(mode, addrs, now) =>
        if mode.ModeUnpin? {
          UnpinCallAdds(c, s.ix, addrs, now);
          UnpinsWrite(s.ix, SetCall(c, mode, s.ix, addrs, now), ev, k);
        } else {
          SetCallDrops(c, mode, s.ix, addrs, now);
          DropsWrite(s.ix, SetCall(c, mode, s.ix, addrs, now), ev, k);
        }
      case PutEvent(kind, chs, now) =>
        PutCallOwn(c, kind, s.ix, chs, now);
        PutCallKeeps(c, kind, s.ix, chs, now);
        PutsWrite(c, s.ix, PutCall(c, kind, s.ix, chs, now), ev, k);
      case ReadEvent(item, now) => UpdateGCWrites(c, s.ix, ev, k);
      case UnreserveEvent(id, radius, order, now) => UnreserveWrites(c, s.ix, ev, k);
      case CollectEvent(target) => CollectWrites(c, s, ev, k);
      case _ =>
    }
  }

  lemma UnreserveWrites(c: Config, x: Indexes, ev: Event, k: GcKey)
    requires ev.UnreserveEvent? && Good(x)
    requires forall bin: nat :: OldRadius(x, ev.id) <= bin < ev.radius ==> BinOrder(x, ev.id, bin, ev.order(bin))
    ensures Written(x, UnreserveBatch(x, ev.id, ev.radius, ev.order, ev.binNow), ev, k)
  {
    forall b: nat | OldRadius(x, ev.id) <= b < ev.radius ensures Distinct(ev.order(b)) {
      assert BinOrder(x, ev.id, b, ev.order(b));
    }
    UnreserveAdds(c, x, ev.id, OldRadius(x, ev.id), ev.radius, ev.order, ev.binNow);
    UnpinsWrite(x, UnreserveBatch(x, ev.id, ev.radius, ev.order, ev.binNow), ev, k);
  }

  lemma CollectWrites(c: Config, s: Sys, ev: Event, k: GcKey)
    requires ev.CollectEvent?
    ensures Written(s.ix, Step(c, s, ev).ix, ev, k)
  {
    if s.phase.Gathered? {
      CollectDrops(c, s.ix, Collected(s.ix, [], false, false), s.phase.cands, 0, s.phase.dirty, ev.target);
    }
    DropsWrite(s.ix, Step(c, s, ev).ix, ev, k);
  }
}
