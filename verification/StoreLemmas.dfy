/** What each per-chunk transition keeps, and what it does to the gc index. */
module StoreLemmas {
  import opened Wrappers

  import opened StoreIndexes
  import opened StoreOps

  /** The pending batch is a good state that agrees with the committed one at the addresses still to come. */
  ghost predicate Pending(db: Indexes, batch: Indexes, a: Address) {
    AddrOk(db, a) && SameAt(db, batch, a)
  }

  /** An effect is sound: one address changed, consistently, and the counter change is the change of the gc index. */
  ghost predicate Sound(batch: Indexes, e: Effect, a: Address) {
    && OnlyAt(batch, e.batch, {a})
    && AddrOk(e.batch, a)
    && |e.batch.gc| == |batch.gc| + e.gcChange
  }

  // ----- setPin -----

  lemma SetPinElsewhere(db: Indexes, batch: Indexes, a: Address, x: Address)
    requires x != a
    ensures SameAt(batch, SetPin(db, batch, a).batch, x)
  {
    if a in db.pin {
    } else if a !in db.access {
    } else if a !in db.data {
    } else {
    }
  }

  lemma SetPinOk(db: Indexes, batch: Indexes, a: Address)
    requires Pending(db, batch, a)
    ensures AddrOk(SetPin(db, batch, a).batch, a)
    ensures SetPin(db, batch, a).err.None?
  {
    if a in db.pin {
    } else if a !in db.access {
    } else {
    }
  }

  lemma SetPinCount(db: Indexes, batch: Indexes, a: Address)
    requires Pending(db, batch, a)
    ensures |SetPin(db, batch, a).batch.gc| == |batch.gc| + SetPin(db, batch, a).gcChange
  {
    if a in db.pin {
    } else if a in db.access {
      RemovedSize(batch.gc, GcKey(db.access[a], db.data[a].binID, a));
    } else {
    }
  }

  lemma SetPinSound(db: Indexes, batch: Indexes, a: Address)
    requires Pending(db, batch, a)
    ensures Sound(batch, SetPin(db, batch, a), a)
    ensures SetPin(db, batch, a).err.None?
  {
    forall x | x !in {a} ensures SameAt(batch, SetPin(db, batch, a).batch, x) {
      SetPinElsewhere(db, batch, a, x);
    }
    SetPinOk(db, batch, a);
    SetPinCount(db, batch, a);
  }

  // ----- setUnpin -----

  lemma EvictableElsewhere(db: Indexes, batch: Indexes, a: Address, now: int, x: Address)
    requires a in db.data && x != a
    ensures SameAt(batch, Evictable(db, batch, a, now), x)
  {
    if a in db.access {
    } else {
    }
  }

  lemma EvictableOk(db: Indexes, batch: Indexes, a: Address, now: int)
    requires Pending(db, batch, a) && a in db.data && a in db.pin
    requires PushKey(db.data[a].storeTs, a) !in db.push
    ensures AddrOk(Evictable(db, batch.DropPin(a), a, now), a)
    ensures |Evictable(db, batch.DropPin(a), a, now).gc| == |batch.gc| + 1
  {
    var slot := Slot(db.data[a].slot.batch, 0);
    if a in db.access {
      AddedSize(batch.gc, GcKey(db.access[a], db.data[a].binID, a), slot);
    } else {
      AddedSize(batch.gc, GcKey(now, db.data[a].binID, a), slot);
    }
  }

  lemma UnpinnedOk(db: Indexes, batch: Indexes, a: Address)
    requires Pending(db, batch, a)
    requires a in db.data ==> PushKey(db.data[a].storeTs, a) in db.push
    ensures AddrOk(batch.DropPin(a), a)
  {
  }

  lemma RepinnedOk(db: Indexes, batch: Indexes, a: Address, count: nat)
    requires Pending(db, batch, a) && a in db.pin
    ensures AddrOk(batch.PutPin(a, count), a)
  {
  }

  lemma UnpinnedElsewhere(db: Indexes, batch: Indexes, after: Indexes, a: Address, now: int, count: nat, x: Address)
    requires x != a
    requires || after == batch
             || after == batch.PutPin(a, count)
             || after == batch.DropPin(a)
             || (a in db.data && after == Evictable(db, batch.DropPin(a), a, now))
    ensures SameAt(batch, after, x)
  {
    assert SameAt(batch, batch.DropPin(a), x);
    if a in db.data && after == Evictable(db, batch.DropPin(a), a, now) {
      EvictableElsewhere(db, batch.DropPin(a), a, now, x);
      SameAtTrans(batch, batch.DropPin(a), after, x);
    }
  }

  lemma SetUnpinElsewhere(db: Indexes, batch: Indexes, a: Address, now: int, x: Address)
    requires x != a
    ensures SameAt(batch, SetUnpin(db, batch, a, now).batch, x)
  {
    UnpinnedElsewhere(db, batch, SetUnpin(db, batch, a, now).batch, a, now,
                      if a in db.pin && db.pin[a] > 1 then db.pin[a] - 1 else 0, x);
  }

  lemma SetUnpinOk(db: Indexes, batch: Indexes, a: Address, now: int)
    requires Pending(db, batch, a)
    ensures AddrOk(SetUnpin(db, batch, a, now).batch, a)
    ensures |SetUnpin(db, batch, a, now).batch.gc| == |batch.gc| + SetUnpin(db, batch, a, now).gcChange
  {
    if a !in db.pin {
      SameAtOk(db, batch, a);
    } else if db.pin[a] > 1 {
      RepinnedOk(db, batch, a, db.pin[a] - 1);
    } else if a !in db.data || PushKey(db.data[a].storeTs, a) in db.push {
      UnpinnedOk(db, batch, a);
    } else {
      EvictableOk(db, batch, a, now);
    }
  }

  lemma SetUnpinSound(db: Indexes, batch: Indexes, a: Address, now: int)
    requires Pending(db, batch, a)
    ensures Sound(batch, SetUnpin(db, batch, a, now), a)
    ensures SetUnpin(db, batch, a, now).gcChange >= 0
  {
    forall x | x !in {a} ensures SameAt(batch, SetUnpin(db, batch, a, now).batch, x) {
      SetUnpinElsewhere(db, batch, a, now, x);
    }
    SetUnpinOk(db, batch, a, now);
  }

  // ----- setRemove -----

  lemma SetRemoveElsewhere(c: Config, db: Indexes, batch: Indexes, a: Address, x: Address)
    requires x != a
    ensures SameAt(batch, SetRemove(c, db, batch, a).batch, x)
  {
    var key := GcKey(if a in db.access then db.access[a] else 0, if a in db.data then db.data[a].binID else 0, a);
    if a !in db.data {
    } else if key in db.gc {
    } else {
    }
  }

  lemma SetRemoveOk(c: Config, db: Indexes, batch: Indexes, a: Address)
    requires Pending(db, batch, a)
    ensures AddrOk(SetRemove(c, db, batch, a).batch, a)
  {
    var key := GcKey(if a in db.access then db.access[a] else 0, if a in db.data then db.data[a].binID else 0, a);
    if a !in db.data {
    } else if key in db.gc {
    } else {
    }
  }

  lemma SetRemoveCount(c: Config, db: Indexes, batch: Indexes, a: Address)
    requires Pending(db, batch, a)
    ensures |SetRemove(c, db, batch, a).batch.gc| == |batch.gc| + SetRemove(c, db, batch, a).gcChange
  {
    var key := GcKey(if a in db.access then db.access[a] else 0, if a in db.data then db.data[a].binID else 0, a);
    if a !in db.data {
    } else if key in db.gc {
      RemovedSize(batch.gc, key);
    } else {
    }
  }

  lemma SetRemoveSound(c: Config, db: Indexes, batch: Indexes, a: Address)
    requires Pending(db, batch, a)
    ensures Sound(batch, SetRemove(c, db, batch, a), a)
  {
    forall x | x !in {a} ensures SameAt(batch, SetRemove(c, db, batch, a).batch, x) {
      SetRemoveElsewhere(c, db, batch, a, x);
    }
    SetRemoveOk(c, db, batch, a);
    SetRemoveCount(c, db, batch, a);
  }

  /** The chunk is in the gc index, where setRemove looks for it. */
  predicate InCache(ix: Indexes, a: Address) {
    a in ix.data && GcKey(if a in ix.access then ix.access[a] else 0, ix.data[a].binID, a) in ix.gc
  }

  lemma SetRemoveChange(c: Config, db: Indexes, batch: Indexes, a: Address)
    ensures SetRemove(c, db, batch, a).err.None? <==> a in db.data
    ensures SetRemove(c, db, batch, a).gcChange == if InCache(db, a) then -1 else 0
  {
  }

  lemma SetRemoveGone(c: Config, db: Indexes, batch: Indexes, a: Address)
    requires Pending(db, batch, a) && a in db.data
    ensures Gone(SetRemove(c, db, batch, a).batch, a)
  {
    var key := GcKey(if a in db.access then db.access[a] else 0, db.data[a].binID, a);
    if key in db.gc {
    } else {
    }
  }

  /** Removing once more what the batch has removed already changes no address, and no entry is left to remove. */
  lemma SetRemoveAgain(c: Config, db: Indexes, batch: Indexes, a: Address)
    requires Gone(batch, a) && a in db.data
    ensures
      var after := SetRemove(c, db, batch, a).batch;
      OnlyAt(batch, after, {}) && Gone(after, a) && |after.gc| == |batch.gc|
  {
    var after := SetRemove(c, db, batch, a).batch;
    RemovedAgainSame(c, db, batch, a);
    forall x | x != a ensures SameAt(batch, after, x) {
      SetRemoveElsewhere(c, db, batch, a, x);
    }
    SameAtGone(batch, after, a);
  }

  lemma RemovedAgainSame(c: Config, db: Indexes, batch: Indexes, a: Address)
    requires Gone(batch, a) && a in db.data
    ensures
      var after := SetRemove(c, db, batch, a).batch;
      SameAt(batch, after, a) && |after.gc| == |batch.gc|
  {
    var key := GcKey(if a in db.access then db.access[a] else 0, db.data[a].binID, a);
    RemovedSize(batch.gc, key);
    if key in db.gc {
    } else {
    }
  }

  // ----- preserveOrCache -----

  /** What preserveOrCache relies on: data and access of the chunk are in the batch, its gc and pin entries untouched. */
  ghost predicate Cacheable(db: Indexes, batch: Indexes, item: Cached) {
    var a := item.addr;
    && AddrOk(db, a)
    && (a in db.access ==> db.access[a] == item.accessTs && db.data[a].binID == item.binID)
    && a in batch.data && batch.data[a].binID == item.binID
    && a in batch.access && batch.access[a] == item.accessTs
    && (forall k: PushKey {:trigger k in batch.push} :: k.addr == a ==> k !in batch.push)
    && (forall k: GcKey {:trigger k in batch.gc} {:trigger k in db.gc} :: k.addr == a ==> (k in batch.gc <==> k in db.gc))
    && (a in batch.pin <==> a in db.pin)
  }

  lemma PreserveElsewhere(c: Config, db: Indexes, batch: Indexes, item: Cached, pin: bool, cache: bool, x: Address)
    requires x != item.addr
    ensures SameAt(batch, PreserveOrCache(c, db, batch, item, pin, cache).batch, x)
  {
    var key := GcKey(item.accessTs, item.binID, item.addr);
    if !cache && (c.Within(item.addr, item.radius) || pin) {
      SetPinElsewhere(db, batch, item.addr, x);
    } else if item.addr in db.pin {
    } else if key in db.gc {
    } else {
    }
  }

  lemma PreserveSide(c: Config, db: Indexes, batch: Indexes, item: Cached, pin: bool, cache: bool)
    ensures PreserveOrCache(c, db, batch, item, pin, cache).batch.side == batch.side
  {
  }

  lemma PinCachedOk(db: Indexes, batch: Indexes, item: Cached)
    requires Cacheable(db, batch, item)
    ensures AddrOk(SetPin(db, batch, item.addr).batch, item.addr)
    ensures SetPin(db, batch, item.addr).err.None?
  {
    if item.addr in db.pin {
    } else if item.addr in db.access {
    } else {
    }
  }

  lemma EvictCachedOk(db: Indexes, batch: Indexes, item: Cached)
    requires Cacheable(db, batch, item) && item.addr !in db.pin
    requires GcKey(item.accessTs, item.binID, item.addr) !in db.gc
    ensures AddrOk(batch.PutGc(GcKey(item.accessTs, item.binID, item.addr), item.slot), item.addr)
  {
  }

  lemma KeepCachedOk(db: Indexes, batch: Indexes, item: Cached)
    requires Cacheable(db, batch, item)
    requires item.addr in db.pin || GcKey(item.accessTs, item.binID, item.addr) in db.gc
    ensures AddrOk(batch, item.addr)
  {
  }

  lemma PreserveOk(c: Config, db: Indexes, batch: Indexes, item: Cached, pin: bool, cache: bool)
    requires Cacheable(db, batch, item)
    ensures AddrOk(PreserveOrCache(c, db, batch, item, pin, cache).batch, item.addr)
    ensures PreserveOrCache(c, db, batch, item, pin, cache).err.None?
  {
    if !cache && (c.Within(item.addr, item.radius) || pin) {
      PinCachedOk(db, batch, item);
    } else if item.addr in db.pin || GcKey(item.accessTs, item.binID, item.addr) in db.gc {
      KeepCachedOk(db, batch, item);
    } else {
      EvictCachedOk(db, batch, item);
    }
  }

  lemma PreserveCount(c: Config, db: Indexes, batch: Indexes, item: Cached, pin: bool, cache: bool)
    requires Cacheable(db, batch, item)
    ensures
      var e := PreserveOrCache(c, db, batch, item, pin, cache);
      && |e.batch.gc| == |batch.gc| + e.gcChange
      && (item.addr !in db.access ==> e.gcChange >= 0)
  {
    var key := GcKey(item.accessTs, item.binID, item.addr);
    if !cache && (c.Within(item.addr, item.radius) || pin) {
      if item.addr in db.pin {
      } else if item.addr in db.access {
        RemovedSize(batch.gc, key);
      } else {
      }
    } else if item.addr in db.pin {
    } else if key in db.gc {
    } else {
      AddedSize(batch.gc, key, item.slot);
    }
  }

  // ----- setSync -----

  function Synced(db: Indexes, batch: Indexes, a: Address, now: int): Indexes
    requires a in db.data
  {
    var pushed := batch.DropPush(PushKey(db.data[a].storeTs, a));
    if a in db.access then pushed else pushed.PutAccess(a, now)
  }

  lemma SyncedCacheable(db: Indexes, batch: Indexes, a: Address, now: int)
    requires Pending(db, batch, a) && a in db.data
    ensures
      var e := db.data[a];
      Cacheable(db, Synced(db, batch, a, now), Cached(a, if a in db.access then db.access[a] else now, e.binID, e.slot, 0))
  {
  }

  lemma SyncedElsewhere(db: Indexes, batch: Indexes, a: Address, now: int, x: Address)
    requires a in db.data && x != a
    ensures SameAt(batch, Synced(db, batch, a, now), x)
  {
  }

  lemma SetSyncElsewhere(c: Config, db: Indexes, batch: Indexes, a: Address, now: int, x: Address)
    requires x != a
    ensures SameAt(batch, SetSync(c, db, batch, a, now).batch, x)
  {
    if a in db.data {
      var item := Cached(a, if a in db.access then db.access[a] else now, db.data[a].binID, db.data[a].slot, 0);
      SyncedElsewhere(db, batch, a, now, x);
      PreserveElsewhere(c, db, Synced(db, batch, a, now), item, false, false, x);
      SameAtTrans(batch, Synced(db, batch, a, now), SetSync(c, db, batch, a, now).batch, x);
    }
  }

  lemma SetSyncSound(c: Config, db: Indexes, batch: Indexes, a: Address, now: int)
    requires Pending(db, batch, a)
    ensures Sound(batch, SetSync(c, db, batch, a, now), a)
    ensures SetSync(c, db, batch, a, now).err.None?
  {
    if a in db.data {
      var e := db.data[a];
      var item := Cached(a, if a in db.access then db.access[a] else now, e.binID, e.slot, 0);
      var synced := Synced(db, batch, a, now);
      SyncedCacheable(db, batch, a, now);
      PreserveOk(c, db, synced, item, false, false);
      PreserveCount(c, db, synced, item, false, false);
    }
    forall x | x !in {a} ensures SameAt(batch, SetSync(c, db, batch, a, now).batch, x) {
      SetSyncElsewhere(c, db, batch, a, now, x);
    }
  }

  // ----- the put functions -----

  lemma StoredElsewhere(c: Config, batch: Indexes, ch: Chunk, now: int, pulled: bool, x: Address)
    requires x != ch.addr
    ensures SameAt(batch, Stored(c, batch, ch, now, pulled), x)
  {
  }

  /** A chunk that was just stored and accessed. */
  function Accessed(c: Config, batch: Indexes, ch: Chunk, t: Times, pulled: bool): Indexes {
    Stored(c, batch, ch, t.store, pulled).PutAccess(ch.addr, t.access)
  }

  function NewItem(c: Config, batch: Indexes, ch: Chunk, t: Times): Cached {
    Cached(ch.addr, t.access, NextBinID(batch, c.po(ch.addr)), ch.slot, ch.radius)
  }

  lemma AccessedElsewhere(c: Config, batch: Indexes, ch: Chunk, t: Times, pulled: bool, x: Address)
    requires x != ch.addr
    ensures SameAt(batch, Accessed(c, batch, ch, t, pulled), x)
  {
  }

  lemma AccessedCacheable(c: Config, db: Indexes, batch: Indexes, ch: Chunk, t: Times, pulled: bool)
    requires Pending(db, batch, ch.addr) && ch.addr !in db.data
    ensures Cacheable(db, Accessed(c, batch, ch, t, pulled), NewItem(c, batch, ch, t))
  {
  }

  lemma CacheNewSound(c: Config, db: Indexes, batch: Indexes, ch: Chunk, t: Times, pulled: bool, pin: bool, cache: bool)
    requires Pending(db, batch, ch.addr) && ch.addr !in db.data
    ensures
      var e := PreserveOrCache(c, db, Accessed(c, batch, ch, t, pulled), NewItem(c, batch, ch, t), pin, cache);
      Sound(batch, e, ch.addr) && e.err.None? && e.gcChange >= 0
  {
    var accessed := Accessed(c, batch, ch, t, pulled);
    var item := NewItem(c, batch, ch, t);
    AccessedCacheable(c, db, batch, ch, t, pulled);
    PreserveOk(c, db, accessed, item, pin, cache);
    PreserveCount(c, db, accessed, item, pin, cache);
    forall x | x !in {ch.addr} ensures SameAt(batch, PreserveOrCache(c, db, accessed, item, pin, cache).batch, x) {
      AccessedElsewhere(c, batch, ch, t, pulled, x);
      PreserveElsewhere(c, db, accessed, item, pin, cache, x);
      SameAtTrans(batch, accessed, PreserveOrCache(c, db, accessed, item, pin, cache).batch, x);
    }
  }

  lemma UploadSound(c: Config, db: Indexes, batch: Indexes, ch: Chunk, t: Times, pin: bool)
    requires Pending(db, batch, ch.addr) && ch.addr !in db.data
    ensures Sound(batch, PutNew(c, Upload(pin), db, batch, ch, t), ch.addr)
  {
    forall x | x !in {ch.addr} ensures SameAt(batch, PutNew(c, Upload(pin), db, batch, ch, t).batch, x) {
      StoredElsewhere(c, batch, ch, t.store, true, x);
    }
  }

  /** A new chunk goes to push sync, to the reserve or to the gc index. */
  lemma PutNewSound(c: Config, kind: PutKind, db: Indexes, batch: Indexes, ch: Chunk, t: Times)
    requires Pending(db, batch, ch.addr) && ch.addr !in db.data
    ensures Sound(batch, PutNew(c, kind, db, batch, ch, t), ch.addr)
    ensures PutNew(c, kind, db, batch, ch, t).err.None?
    ensures PutNew(c, kind, db, batch, ch, t).gcChange >= 0
  {
    match kind {
      case Request(pin, cache) => CacheNewSound(c, db, batch, ch, t, !cache, pin, cache);
      case Upload(pin) => UploadSound(c, db, batch, ch, t, pin);
      case Sync => CacheNewSound(c, db, batch, ch, t, true, false, false);
    }
  }

  /** The chunk whose slot a put takes over, if it takes one over. */
  function Replaced(db: Indexes, ch: Chunk): Option<Address> {
    if ch.addr !in db.data && SlotOf(db, ch).Replace? then Some(SlotOf(db, ch).prev) else None
  }

  /** The addresses a put touches. */
  function Touched(db: Indexes, ch: Chunk): set<Address> {
    if ch.addr in db.data then {}
    else if Replaced(db, ch).Some? then {ch.addr, Replaced(db, ch).value}
    else {ch.addr}
  }

  /** Whether the put of a chunk subtracts the entry of its slot's older owner from the counter; uploads and syncs drop the change. */
  function CountedNow(kind: PutKind, db: Indexes, ch: Chunk): nat {
    if kind.Request? && Replaced(db, ch).Some? && InCache(db, Replaced(db, ch).value) then 1 else 0
  }

  /** Whether it removes an entry: not when an earlier chunk of the same call has removed the owner. */
  function RemovedNow(db: Indexes, batch: Indexes, ch: Chunk): nat {
    if Replaced(db, ch).Some? && InCache(db, Replaced(db, ch).value) && Replaced(db, ch).value in batch.data then 1 else 0
  }

  ghost predicate PutSound(c: Config, kind: PutKind, db: Indexes, batch: Indexes, ch: Chunk, e: Effect) {
    && OnlyAt(batch, e.batch, Touched(db, ch))
    && (forall a :: a in Touched(db, ch) ==> AddrOk(e.batch, a))
    && (Replaced(db, ch).Some? ==> Gone(e.batch, Replaced(db, ch).value))
    && |e.batch.gc| == |batch.gc| + e.gcChange + CountedNow(kind, db, ch) - RemovedNow(db, batch, ch)
  }

  /** The owner of a slot is as committed, or an earlier chunk of the same call has removed it. */
  ghost predicate Removable(db: Indexes, batch: Indexes, prev: Address) {
    Pending(db, batch, prev) || Gone(batch, prev)
  }

  lemma RemoveSound(c: Config, db: Indexes, batch: Indexes, prev: Address)
    requires Removable(db, batch, prev) && prev in db.data
    ensures
      var removed := SetRemove(c, db, batch, prev);
      && OnlyAt(batch, removed.batch, {prev}) && Gone(removed.batch, prev)
      && |removed.batch.gc| == |batch.gc| - if InCache(db, prev) && prev in batch.data then 1 else 0
  {
    if Gone(batch, prev) {
      SetRemoveAgain(c, db, batch, prev);
    } else {
      SetRemoveSound(c, db, batch, prev);
      SetRemoveGone(c, db, batch, prev);
      SetRemoveChange(c, db, batch, prev);
    }
  }

  lemma ReplaceSound(c: Config, kind: PutKind, db: Indexes, batch: Indexes, ch: Chunk, t: Times, prev: Address,
                     removed: Effect, put: Effect)
    requires Pending(db, batch, ch.addr) && Removable(db, batch, prev)
    requires ch.addr !in db.data && prev in db.data
    requires removed == SetRemove(c, db, batch, prev)
    requires put == PutNew(c, kind, db, removed.batch, ch, t)
    ensures put.err.None? && put.gcChange >= 0
    ensures OnlyAt(batch, put.batch, {prev, ch.addr})
    ensures Gone(put.batch, prev) && AddrOk(put.batch, prev) && AddrOk(put.batch, ch.addr)
    ensures |put.batch.gc| == |batch.gc| + put.gcChange - if InCache(db, prev) && prev in batch.data then 1 else 0
  {
    RemoveSound(c, db, batch, prev);
    StillPending(db, batch, removed.batch, prev, ch.addr);
    PutNewSound(c, kind, db, removed.batch, ch, t);
    StaysGone(batch, removed.batch, put.batch, prev, ch.addr);
  }

  lemma StaysGone(batch: Indexes, removed: Indexes, put: Indexes, prev: Address, a: Address)
    requires OnlyAt(batch, removed, {prev}) && Gone(removed, prev) && OnlyAt(removed, put, {a}) && a != prev
    ensures OnlyAt(batch, put, {prev, a}) && Gone(put, prev) && AddrOk(put, prev)
  {
    OnlyAtTrans(batch, removed, put, {prev}, {a});
    assert {prev} + {a} == {prev, a};
    assert SameAt(removed, put, prev);
    SameAtGone(removed, put, prev);
  }

  lemma StillPending(db: Indexes, batch: Indexes, later: Indexes, touched: Address, a: Address)
    requires Pending(db, batch, a) && OnlyAt(batch, later, {touched}) && a != touched
    ensures Pending(db, later, a)
  {
    assert SameAt(batch, later, a);
    SameAtTrans(db, batch, later, a);
  }

  lemma PutAloneSound(c: Config, kind: PutKind, db: Indexes, batch: Indexes, ch: Chunk, e: Effect)
    requires ch.addr !in db.data && Replaced(db, ch).None? && Sound(batch, e, ch.addr)
    ensures PutSound(c, kind, db, batch, ch, e)
  {
  }

  lemma PutOverShape(c: Config, kind: PutKind, db: Indexes, batch: Indexes, ch: Chunk, t: Times, prev: Address)
    requires ch.addr !in db.data && SlotOf(db, ch) == Replace(prev)
    ensures
      var e := PutOp(c, kind, db, batch, ch, t);
      var removed := SetRemove(c, db, batch, prev);
      var put := PutNew(c, kind, db, removed.batch, ch, t);
      && (e.err.None? ==> prev in db.data)
      && (prev in db.data ==>
            e.batch == put.batch && e.err == put.err &&
            e.gcChange == if kind.Request? then removed.gcChange + put.gcChange else put.gcChange)
    ensures Touched(db, ch) == {prev, ch.addr} && Replaced(db, ch) == Some(prev)
  {
  }

  lemma PutOverSum(c: Config, kind: PutKind, db: Indexes, batch: Indexes, ch: Chunk, prev: Address, change: int, e: Effect)
    requires Touched(db, ch) == {prev, ch.addr} && Replaced(db, ch) == Some(prev)
    requires OnlyAt(batch, e.batch, {prev, ch.addr}) && Gone(e.batch, prev)
    requires AddrOk(e.batch, prev) && AddrOk(e.batch, ch.addr)
    requires |e.batch.gc| == |batch.gc| + change - if InCache(db, prev) && prev in batch.data then 1 else 0
    requires e.gcChange == change - if kind.Request? && InCache(db, prev) then 1 else 0
    ensures PutSound(c, kind, db, batch, ch, e)
  {
  }

  lemma PutOverSound(c: Config, kind: PutKind, db: Indexes, batch: Indexes, ch: Chunk, t: Times, prev: Address, e: Effect)
    requires Pending(db, batch, ch.addr) && Removable(db, batch, prev)
    requires ch.addr !in db.data && prev in db.data && SlotOf(db, ch) == Replace(prev)
    requires e == PutOp(c, kind, db, batch, ch, t)
    ensures PutSound(c, kind, db, batch, ch, e)
    ensures !kind.Request? ==> e.gcChange >= 0
  {
    var removed := SetRemove(c, db, batch, prev);
    var put := PutNew(c, kind, db, removed.batch, ch, t);
    PutOverShape(c, kind, db, batch, ch, t, prev);
    ReplaceSound(c, kind, db, batch, ch, t, prev, removed, put);
    SetRemoveChange(c, db, batch, prev);
    PutOverSum(c, kind, db, batch, ch, prev, put.gcChange, e);
  }

  lemma PutOpSound(c: Config, kind: PutKind, db: Indexes, batch: Indexes, ch: Chunk, t: Times, e: Effect)
    requires Pending(db, batch, ch.addr) && ch.addr !in db.data
    requires Replaced(db, ch).Some? && Replaced(db, ch).value in db.data ==> Removable(db, batch, Replaced(db, ch).value)
    requires e == PutOp(c, kind, db, batch, ch, t) && e.err.None?
    ensures PutSound(c, kind, db, batch, ch, e)
    ensures !kind.Request? ==> e.gcChange >= 0
  {
    match SlotOf(db, ch) {
      case Free =>
        PutNewSound(c, kind, db, batch, ch, t);
        PutAloneSound(c, kind, db, batch, ch, e);
      case Keep =>
        SameAtOk(db, batch, ch.addr);
        SameAtAll(batch);
        PutAloneSound(c, kind, db, batch, ch, e);
      case Refuse =>
      case Replace(prev) =>
        PutOverShape(c, kind, db, batch, ch, t, prev);
        PutOverSound(c, kind, db, batch, ch, t, prev, e);
    }
  }

  // ----- putChunk -----

  lemma UploadKeepsAccess(c: Config, db: Indexes, batch: Indexes, ch: Chunk, t: Times, pin: bool)
    requires Pending(db, batch, ch.addr) && ch.addr !in db.data
    ensures ch.addr !in PutOp(c, Upload(pin), db, batch, ch, t).batch.access
  {
    match SlotOf(db, ch) {
      case Free =>
      case Keep =>
      case Refuse =>
      case Replace(prev) =>
    }
  }

  /** setPin right after putUpload: the chunk is new, so there is no gc entry to remove. */
  lemma PinNew(db: Indexes, batch: Indexes, a: Address)
    requires AddrOk(db, a) && a !in db.data && AddrOk(batch, a) && a !in batch.access
    ensures
      var e := SetPin(db, batch, a);
      && e.err.None? && e.gcChange == 0 && e.batch.gc == batch.gc && e.batch.data == batch.data
      && OnlyAt(batch, e.batch, {a}) && AddrOk(e.batch, a)
  {
    forall x | x !in {a} ensures SameAt(batch, SetPin(db, batch, a).batch, x) {
      SetPinElsewhere(db, batch, a, x);
    }
  }

  lemma PinnedPutSound(c: Config, kind: PutKind, db: Indexes, batch: Indexes, ch: Chunk, put: Effect, pinned: Effect)
    requires ch.addr !in db.data && PutSound(c, kind, db, batch, ch, put)
    requires Replaced(db, ch).Some? ==> Replaced(db, ch).value != ch.addr
    requires OnlyAt(put.batch, pinned.batch, {ch.addr}) && AddrOk(pinned.batch, ch.addr)
    requires pinned.batch.gc == put.batch.gc && pinned.gcChange == put.gcChange
    ensures PutSound(c, kind, db, batch, ch, pinned)
  {
    OnlyAtTrans(batch, put.batch, pinned.batch, Touched(db, ch), {ch.addr});
    assert Touched(db, ch) + {ch.addr} == Touched(db, ch);
    if Replaced(db, ch).Some? {
      assert SameAt(put.batch, pinned.batch, Replaced(db, ch).value);
      SameAtGone(put.batch, pinned.batch, Replaced(db, ch).value);
    }
    forall a | a in Touched(db, ch) ensures AddrOk(pinned.batch, a) {
      if a != ch.addr {
        assert SameAt(put.batch, pinned.batch, a);
        SameAtOk(put.batch, pinned.batch, a);
      }
    }
  }

  lemma PutChunkSound(c: Config, kind: PutKind, db: Indexes, batch: Indexes, ch: Chunk, t: Times, e: Effect)
    requires ch.addr !in db.data ==> Pending(db, batch, ch.addr)
    requires Replaced(db, ch).Some? && Replaced(db, ch).value in db.data ==> Removable(db, batch, Replaced(db, ch).value)
    requires e == PutChunk(c, kind, db, batch, ch, t) && e.err.None?
    ensures PutSound(c, kind, db, batch, ch, e)
    ensures !kind.Request? ==> e.gcChange >= 0
  {
    if ch.addr in db.data {
      SameAtAll(batch);
    } else {
      var put := PutOp(c, kind, db, batch, ch, t);
      PutOpSound(c, kind, db, batch, ch, t, put);
      if Replaced(db, ch).Some? {
        PutOverShape(c, kind, db, batch, ch, t, Replaced(db, ch).value);
      }
      if kind.Upload? && kind.pin {
        UploadKeepsAccess(c, db, batch, ch, t, kind.pin);
        PinNew(db, put.batch, ch.addr);
        PinnedPutSound(c, kind, db, batch, ch, put, e);
      }
    }
  }
}
