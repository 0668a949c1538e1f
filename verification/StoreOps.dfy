/**
 The per-chunk index transitions (mode_set.go, mode_put.go). Each reads the committed state `db`
 and adds to `batch`, the state the pending write batch will leave behind.
 */
module StoreOps {
  import opened Wrappers

  import opened StoreIndexes

  /** db.po, the proximity order of an address to the node's own. */
  datatype Config = Config(po: Address -> nat)
  {
    /** withinRadius */
    predicate Within(a: Address, radius: nat) {
      po(a) >= radius
    }
  }

  datatype Error = NotFound | Overwrite

  /** A pending batch, the change of gcSize that goes with it, and the error if there was one. */
  datatype Effect = Effect(batch: Indexes, gcChange: int, err: Option<Error>)

  /** The stamped chunk handed to Put. */
  datatype Chunk = Chunk(addr: Address, slot: Slot, stampTs: nat, radius: nat, immutable: bool)

  /** The fields of an Item that preserveOrCache passes on. */
  datatype Cached = Cached(addr: Address, accessTs: int, binID: nat, slot: Slot, radius: nat)

  /** What now() returns when a chunk is stored and when it is first accessed. */
  datatype Times = Times(store: int, access: int)

  // ----- mode_set.go -----

  function SetPin(db: Indexes, batch: Indexes, a: Address): Effect {
    var count := if a in db.pin then db.pin[a] else 0;
    if a in db.pin || a !in db.access then
      Effect(batch.PutPin(a, count + 1), 0, None)
    else if a !in db.data then
      Effect(batch, 0, Some(NotFound))
    else
      Effect(batch.DropGc(GcKey(db.access[a], db.data[a].binID, a)).PutPin(a, count + 1), -1, None)
  }

  /** The tail of setUnpin: the chunk becomes evictable, with its old access time if it has one. */
  function Evictable(db: Indexes, batch: Indexes, a: Address, now: int): Indexes
    requires a in db.data
  {
    var slot := Slot(db.data[a].slot.batch, 0);
    if a in db.access then
      batch.PutGc(GcKey(db.access[a], db.data[a].binID, a), slot)
    else
      batch.PutAccess(a, now).PutGc(GcKey(now, db.data[a].binID, a), slot)
  }

  function SetUnpin(db: Indexes, batch: Indexes, a: Address, now: int): Effect {
    if a !in db.pin then
      Effect(batch, 0, Some(NotFound))
    else if db.pin[a] > 1 then
      Effect(batch.PutPin(a, db.pin[a] - 1), 0, None)
    else if a !in db.data then
      Effect(batch.DropPin(a), 0, Some(NotFound))
    else if PushKey(db.data[a].storeTs, a) in db.push then
      Effect(batch.DropPin(a), 0, None)
    else
      Effect(Evictable(db, batch.DropPin(a), a, now), 1, None)
  }

  function SetRemove(c: Config, db: Indexes, batch: Indexes, a: Address): Effect {
    if a !in db.data then
      Effect(batch, 0, Some(NotFound))
    else
      var accessTs := if a in db.access then db.access[a] else 0;
      var e := db.data[a];
      var key := GcKey(accessTs, e.binID, a);
      var removed := batch
        .DropData(a)
        .DropAccess(a)
        .DropPush(PushKey(e.storeTs, a))
        .DropPull(PullKey(c.po(a), e.binID))
        .DropStamp(c.po(a), a, e.slot);
      if key in db.gc then
        Effect(removed.DropGc(key), -1, None)
      else
        Effect(removed.DropPin(a), 0, None)
  }

  function PreserveOrCache(c: Config, db: Indexes, batch: Indexes, item: Cached, forcePin: bool,
                           forceCache: bool): Effect {
    var key := GcKey(item.accessTs, item.binID, item.addr);
    if !forceCache && (c.Within(item.addr, item.radius) || forcePin) then
      SetPin(db, batch, item.addr)
    else if item.addr in db.pin then
      Effect(batch, 0, None)
    else if key in db.gc then
      Effect(batch, 0, None)
    else
      Effect(batch.PutGc(key, item.slot), 1, None)
  }

  /** The Item is built from the address alone, so its Radius is 0, and every chunk is within it. */
  function SetSync(c: Config, db: Indexes, batch: Indexes, a: Address, now: int): Effect {
    if a !in db.data then
      Effect(batch.DropPush(PushKey(0, a)), 0, None)
    else
      var e := db.data[a];
      var pushed := batch.DropPush(PushKey(e.storeTs, a));
      if a in db.access then
        PreserveOrCache(c, db, pushed, Cached(a, db.access[a], e.binID, e.slot, 0), false, false)
      else
        PreserveOrCache(c, db, pushed.PutAccess(a, now), Cached(a, now, e.binID, e.slot, 0), false, false)
  }

  datatype SetMode = ModeSync | ModeRemove | ModePin | ModeUnpin

  /** The switch over the modes of set. */
  function SetOne(c: Config, mode: SetMode, db: Indexes, batch: Indexes, a: Address, now: int): Effect {
    match mode
    case ModeSync => SetSync(c, db, batch, a, now)
    case ModeRemove => SetRemove(c, db, batch, a)
    case ModePin => SetPin(db, batch, a)
    case ModeUnpin => SetUnpin(db, batch, a, now)
  }

  // ----- mode_put.go -----

  datatype PutKind =
    | Request(pin: bool, cache: bool)
    | Upload(pin: bool)
    | Sync

  /** incBinID over the pending batch. */
  function NextBinID(batch: Indexes, po: nat): nat {
    (if po in batch.side.binIDs then batch.side.binIDs[po] else 0) + 1
  }

  /** The indexes every put writes for a new chunk. */
  function Stored(c: Config, batch: Indexes, ch: Chunk, now: int, pulled: bool): Indexes {
    var po := c.po(ch.addr);
    var id := NextBinID(batch, po);
    var stored := batch
      .PutBinID(po, id)
      .PutData(ch.addr, DataEntry(now, id, ch.slot, ch.stampTs))
      .PutStamp(po, ch.addr, ch.slot, ch.stampTs);
    if pulled then stored.PutPull(PullKey(po, id), ch.addr) else stored
  }

  /** putRequest, putUpload and putSync once the stamp slot is free. */
  function PutNew(c: Config, kind: PutKind, db: Indexes, batch: Indexes, ch: Chunk, t: Times): Effect {
    var id := NextBinID(batch, c.po(ch.addr));
    var item := Cached(ch.addr, t.access, id, ch.slot, ch.radius);
    match kind
    case Request(pin, cache) =>
      PreserveOrCache(c, db, Stored(c, batch, ch, t.store, !cache).PutAccess(ch.addr, t.access), item, pin, cache)
    case Upload(_) =>
      Effect(Stored(c, batch, ch, t.store, true).PutPush(PushKey(t.store, ch.addr)), 0, None)
    case Sync =>
      PreserveOrCache(c, db, Stored(c, batch, ch, t.store, true).PutAccess(ch.addr, t.access), item, false, false)
  }

  /** What happens to the chunk that holds the stamp slot. */
  datatype SlotState = Free | Keep | Refuse | Replace(prev: Address)

  function SlotOf(db: Indexes, ch: Chunk): SlotState {
    if ch.slot !in db.side.slots then Free
    else if ch.immutable then Refuse
    else if ch.stampTs <= db.side.slots[ch.slot].stampTs then Keep
    else Replace(db.side.slots[ch.slot].addr)
  }

  /** putRequest, putUpload and putSync; the latter two drop the change setRemove returns. */
  function PutOp(c: Config, kind: PutKind, db: Indexes, batch: Indexes, ch: Chunk, t: Times): Effect {
    match SlotOf(db, ch)
    case Free => PutNew(c, kind, db, batch, ch, t)
    case Keep => Effect(batch, 0, None)
    case Refuse => Effect(batch, 0, Some(Overwrite))
    case Replace(prev) =>
      var removed := SetRemove(c, db, batch, prev);
      if removed.err.Some? then removed
      else
        var put := PutNew(c, kind, db, removed.batch, ch, t);
        if kind.Request? then put.(gcChange := removed.gcChange + put.gcChange) else put
  }

  /** putChunk for an address that did not come earlier in the same call. */
  function PutChunk(c: Config, kind: PutKind, db: Indexes, batch: Indexes, ch: Chunk, t: Times): Effect {
    if ch.addr in db.data then
      Effect(batch, 0, None)
    else
      var put := PutOp(c, kind, db, batch, ch, t);
      if put.err.None? && kind.Upload? && kind.pin then
        var pinned := SetPin(db, put.batch, ch.addr);
        if pinned.err.None? then pinned.(gcChange := put.gcChange + pinned.gcChange) else put
      else
        put
  }

  // ----- mode_get.go -----

  /** What get hands to updateGC: the data entry of the address as it was read. */
  datatype Read = Read(addr: Address, binID: nat, slot: Slot)

  function UpdateGC(db: Indexes, item: Read, now: int): Indexes {
    var a := item.addr;
    if a !in db.access || db.access[a] == 0 then db
    else
      var key := GcKey(db.access[a], item.binID, a);
      var moved := if key in db.gc then db.DropGc(key).PutGc(GcKey(now, item.binID, a), item.slot) else db.DropGc(key);
      moved.PutAccess(a, now)
  }
}
