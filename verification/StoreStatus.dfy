/**
 What the indexes say about one chunk, and how the transitions look at that level: nine indexes
 updated in place refine a small state machine per chunk.
 */
module StoreStatus {
  import opened Wrappers

  import opened StoreIndexes
  import opened StoreOps
  import opened StoreLemmas
  import opened StoreCalls
  import opened StorePuts
  import opened StoreReserve

  /** stored: has data; pushing: awaits push sync; cached: garbage collection may take it. */
  datatype Status = Status(stored: bool, pushing: bool, access: Option<int>, pins: nat, cached: bool)

  const GONE := Status(false, false, None, 0, false)

  function StatusOf(ix: Indexes, a: Address): Status {
    Status(a in ix.data,
           a in ix.data && PushKey(ix.data[a].storeTs, a) in ix.push,
           if a in ix.access then Some(ix.access[a]) else None,
           if a in ix.pin then ix.pin[a] else 0,
           a in ix.data && a in ix.access && GcKey(ix.access[a], ix.data[a].binID, a) in ix.gc)
  }

  // ----- the state machine of one chunk -----

  function AccessedAt(s: Status, now: int): Status {
    if s.access.Some? then s else s.(access := Some(now))
  }

  function Pinned(s: Status): Status {
    s.(pins := s.pins + 1, cached := false)
  }

  function Unpinned(s: Status, now: int): Status {
    if s.pins == 1 && s.stored && !s.pushing then AccessedAt(s, now).(pins := 0, cached := true)
    else if s.pins == 0 then s
    else s.(pins := s.pins - 1)
  }

  /** Within the radius a chunk is pinned by the reserve, outside it goes to the cache unless pinned. */
  function Preserved(s: Status, keep: bool): Status {
    if keep then Pinned(s) else if s.pins > 0 then s else s.(cached := true)
  }

  /** A synced chunk stays in the reserve: its radius counts as 0. */
  function Synced(s: Status, now: int): Status {
    if s.stored then Pinned(AccessedAt(s.(pushing := false), now)) else s
  }

  function AfterSet(mode: SetMode, s: Status, now: int): Status {
    match mode
    case ModeSync => Synced(s, now)
    case ModeRemove => if s.stored then GONE else s
    case ModePin => Pinned(s)
    case ModeUnpin => Unpinned(s, now)
  }

  function New(kind: PutKind, s: Status, t: Times, within: bool): Status {
    match kind
    case Request(pin, cache) => Preserved(Status(true, false, Some(t.access), s.pins, false), !cache && (within || pin))
    case Upload(_) => Status(true, true, None, s.pins, false)
    case Sync => Preserved(Status(true, false, Some(t.access), s.pins, false), within)
  }

  function AfterPut(kind: PutKind, s: Status, t: Times, within: bool, slotKept: bool): Status {
    if s.stored then s
    else
      var put := if slotKept then s else New(kind, s, t, within);
      if kind.Upload? && kind.pin then Pinned(put) else put
  }

  // ----- the transitions follow it -----

  lemma SameStatus(x: Indexes, y: Indexes, a: Address)
    requires SameAt(x, y, a)
    ensures StatusOf(x, a) == StatusOf(y, a) && (ChunkOk(x, a) ==> ChunkOk(y, a))
  {
  }

  lemma GoneStatus(ix: Indexes, a: Address)
    requires Gone(ix, a)
    ensures StatusOf(ix, a) == GONE && ChunkOk(ix, a)
  {
  }

  /** Only stored chunks have a gc entry, an access time or a push entry. */
  lemma AbsentStatus(ix: Indexes, a: Address)
    requires AddrOk(ix, a) && a !in ix.data
    ensures StatusOf(ix, a) == GONE.(pins := StatusOf(ix, a).pins)
  {
  }

  lemma SetPinStatus(db: Indexes, batch: Indexes, a: Address)
    requires Pending(db, batch, a) && ChunkOk(db, a)
    ensures
      var after := SetPin(db, batch, a).batch;
      StatusOf(after, a) == Pinned(StatusOf(db, a)) && ChunkOk(after, a)
  {
    if a in db.pin {
    } else if a !in db.access {
    } else {
    }
  }

  lemma EvictableStatus(db: Indexes, batch: Indexes, a: Address, now: int)
    requires Pending(db, batch, a) && a in db.data && a in db.pin && db.pin[a] == 1
    requires PushKey(db.data[a].storeTs, a) !in db.push
    ensures
      var after := Evictable(db, batch.DropPin(a), a, now);
      StatusOf(after, a) == Unpinned(StatusOf(db, a), now) && ChunkOk(after, a)
  {
    if a in db.access {
    } else {
    }
  }

  lemma SetUnpinStatus(db: Indexes, batch: Indexes, a: Address, now: int)
    requires Pending(db, batch, a) && ChunkOk(db, a)
    ensures
      var after := SetUnpin(db, batch, a, now).batch;
      StatusOf(after, a) == Unpinned(StatusOf(db, a), now) && ChunkOk(after, a)
  {
    if a !in db.pin {
    } else if db.pin[a] > 1 {
    } else if a !in db.data || PushKey(db.data[a].storeTs, a) in db.push {
    } else {
      EvictableStatus(db, batch, a, now);
    }
  }

  lemma SetRemoveStatus(c: Config, db: Indexes, batch: Indexes, a: Address)
    requires Pending(db, batch, a) && ChunkOk(db, a)
    ensures
      var after := SetRemove(c, db, batch, a).batch;
      StatusOf(after, a) == (if a in db.data then GONE else StatusOf(db, a)) && ChunkOk(after, a)
  {
    if a in db.data {
      SetRemoveGone(c, db, batch, a);
      GoneStatus(SetRemove(c, db, batch, a).batch, a);
    }
  }

  /** Removal leaves nothing behind: not in pull order and not in the postage indexes either. */
  lemma SetRemoveClears(c: Config, db: Indexes, batch: Indexes, a: Address)
    requires a in db.data
    ensures
      var side := SetRemove(c, db, batch, a).batch.side;
      && PullKey(c.po(a), db.data[a].binID) !in side.pull
      && ChunkKey(db.data[a].slot.batch, c.po(a), a) !in side.chunks
      && db.data[a].slot !in side.slots
  {
    var key := GcKey(if a in db.access then db.access[a] else 0, db.data[a].binID, a);
    if key in db.gc {
    } else {
    }
  }

  lemma PreserveStatus(c: Config, db: Indexes, batch: Indexes, item: Cached, pin: bool, cache: bool)
    requires Cacheable(db, batch, item) && ChunkOk(db, item.addr)
    requires item.addr in batch.pin ==> batch.pin[item.addr] == db.pin[item.addr]
    ensures
      var after := PreserveOrCache(c, db, batch, item, pin, cache).batch;
      && StatusOf(after, item.addr) ==
           Preserved(StatusOf(batch, item.addr), !cache && (c.Within(item.addr, item.radius) || pin))
      && ChunkOk(after, item.addr)
  {
    var key := GcKey(item.accessTs, item.binID, item.addr);
    if !cache && (c.Within(item.addr, item.radius) || pin) {
      if item.addr in db.pin {
      } else if item.addr in db.access {
      } else {
      }
    } else if item.addr in db.pin {
    } else if key in db.gc {
    } else {
    }
  }

  lemma SetSyncStatus(c: Config, db: Indexes, batch: Indexes, a: Address, now: int)
    requires Pending(db, batch, a) && ChunkOk(db, a)
    ensures
      var after := SetSync(c, db, batch, a, now).batch;
      StatusOf(after, a) == Synced(StatusOf(db, a), now) && ChunkOk(after, a)
  {
    if a in db.data {
      var e := db.data[a];
      var item := Cached(a, if a in db.access then db.access[a] else now, e.binID, e.slot, 0);
      var synced := StoreLemmas.Synced(db, batch, a, now);
      assert c.Within(a, 0);
      SyncedCacheable(db, batch, a, now);
      assert StatusOf(synced, a) == AccessedAt(StatusOf(db, a).(pushing := false), now);
      PreserveStatus(c, db, synced, item, false, false);
    }
  }

  lemma SetOneStatus(c: Config, mode: SetMode, db: Indexes, batch: Indexes, a: Address, now: int)
    requires Pending(db, batch, a) && ChunkOk(db, a)
    ensures
      var after := SetOne(c, mode, db, batch, a, now).batch;
      && StatusOf(after, a) == AfterSet(mode, StatusOf(db, a), now)
      && ChunkOk(after, a)
  {
    match mode {
      case ModeSync => SetSyncStatus(c, db, batch, a, now);
      case ModeRemove => SetRemoveStatus(c, db, batch, a);
      case ModePin => SetPinStatus(db, batch, a);
      case ModeUnpin => SetUnpinStatus(db, batch, a, now);
    }
  }

  /** updateGC on the entry a read just returned moves the access time, and nothing else of the chunk. */
  lemma UpdateGCStatus(db: Indexes, a: Address, now: int)
    requires AddrOk(db, a) && a in db.data
    ensures
      var s := StatusOf(db, a);
      StatusOf(UpdateGC(db, Read(a, db.data[a].binID, db.data[a].slot), now), a) ==
        if s.access.Some? && s.access.value != 0 then s.(access := Some(now)) else s
  {
    if a in db.access && db.access[a] != 0 {
      var key := GcKey(db.access[a], db.data[a].binID, a);
      if key in db.gc {
      } else {
        assert forall k :: k in db.gc ==> k.addr != a || k == key;
      }
    }
  }

  // ----- whole set calls -----

  lemma SetAtStatus(c: Config, mode: SetMode, db: Indexes, batch: Indexes, addrs: seq<Address>, now: nat -> int, x: Address)
    requires Good(db) && SetAt(c, mode, db, batch, addrs, now, |addrs|, x)
    ensures StatusOf(batch, x) == SetStatus(mode, db, addrs, now, x)
  {
    var i := Latest(addrs, |addrs|, x);
    assert AddrOk(db, x) && ChunkOk(db, x);
    if i < 0 {
      SameStatus(db, batch, x);
    } else {
      var once := SetOne(c, mode, db, db, x, now(i)).batch;
      SetOneStatus(c, mode, db, db, x, now(i));
      SameStatus(once, batch, x);
    }
  }

  /** One step through the state machine for a chunk that was named, with the clock of its last naming. */
  function SetStatus(mode: SetMode, db: Indexes, addrs: seq<Address>, now: nat -> int, x: Address): Status {
    var i := Latest(addrs, |addrs|, x);
    if i < 0 then StatusOf(db, x) else AfterSet(mode, StatusOf(db, x), now(i))
  }

  lemma SizedStatus(batch: Indexes, after: Indexes, x: Address)
    requires after == batch.(gcSize := after.gcSize)
    ensures StatusOf(after, x) == StatusOf(batch, x)
  {
  }

  /**
   A set call that commits takes each chunk it names one step through the state machine, also one
   it names again and again, and no other chunk.
   */
  lemma SetCallRefines(c: Config, mode: SetMode, db: Indexes, addrs: seq<Address>, now: nat -> int)
    requires Good(db) && SetCommits(c, mode, db, addrs, now)
    ensures forall x :: StatusOf(SetCall(c, mode, db, addrs, now), x) == SetStatus(mode, db, addrs, now, x)
  {
    SetFoldKeeps(c, mode, db, addrs, now);
    var e := Fold(SetSteps(c, mode, db, addrs, now), Effect(db, 0, None), |addrs|, 0);
    forall x ensures StatusOf(Commit(db, e), x) == SetStatus(mode, db, addrs, now, x) {
      assert SetAt(c, mode, db, e.batch, addrs, now, |addrs|, x);
      SetAtStatus(c, mode, db, e.batch, addrs, now, x);
      SizedStatus(e.batch, Commit(db, e), x);
    }
  }

  /** What the state machine asks of a chunk: only stored chunks can be removed, only pinned ones unpinned. */
  predicate Allowed(mode: SetMode, s: Status) {
    match mode
    case ModeRemove => s.stored
    case ModeUnpin => s.pins > 1 || (s.pins == 1 && s.stored)
    case _ => true
  }

  lemma SetOneAllowed(c: Config, mode: SetMode, db: Indexes, batch: Indexes, a: Address, now: int)
    requires AddrOk(db, a) && ChunkOk(db, a)
    ensures SetOne(c, mode, db, batch, a, now).err.None? <==> Allowed(mode, StatusOf(db, a))
  {
    match mode {
      case ModeSync =>
        if a in db.data {
          if a in db.access {
          } else {
          }
        }
      case ModeRemove =>
      case ModePin =>
      case ModeUnpin =>
    }
  }

  lemma {:induction false} FoldSucceeds(step: Steps, ok: nat -> bool, pending: Effect, n: nat, k: nat)
    requires pending.err.None? && k <= n
    requires forall p: Effect, j: nat :: j < n ==> (Next(step, p, j).err.None? <==> ok(j))
    ensures Fold(step, pending, n, k).err.None? <==> forall j: nat :: k <= j < n ==> ok(j)
    decreases n - k
  {
    if k < n {
      assert Next(step, pending, k).err.None? <==> ok(k);
      if ok(k) {
        FoldSucceeds(step, ok, Next(step, pending, k), n, k + 1);
      }
    }
  }

  /** A set call commits if and only if its mode allows every chunk named; otherwise nothing changes. */
  lemma SetCallCommitsIff(c: Config, mode: SetMode, db: Indexes, addrs: seq<Address>, now: nat -> int)
    requires Good(db)
    ensures SetCommits(c, mode, db, addrs, now) <==>
      forall i :: 0 <= i < |addrs| ==> Allowed(mode, StatusOf(db, addrs[i]))
    ensures !SetCommits(c, mode, db, addrs, now) ==> SetCall(c, mode, db, addrs, now) == db
  {
    var step := SetSteps(c, mode, db, addrs, now);
    var ok := (j: nat) => j < |addrs| && Allowed(mode, StatusOf(db, addrs[j]));
    forall p: Effect, j: nat | j < |addrs| ensures Next(step, p, j).err.None? <==> ok(j) {
      assert AddrOk(db, addrs[j]) && ChunkOk(db, addrs[j]);
      SetOneAllowed(c, mode, db, p.batch, addrs[j], now(j));
    }
    FoldSucceeds(step, ok, Effect(db, 0, None), |addrs|, 0);
    if forall j: nat :: 0 <= j < |addrs| ==> ok(j) {
      forall i | 0 <= i < |addrs| ensures Allowed(mode, StatusOf(db, addrs[i])) {
        assert ok(i);
      }
    }
  }

  /** Pinning a stored chunk and unpinning it again gives back what was there, cache entry included. */
  lemma PinThenUnpin(c: Config, db: Indexes, a: Address, first: nat -> int, second: nat -> int)
    requires Good(db) && a in db.data
    ensures
      var pinned := SetCall(c, ModePin, db, [a], first);
      StatusOf(pinned, a).pins > 0 && StatusOf(SetCall(c, ModeUnpin, pinned, [a], second), a) == StatusOf(db, a)
  {
    var pinned := SetCall(c, ModePin, db, [a], first);
    assert [a][0] == a && AddrOk(db, a) && ChunkOk(db, a);
    assert Latest([a], 1, a) == 0;
    SetCallKeeps(c, ModePin, db, [a], first);
    SetCallCommitsIff(c, ModePin, db, [a], first);
    SetCallRefines(c, ModePin, db, [a], first);
    assert StatusOf(pinned, a) == Pinned(StatusOf(db, a));
    SetCallCommitsIff(c, ModeUnpin, pinned, [a], second);
    SetCallRefines(c, ModeUnpin, pinned, [a], second);
  }

  // ----- whole put calls -----

  lemma PutNewStatus(c: Config, kind: PutKind, db: Indexes, batch: Indexes, ch: Chunk, t: Times)
    requires Pending(db, batch, ch.addr) && ChunkOk(db, ch.addr) && ch.addr !in db.data
    ensures
      var after := PutNew(c, kind, db, batch, ch, t).batch;
      && StatusOf(after, ch.addr) == New(kind, StatusOf(db, ch.addr), t, c.Within(ch.addr, ch.radius))
      && ChunkOk(after, ch.addr)
  {
    match kind {
      case Request(pin, cache) =>
        AccessedCacheable(c, db, batch, ch, t, !cache);
        PreserveStatus(c, db, Accessed(c, batch, ch, t, !cache), NewItem(c, batch, ch, t), pin, cache);
      case Upload(_) =>
      case Sync =>
        AccessedCacheable(c, db, batch, ch, t, true);
        PreserveStatus(c, db, Accessed(c, batch, ch, t, true), NewItem(c, batch, ch, t), false, false);
    }
  }

  /** The chunk is stored under the stamp and at the time it came with. */
  predicate StampedAs(ix: Indexes, ch: Chunk, t: Times) {
    ch.addr in ix.data && ix.data[ch.addr].storeTs == t.store
    && ix.data[ch.addr].slot == ch.slot && ix.data[ch.addr].stampTs == ch.stampTs
  }

  lemma PreserveData(c: Config, db: Indexes, batch: Indexes, item: Cached, pin: bool, cache: bool)
    ensures PreserveOrCache(c, db, batch, item, pin, cache).batch.data == batch.data
  {
  }

  lemma PutNewStamped(c: Config, kind: PutKind, db: Indexes, batch: Indexes, ch: Chunk, t: Times)
    ensures StampedAs(PutNew(c, kind, db, batch, ch, t).batch, ch, t)
  {
    match kind {
      case Request(pin, cache) =>
        PreserveData(c, db, Accessed(c, batch, ch, t, !cache), NewItem(c, batch, ch, t), pin, cache);
      case Upload(_) =>
      case Sync => PreserveData(c, db, Accessed(c, batch, ch, t, true), NewItem(c, batch, ch, t), false, false);
    }
  }

  /** What the put of a chunk leaves at its address. */
  ghost predicate PutDid(c: Config, kind: PutKind, db: Indexes, after: Indexes, ch: Chunk, t: Times) {
    ch.addr !in db.data ==>
      && StatusOf(after, ch.addr) ==
           AfterPut(kind, StatusOf(db, ch.addr), t, c.Within(ch.addr, ch.radius), SlotOf(db, ch).Keep?)
      && (!SlotOf(db, ch).Keep? ==> StampedAs(after, ch, t))
      && ChunkOk(after, ch.addr)
  }

  lemma PutOpStatus(c: Config, kind: PutKind, db: Indexes, batch: Indexes, ch: Chunk, t: Times, e: Effect)
    requires Pending(db, batch, ch.addr) && ch.addr !in db.data && ChunkOk(db, ch.addr)
    requires Replaced(db, ch).Some? && Replaced(db, ch).value in db.data ==> Removable(db, batch, Replaced(db, ch).value)
    requires e == PutOp(c, kind, db, batch, ch, t) && e.err.None?
    ensures StatusOf(e.batch, ch.addr) ==
      if SlotOf(db, ch).Keep? then StatusOf(db, ch.addr)
      else New(kind, StatusOf(db, ch.addr), t, c.Within(ch.addr, ch.radius))
    ensures !SlotOf(db, ch).Keep? ==> StampedAs(e.batch, ch, t)
    ensures ChunkOk(e.batch, ch.addr)
  {
    match SlotOf(db, ch) {
      case Free =>
        PutNewStatus(c, kind, db, batch, ch, t);
        PutNewStamped(c, kind, db, batch, ch, t);
      case Keep => SameStatus(db, batch, ch.addr);
      case Refuse =>
      case Replace(prev) =>
        PutOverShape(c, kind, db, batch, ch, t, prev);
        var removed := SetRemove(c, db, batch, prev);
        RemoveSound(c, db, batch, prev);
        StillPending(db, batch, removed.batch, prev, ch.addr);
        PutNewStatus(c, kind, db, removed.batch, ch, t);
        PutNewStamped(c, kind, db, removed.batch, ch, t);
    }
  }

  /** setPin in the batch of a putUpload, whose chunk the committed state does not have. */
  lemma PinNewStatus(db: Indexes, batch: Indexes, a: Address)
    requires AddrOk(db, a) && a !in db.data && AddrOk(batch, a) && a !in batch.access && ChunkOk(batch, a)
    requires a in db.pin <==> a in batch.pin
    requires a in db.pin ==> db.pin[a] == batch.pin[a]
    ensures
      var after := SetPin(db, batch, a).batch;
      StatusOf(after, a) == Pinned(StatusOf(batch, a)) && ChunkOk(after, a)
  {
  }

  lemma PutChunkStatus(c: Config, kind: PutKind, db: Indexes, batch: Indexes, ch: Chunk, t: Times, e: Effect)
    requires ch.addr !in db.data ==> Pending(db, batch, ch.addr) && ChunkOk(db, ch.addr)
    requires Replaced(db, ch).Some? && Replaced(db, ch).value in db.data ==> Removable(db, batch, Replaced(db, ch).value)
    requires e == PutChunk(c, kind, db, batch, ch, t) && e.err.None?
    ensures PutDid(c, kind, db, e.batch, ch, t)
  {
    if ch.addr !in db.data {
      var put := PutOp(c, kind, db, batch, ch, t);
      PutOpSound(c, kind, db, batch, ch, t, put);
      PutOpStatus(c, kind, db, batch, ch, t, put);
      if kind.Upload? && kind.pin {
        UploadKeepsAccess(c, db, batch, ch, t, kind.pin);
        PinNew(db, put.batch, ch.addr);
        assert StatusOf(put.batch, ch.addr).pins == StatusOf(db, ch.addr).pins;
        PinNewStatus(db, put.batch, ch.addr);
      }
    }
  }

  ghost predicate PutSoFar(c: Config, kind: PutKind, db: Indexes, batch: Indexes, chs: seq<Chunk>,
                           now: nat -> Times, k: nat) {
    && k <= |chs|
    && forall j {:trigger chs[j]} :: 0 <= j < k && First(chs, j) ==> PutDid(c, kind, db, batch, chs[j], now(j))
  }

  lemma PutDidStays(c: Config, kind: PutKind, db: Indexes, batch: Indexes, after: Indexes, ch: Chunk, t: Times)
    requires PutDid(c, kind, db, batch, ch, t) && (ch.addr !in db.data ==> SameAt(batch, after, ch.addr))
    ensures PutDid(c, kind, db, after, ch, t)
  {
    if ch.addr !in db.data {
      SameStatus(batch, after, ch.addr);
    }
  }

  lemma PutSoFarNext(c: Config, kind: PutKind, db: Indexes, batch: Indexes, after: Indexes, chs: seq<Chunk>,
                     now: nat -> Times, k: nat)
    requires PutSoFar(c, kind, db, batch, chs, now, k) && k < |chs| && First(chs, k)
    requires Replaced(db, chs[k]).Some? ==> Replaced(db, chs[k]).value in db.data
    requires OnlyAt(batch, after, Touched(db, chs[k])) && PutDid(c, kind, db, after, chs[k], now(k))
    ensures PutSoFar(c, kind, db, after, chs, now, k + 1)
  {
    forall j {:trigger chs[j]} | 0 <= j < k && First(chs, j) ensures PutDid(c, kind, db, after, chs[j], now(j)) {
      PutDidStays(c, kind, db, batch, after, chs[j], now(j));
    }
  }

  ghost predicate PutRefines(c: Config, kind: PutKind, db: Indexes, pending: Effect, chs: seq<Chunk>,
                             now: nat -> Times, k: nat) {
    PutInv(c, kind, db, pending, chs, k) && PutSoFar(c, kind, db, pending.batch, chs, now, k)
  }

  /** The k-th chunk, put without an error. */
  lemma PutChunkRefines(c: Config, kind: PutKind, db: Indexes, pending: Effect, chs: seq<Chunk>,
                        now: nat -> Times, k: nat, e: Effect)
    requires ChunksOk(db) && PutRefines(c, kind, db, pending, chs, now, k) && k < |chs| && First(chs, k)
    requires e == PutChunk(c, kind, db, pending.batch, chs[k], now(k)) && e.err.None?
    ensures PutSoFar(c, kind, db, e.batch, chs, now, k + 1)
  {
    assert ChunkOk(db, chs[k].addr);
    PutFinds(c, kind, db, pending, chs, k);
    PutChunkSound(c, kind, db, pending.batch, chs[k], now(k), e);
    PutChunkStatus(c, kind, db, pending.batch, chs[k], now(k), e);
    OwnerStored(c, kind, db, pending.batch, chs[k], now(k));
    PutSoFarNext(c, kind, db, pending.batch, e.batch, chs, now, k);
  }

  lemma PutStep(c: Config, kind: PutKind, db: Indexes, chs: seq<Chunk>, now: nat -> Times, pending: Effect, k: nat)
    requires k < |chs|
    ensures
      var next := Next(PutSteps(c, kind, db, chs, now), pending, k);
      if First(chs, k) then
        var e := PutChunk(c, kind, db, pending.batch, chs[k], now(k));
        next.batch == e.batch && next.err == e.err
      else next.batch == pending.batch
  {
  }

  lemma PutRefinesNext(c: Config, kind: PutKind, db: Indexes, pending: Effect, chs: seq<Chunk>,
                       now: nat -> Times, k: nat, next: Effect)
    requires PutRefines(c, kind, db, pending, chs, now, k) && k < |chs| && ChunksOk(db)
    requires next == Next(PutSteps(c, kind, db, chs, now), pending, k) && next.err.None?
    ensures PutRefines(c, kind, db, next, chs, now, k + 1)
  {
    PutNextKeeps(c, kind, db, chs, now, pending, k);
    PutStep(c, kind, db, chs, now, pending, k);
    if First(chs, k) {
      PutChunkRefines(c, kind, db, pending, chs, now, k, PutChunk(c, kind, db, pending.batch, chs[k], now(k)));
    }
  }

  ghost function PutRefinesOf(c: Config, kind: PutKind, db: Indexes, chs: seq<Chunk>,
                              now: nat -> Times): (Effect, nat) -> bool {
    (p: Effect, j: nat) => PutRefines(c, kind, db, p, chs, now, j)
  }

  lemma PutRefinesSteps(c: Config, kind: PutKind, db: Indexes, chs: seq<Chunk>, now: nat -> Times, p: Effect, j: nat)
    requires j < |chs| && ChunksOk(db) && PutRefinesOf(c, kind, db, chs, now)(p, j)
    requires Next(PutSteps(c, kind, db, chs, now), p, j).err.None?
    ensures PutRefinesOf(c, kind, db, chs, now)(Next(PutSteps(c, kind, db, chs, now), p, j), j + 1)
  {
    PutRefinesNext(c, kind, db, p, chs, now, j, Next(PutSteps(c, kind, db, chs, now), p, j));
  }

  lemma PutRefinesFold(c: Config, kind: PutKind, db: Indexes, chs: seq<Chunk>, now: nat -> Times)
    requires Good(db)
    ensures
      var e := Fold(PutSteps(c, kind, db, chs, now), Effect(db, 0, None), |chs|, 0);
      e.err.Some? || PutRefines(c, kind, db, e, chs, now, |chs|)
  {
    var step := PutSteps(c, kind, db, chs, now);
    var inv := PutRefinesOf(c, kind, db, chs, now);
    FirstPutInv(c, kind, db, chs);
    forall p: Effect, j: nat | j < |chs| && inv(p, j) && Next(step, p, j).err.None? ensures inv(Next(step, p, j), j + 1) {
      PutRefinesSteps(c, kind, db, chs, now, p, j);
    }
    FoldKeeps(step, inv, Effect(db, 0, None), |chs|, 0);
  }

  /** What a put does to the chunks it does not store. */
  ghost predicate PutLeaves(db: Indexes, after: Indexes, chs: seq<Chunk>) {
    && (forall x :: x in Owners(db, chs, |chs|) ==> x in db.data && StatusOf(after, x) == GONE)
    && (forall x :: x !in Owners(db, chs, |chs|) && !NewBy(db, chs, |chs|, x) ==> StatusOf(after, x) == StatusOf(db, x))
  }

  lemma PutRefinesEnd(c: Config, kind: PutKind, db: Indexes, e: Effect, chs: seq<Chunk>, now: nat -> Times, after: Indexes)
    requires PutRefines(c, kind, db, e, chs, now, |chs|) && ChunksOk(db) && after == Commit(db, e)
    ensures PutSoFar(c, kind, db, after, chs, now, |chs|) && PutLeaves(db, after, chs) && ChunksOk(after)
  {
    forall j {:trigger chs[j]} | 0 <= j < |chs| && First(chs, j) ensures PutDid(c, kind, db, after, chs[j], now(j)) {
      SizeOnly(e.batch, after, chs[j].addr);
      PutDidStays(c, kind, db, e.batch, after, chs[j], now(j));
    }
    PutLeavesAll(db, e.batch, chs, after);
    forall x ensures ChunkOk(after, x) {
      SizeOnly(e.batch, after, x);
      if NewBy(db, chs, |chs|, x) {
        var j := FirstNamed(chs, x);
        assert PutDid(c, kind, db, after, chs[j], now(j));
      } else {
        LeftChunkOk(db, e.batch, chs, after, x);
      }
    }
  }

  lemma LeftChunkOk(db: Indexes, batch: Indexes, chs: seq<Chunk>, after: Indexes, x: Address)
    requires OwnersGone(db, batch, chs, |chs|) && SameAt(batch, after, x) && ChunksOk(db) && !NewBy(db, chs, |chs|, x)
    ensures ChunkOk(after, x)
  {
    assert ChunkOk(db, x);
    if x in Owners(db, chs, |chs|) {
      GoneStatus(batch, x);
    } else {
      SameStatus(db, batch, x);
    }
    SameStatus(batch, after, x);
  }

  lemma PutLeavesAll(db: Indexes, batch: Indexes, chs: seq<Chunk>, after: Indexes)
    requires OwnersGone(db, batch, chs, |chs|) && after == batch.(gcSize := after.gcSize)
    ensures PutLeaves(db, after, chs)
  {
    forall x | x in Owners(db, chs, |chs|) ensures StatusOf(after, x) == GONE {
      GoneStatus(batch, x);
      SizedStatus(batch, after, x);
    }
    forall x | x !in Owners(db, chs, |chs|) && !NewBy(db, chs, |chs|, x) ensures StatusOf(after, x) == StatusOf(db, x) {
      SameStatus(db, batch, x);
      SizedStatus(batch, after, x);
    }
  }

  /** The first chunk of the call with the given address. */
  lemma FirstNamed(chs: seq<Chunk>, x: Address) returns (j: nat)
    requires exists i :: 0 <= i < |chs| && chs[i].addr == x
    ensures j < |chs| && First(chs, j) && chs[j].addr == x
  {
    j := 0;
    while chs[j].addr != x
      invariant j < |chs|
      invariant forall i :: 0 <= i < j ==> chs[i].addr != x
      invariant exists i :: j <= i < |chs| && chs[i].addr == x
      decreases |chs| - j
    {
      j := j + 1;
    }
  }

  /**
   A put that commits stores each new chunk in the place its mode and radius ask for, removes
   without trace the older owners of the stamp slots it takes over, also one that owns several of
   them, and leaves every other chunk as it was.
   */
  lemma PutCallRefines(c: Config, kind: PutKind, db: Indexes, chs: seq<Chunk>, now: nat -> Times)
    requires Good(db) && Commits(c, kind, db, chs, now)
    ensures PutSoFar(c, kind, db, PutCall(c, kind, db, chs, now), chs, now, |chs|)
    ensures PutLeaves(db, PutCall(c, kind, db, chs, now), chs)
    ensures ChunksOk(PutCall(c, kind, db, chs, now))
  {
    PutRefinesFold(c, kind, db, chs, now);
    PutRefinesEnd(c, kind, db, Fold(PutSteps(c, kind, db, chs, now), Effect(db, 0, None), |chs|, 0), chs, now,
                  PutCall(c, kind, db, chs, now));
  }

  /** What a put asks for: no immutable stamp whose slot is taken, and no slot whose older owner has lost its data. */
  predicate Storable(db: Indexes, ch: Chunk) {
    ch.addr in db.data || match SlotOf(db, ch) {
      case Refuse => false
      case Replace(prev) => prev in db.data
      case _ => true
    }
  }

  lemma PutChunkStorable(c: Config, kind: PutKind, db: Indexes, batch: Indexes, ch: Chunk, t: Times)
    requires AddrOk(db, ch.addr)
    ensures PutChunk(c, kind, db, batch, ch, t).err.None? <==> Storable(db, ch)
  {
    if ch.addr !in db.data {
      PutOpStorable(c, kind, db, batch, ch, t);
    }
  }

  lemma PutNewSucceeds(c: Config, kind: PutKind, db: Indexes, batch: Indexes, ch: Chunk, t: Times)
    requires AddrOk(db, ch.addr) && ch.addr !in db.data
    ensures PutNew(c, kind, db, batch, ch, t).err.None?
  {
  }

  lemma PutOpStorable(c: Config, kind: PutKind, db: Indexes, batch: Indexes, ch: Chunk, t: Times)
    requires AddrOk(db, ch.addr) && ch.addr !in db.data
    ensures PutOp(c, kind, db, batch, ch, t).err.None? <==> Storable(db, ch)
  {
    match SlotOf(db, ch) {
      case Free => PutNewSucceeds(c, kind, db, batch, ch, t);
      case Keep =>
      case Refuse =>
      case Replace(prev) =>
        PutOverShape(c, kind, db, batch, ch, t, prev);
        PutNewSucceeds(c, kind, db, SetRemove(c, db, batch, prev).batch, ch, t);
    }
  }

  /** A put stores all its new chunks or none: it commits if and only if each of them can be stored. */
  lemma PutCallCommitsIff(c: Config, kind: PutKind, db: Indexes, chs: seq<Chunk>, now: nat -> Times)
    requires Partition(db)
    ensures
      var e := Fold(PutSteps(c, kind, db, chs, now), Effect(db, 0, None), |chs|, 0);
      e.err.None? <==> forall i :: 0 <= i < |chs| && First(chs, i) ==> Storable(db, chs[i])
  {
    var step := PutSteps(c, kind, db, chs, now);
    var ok := (j: nat) => j < |chs| && (First(chs, j) ==> Storable(db, chs[j]));
    forall p: Effect, j: nat | j < |chs| ensures Next(step, p, j).err.None? <==> ok(j) {
      assert AddrOk(db, chs[j].addr);
      PutChunkStorable(c, kind, db, p.batch, chs[j], now(j));
    }
    FoldSucceeds(step, ok, Effect(db, 0, None), |chs|, 0);
    if forall j: nat :: 0 <= j < |chs| ==> ok(j) {
      forall i | 0 <= i < |chs| && First(chs, i) ensures Storable(db, chs[i]) {
        assert ok(i);
      }
    }
  }

  // ----- the reserve -----

  /** A round of unreserving takes one pin off every chunk it meets; the last pin of a synced chunk moves it to the cache. */
  lemma UnpinRoundRefines(c: Config, db: Indexes, addrs: seq<Address>, now: nat -> int)
    requires Good(db) && Distinct(addrs)
    ensures forall x :: StatusOf(UnpinRound(db, addrs, now), x) == SetStatus(ModeUnpin, db, addrs, now, x)
  {
    RoundFoldKeeps(c, db, addrs, now);
    var e := Fold(UnpinSteps(db, addrs, now), Effect(db, 0, None), |addrs|, 0);
    forall x ensures StatusOf(Commit(db, e), x) == SetStatus(ModeUnpin, db, addrs, now, x) {
      assert SetAt(c, ModeUnpin, db, e.batch, addrs, now, |addrs|, x);
      SetAtStatus(c, ModeUnpin, db, e.batch, addrs, now, x);
      SizedStatus(e.batch, Commit(db, e), x);
    }
  }
}
