/** The store object (localstore.go): its methods, step by step, against the transitions of the specification. */
module Store {
  import opened Wrappers

  import opened StoreIndexes
  import opened StoreOps
  import opened StoreCalls
  import opened StorePuts
  import opened StoreReserve
  import opened StoreGc
  import opened StoreRuns

  /** A write batch, seen as the state it will leave behind when it is written. */
  class Batch {
    var pending: Indexes

    constructor (ix: Indexes)
      ensures pending == ix
    {
      pending := ix;
    }
  }

  class DB {
    const c: Config
    var ix: Indexes
    var gcRunning: bool
    var dirtyAddresses: seq<Address>

    constructor (c: Config)
      ensures ix == EMPTY && !gcRunning && dirtyAddresses == []
    {
      this.c := c;
      ix := EMPTY;
      gcRunning := false;
      dirtyAddresses := [];
    }

    // ----- mode_set.go -----

    method SetPin(batch: Batch, a: Address) returns (gcSizeChange: int, err: Option<Error>)
      modifies batch
      ensures batch.pending.gcSize == old(batch.pending.gcSize)
      ensures Effect(batch.pending, gcSizeChange, err) == StoreOps.SetPin(ix, old(batch.pending), a)
    {
      gcSizeChange, err := 0, None;
      var count := 0;
      if a in ix.pin {
        count := ix.pin[a];
      } else if a in ix.access {
        if a !in ix.data {
          return 0, Some(NotFound);
        }
        batch.pending := batch.pending.DropGc(GcKey(ix.access[a], ix.data[a].binID, a));
        gcSizeChange := -1;
      }
      batch.pending := batch.pending.PutPin(a, count + 1);
    }

    method SetUnpin(batch: Batch, a: Address, now: int) returns (gcSizeChange: int, err: Option<Error>)
      modifies batch
      ensures gcSizeChange >= 0
      ensures batch.pending.gcSize == old(batch.pending.gcSize)
      ensures Effect(batch.pending, gcSizeChange, err) == StoreOps.SetUnpin(ix, old(batch.pending), a, now)
    {
      gcSizeChange, err := 0, None;
      if a !in ix.pin {
        return 0, Some(NotFound);
      }
      if ix.pin[a] > 1 {
        batch.pending := batch.pending.PutPin(a, ix.pin[a] - 1);
        return;
      }
      batch.pending := batch.pending.DropPin(a);
      if a !in ix.data {
        return 0, Some(NotFound);
      }
      if PushKey(ix.data[a].storeTs, a) in ix.push {
        return;
      }
      var accessTs := now;
      if a in ix.access {
        accessTs := ix.access[a];
      } else {
        batch.pending := batch.pending.PutAccess(a, now);
      }
      batch.pending := batch.pending.PutGc(GcKey(accessTs, ix.data[a].binID, a), Slot(ix.data[a].slot.batch, 0));
      gcSizeChange := gcSizeChange + 1;
    }

    method SetRemove(batch: Batch, a: Address) returns (gcSizeChange: int, err: Option<Error>)
      modifies batch
      ensures batch.pending.gcSize == old(batch.pending.gcSize)
      ensures Effect(batch.pending, gcSizeChange, err) == StoreOps.SetRemove(c, ix, old(batch.pending), a)
    {
      gcSizeChange, err := 0, None;
      var accessTs := 0;
      if a in ix.access {
        accessTs := ix.access[a];
      }
      if a !in ix.data {
        return 0, Some(NotFound);
      }
      var e := ix.data[a];
      var po := c.po(a);
      batch.pending := batch.pending.DropData(a);
      batch.pending := batch.pending.DropAccess(a);
      batch.pending := batch.pending.DropPush(PushKey(e.storeTs, a));
      batch.pending := batch.pending.DropPull(PullKey(po, e.binID));
      batch.pending := batch.pending.DropStamp(po, a, e.slot);
      var key := GcKey(accessTs, e.binID, a);
      if key !in ix.gc {
        batch.pending := batch.pending.DropPin(a);
        return;
      }
      batch.pending := batch.pending.DropGc(key);
      gcSizeChange := -1;
    }

    method PreserveOrCache(batch: Batch, item: Cached, forcePin: bool, forceCache: bool)
      returns (gcSizeChange: int, err: Option<Error>)
      modifies batch
      ensures batch.pending.gcSize == old(batch.pending.gcSize)
      ensures Effect(batch.pending, gcSizeChange, err) ==
        StoreOps.PreserveOrCache(c, ix, old(batch.pending), item, forcePin, forceCache)
    {
      gcSizeChange, err := 0, None;
      if !forceCache && (c.Within(item.addr, item.radius) || forcePin) {
        gcSizeChange, err := SetPin(batch, item.addr);
        return;
      }
      if item.addr in ix.pin {
        return;
      }
      var key := GcKey(item.accessTs, item.binID, item.addr);
      if key in ix.gc {
        return;
      }
      batch.pending := batch.pending.PutGc(key, item.slot);
      gcSizeChange := gcSizeChange + 1;
    }

    method SetSync(batch: Batch, a: Address, now: int) returns (gcSizeChange: int, err: Option<Error>)
      modifies batch
      ensures batch.pending.gcSize == old(batch.pending.gcSize)
      ensures Effect(batch.pending, gcSizeChange, err) == StoreOps.SetSync(c, ix, old(batch.pending), a, now)
    {
      if a !in ix.data {
        batch.pending := batch.pending.DropPush(PushKey(0, a));
        return 0, None;
      }
      var e := ix.data[a];
      batch.pending := batch.pending.DropPush(PushKey(e.storeTs, a));
      var accessTs := now;
      if a in ix.access {
        accessTs := ix.access[a];
      } else {
        batch.pending := batch.pending.PutAccess(a, now);
      }
      gcSizeChange, err := PreserveOrCache(batch, Cached(a, accessTs, e.binID, e.slot, 0), false, false);
    }

    method SetOne(mode: SetMode, batch: Batch, a: Address, now: int) returns (gcSizeChange: int, err: Option<Error>)
      modifies batch
      ensures batch.pending.gcSize == old(batch.pending.gcSize)
      ensures Effect(batch.pending, gcSizeChange, err) == StoreOps.SetOne(c, mode, ix, old(batch.pending), a, now)
    {
      match mode {
        case ModeSync => gcSizeChange, err := SetSync(batch, a, now);
        case ModeRemove => gcSizeChange, err := SetRemove(batch, a);
        case ModePin => gcSizeChange, err := SetPin(batch, a);
        case ModeUnpin => gcSizeChange, err := SetUnpin(batch, a, now);
      }
    }

    method MarkDirty(addrs: seq<Address>)
      modifies this`dirtyAddresses
      ensures dirtyAddresses == if gcRunning then old(dirtyAddresses) + addrs else old(dirtyAddresses)
    {
      if gcRunning {
        dirtyAddresses := dirtyAddresses + addrs;
      }
    }

    /** incGCSizeInBatch; nothing else in a batch touches the counter. */
    method IncGCSizeInBatch(batch: Batch, change: int)
      requires batch.pending.gcSize == ix.gcSize
      modifies batch
      ensures batch.pending == old(batch.pending).(gcSize := IncGCSize(ix.gcSize, change))
    {
      if change == 0 {
        return;
      }
      if change < 0 && -change > ix.gcSize {
        return;
      }
      batch.pending := batch.pending.(gcSize := ix.gcSize + change);
    }

    method Write(batch: Batch, change: int)
      requires batch.pending.gcSize == ix.gcSize
      modifies this`ix, batch
      ensures ix == Commit(old(ix), Effect(old(batch.pending), change, None))
    {
      IncGCSizeInBatch(batch, change);
      ix := batch.pending;
    }

    method Set(mode: SetMode, addrs: seq<Address>, now: nat -> int) returns (err: Option<Error>)
      modifies this`ix, this`dirtyAddresses
      ensures ix == SetCall(c, mode, old(ix), addrs, now)
      ensures err.None? <==> SetCommits(c, mode, old(ix), addrs, now)
      ensures dirtyAddresses == if gcRunning then old(dirtyAddresses) + addrs else old(dirtyAddresses)
    {
      MarkDirty(addrs);
      var batch := new Batch(ix);
      var gcSizeChange := 0;
      ghost var step := SetSteps(c, mode, ix, addrs, now);
      ghost var whole := Fold(step, Effect(ix, 0, None), |addrs|, 0);
      err := None;
      for i := 0 to |addrs|
        modifies batch
        invariant err.None? && batch.pending.gcSize == ix.gcSize
        invariant whole == Fold(step, Effect(batch.pending, gcSizeChange, None), |addrs|, i)
      {
        ghost var was := Effect(batch.pending, gcSizeChange, None);
        var change;
        change, err := SetOne(mode, batch, addrs[i], now(i));
        assert Next(step, was, i) == Effect(batch.pending, gcSizeChange + change, err);
        if err.Some? {
          return;
        }
        gcSizeChange := gcSizeChange + change;
      }
      Write(batch, gcSizeChange);
    }

    // ----- mode_put.go -----

    method IncBinID(batch: Batch, po: nat) returns (id: nat)
      modifies batch
      ensures batch.pending.gcSize == old(batch.pending.gcSize)
      ensures id == NextBinID(old(batch.pending), po) && batch.pending == old(batch.pending).PutBinID(po, id)
    {
      id := 0;
      if po in batch.pending.side.binIDs {
        id := batch.pending.side.binIDs[po];
      }
      id := id + 1;
      batch.pending := batch.pending.PutBinID(po, id);
    }

    /** The indexes putRequest, putUpload and putSync fill alike; a cached request stays out of the pull index. */
    method StoreChunk(batch: Batch, ch: Chunk, now: int, pulled: bool) returns (id: nat)
      modifies batch
      ensures batch.pending.gcSize == old(batch.pending.gcSize)
      ensures id == NextBinID(old(batch.pending), c.po(ch.addr))
      ensures batch.pending == Stored(c, old(batch.pending), ch, now, pulled)
    {
      var po := c.po(ch.addr);
      id := IncBinID(batch, po);
      batch.pending := batch.pending.PutData(ch.addr, DataEntry(now, id, ch.slot, ch.stampTs));
      batch.pending := batch.pending.PutStamp(po, ch.addr, ch.slot, ch.stampTs);
      if pulled {
        batch.pending := batch.pending.PutPull(PullKey(po, id), ch.addr);
      }
    }

    /** Frees the stamp slot of a new chunk, or says that the chunk is not to be stored. */
    method TakeSlot(batch: Batch, ch: Chunk) returns (stop: bool, gcSizeChange: int, err: Option<Error>)
      modifies batch
      ensures batch.pending.gcSize == old(batch.pending.gcSize)
      ensures match SlotOf(ix, ch) {
        case Free => !stop && gcSizeChange == 0 && err == None && batch.pending == old(batch.pending)
        case Keep => stop && gcSizeChange == 0 && err == None && batch.pending == old(batch.pending)
        case Refuse => stop && gcSizeChange == 0 && err == Some(Overwrite) && batch.pending == old(batch.pending)
        case Replace(prev) =>
          Effect(batch.pending, gcSizeChange, err) == StoreOps.SetRemove(c, ix, old(batch.pending), prev) &&
          stop == err.Some?
      }
    {
      stop, gcSizeChange, err := false, 0, None;
      if ch.slot in ix.side.slots {
        var previous := ix.side.slots[ch.slot];
        if ch.immutable {
          return true, 0, Some(Overwrite);
        }
        if ch.stampTs <= previous.stampTs {
          return true, 0, None;
        }
        gcSizeChange, err := SetRemove(batch, previous.addr);
        stop := err.Some?;
      }
    }

    method PutRequest(batch: Batch, ch: Chunk, t: Times, forcePin: bool, forceCache: bool)
      returns (gcSizeChange: int, err: Option<Error>)
      modifies batch
      ensures batch.pending.gcSize == old(batch.pending.gcSize)
      ensures Effect(batch.pending, gcSizeChange, err) ==
        PutOp(c, Request(forcePin, forceCache), ix, old(batch.pending), ch, t)
    {
      var stop;
      stop, gcSizeChange, err := TakeSlot(batch, ch);
      if stop {
        return;
      }
      ghost var freed := batch.pending;
      var id := StoreChunk(batch, ch, t.store, !forceCache);
      batch.pending := batch.pending.PutAccess(ch.addr, t.access);
      var gcSizeChangeNew;
      gcSizeChangeNew, err := PreserveOrCache(batch, Cached(ch.addr, t.access, id, ch.slot, ch.radius), forcePin, forceCache);
      assert Effect(batch.pending, gcSizeChangeNew, err) == PutNew(c, Request(forcePin, forceCache), ix, freed, ch, t);
      gcSizeChange := gcSizeChange + gcSizeChangeNew;
    }

    /** The change setRemove reports is dropped here and in putSync. */
    method PutUpload(batch: Batch, ch: Chunk, t: Times, pin: bool) returns (gcSizeChange: int, err: Option<Error>)
      modifies batch
      ensures batch.pending.gcSize == old(batch.pending.gcSize)
      ensures Effect(batch.pending, gcSizeChange, err) == PutOp(c, Upload(pin), ix, old(batch.pending), ch, t)
    {
      var stop;
      stop, gcSizeChange, err := TakeSlot(batch, ch);
      if stop {
        return;
      }
      ghost var freed := batch.pending;
      var id := StoreChunk(batch, ch, t.store, true);
      batch.pending := batch.pending.PutPush(PushKey(t.store, ch.addr));
      gcSizeChange := 0;
      assert Effect(batch.pending, 0, None) == PutNew(c, Upload(pin), ix, freed, ch, t);
    }

    method PutSync(batch: Batch, ch: Chunk, t: Times) returns (gcSizeChange: int, err: Option<Error>)
      modifies batch
      ensures batch.pending.gcSize == old(batch.pending.gcSize)
      ensures Effect(batch.pending, gcSizeChange, err) == PutOp(c, Sync, ix, old(batch.pending), ch, t)
    {
      var stop;
      stop, gcSizeChange, err := TakeSlot(batch, ch);
      if stop {
        return;
      }
      ghost var freed := batch.pending;
      var id := StoreChunk(batch, ch, t.store, true);
      batch.pending := batch.pending.PutAccess(ch.addr, t.access);
      gcSizeChange, err := PreserveOrCache(batch, Cached(ch.addr, t.access, id, ch.slot, ch.radius), false, false);
      assert Effect(batch.pending, gcSizeChange, err) == PutNew(c, Sync, ix, freed, ch, t);
    }

    method PutChunk(kind: PutKind, batch: Batch, ch: Chunk, t: Times)
      returns (known: bool, gcSizeChange: int, err: Option<Error>)
      modifies batch
      ensures batch.pending.gcSize == old(batch.pending.gcSize)
      ensures known <==> ch.addr in ix.data
      ensures Effect(batch.pending, gcSizeChange, err) == StoreOps.PutChunk(c, kind, ix, old(batch.pending), ch, t)
    {
      if ch.addr in ix.data {
        return true, 0, None;
      }
      known := false;
      match kind {
        case Request(pin, cache) => gcSizeChange, err := PutRequest(batch, ch, t, pin, cache);
        case Upload(pin) =>
          gcSizeChange, err := PutUpload(batch, ch, t, pin);
          if err.None? && pin {
            var c2, err2 := SetPin(batch, ch.addr);
            if err2.None? {
              gcSizeChange := gcSizeChange + c2;
            }
          }
        case Sync => gcSizeChange, err := PutSync(batch, ch, t);
      }
    }

    method ContainsChunk(a: Address, chs: seq<Chunk>) returns (found: bool)
      ensures found <==> exists j :: 0 <= j < |chs| && chs[j].addr == a
    {
      for j := 0 to |chs|
        invariant forall l :: 0 <= l < j ==> chs[l].addr != a
      {
        if chs[j].addr == a {
          return true;
        }
      }
      return false;
    }

    /** The loop of put over its chunks; those that are stored, or came before in the call, are reported as existing. */
    method PutChunks(kind: PutKind, batch: Batch, chs: seq<Chunk>, now: nat -> Times)
      returns (exist: seq<bool>, gcSizeChange: int, err: Option<Error>)
      requires batch.pending == ix
      modifies batch
      ensures batch.pending.gcSize == ix.gcSize
      ensures
        var e := Fold(PutSteps(c, kind, ix, chs, now), Effect(ix, 0, None), |chs|, 0);
        err.None? == e.err.None? && (err.None? ==> e == Effect(batch.pending, gcSizeChange, None))
      ensures err.None? ==> |exist| == |chs| && forall i :: 0 <= i < |chs| ==> (exist[i] <==> Known(ix, chs, i))
    {
      exist, gcSizeChange, err := [], 0, None;
      ghost var step := PutSteps(c, kind, ix, chs, now);
      ghost var whole := Fold(step, Effect(ix, 0, None), |chs|, 0);
      for i := 0 to |chs|
        invariant err.None? && batch.pending.gcSize == ix.gcSize
        invariant whole == Fold(step, Effect(batch.pending, gcSizeChange, None), |chs|, i)
        invariant |exist| == i && forall l :: 0 <= l < i ==> (exist[l] <==> Known(ix, chs, l))
      {
        ghost var was := Effect(batch.pending, gcSizeChange, None);
        var seen := ContainsChunk(chs[i].addr, chs[..i]);
        SeenBefore(chs, i);
        if seen {
          assert Next(step, was, i) == was;
          exist := exist + [true];
          continue;
        }
        var known, change;
        known, change, err := PutChunk(kind, batch, chs[i], now(i));
        exist := exist + [known];
        gcSizeChange := gcSizeChange + change;
        assert Next(step, was, i) == Effect(batch.pending, gcSizeChange, err);
        if err.Some? {
          return;
        }
      }
    }

    /** A chunk whose slot holds a later stamp is not stored, and yet not reported as existing. */
    method Put(kind: PutKind, chs: seq<Chunk>, now: nat -> Times) returns (exist: seq<bool>, err: Option<Error>)
      modifies this`ix, this`dirtyAddresses
      ensures ix == PutCall(c, kind, old(ix), chs, now)
      ensures err.None? <==> Skips(old(ix), kind, chs) || Commits(c, kind, old(ix), chs, now)
      ensures dirtyAddresses ==
        if gcRunning && !Skips(old(ix), kind, chs) then old(dirtyAddresses) + Addresses(chs) else old(dirtyAddresses)
      ensures err.None? ==> |exist| == |chs| && forall i :: 0 <= i < |chs| ==> (exist[i] <==> Known(old(ix), chs, i))
    {
      exist := [];
      if |chs| == 1 && !Pins(kind) {
        if chs[0].addr in ix.data {
          return [true], None;
        }
      }
      MarkDirty(Addresses(chs));
      var batch := new Batch(ix);
      var gcSizeChange;
      exist, gcSizeChange, err := PutChunks(kind, batch, chs, now);
      if err.Some? {
        return;
      }
      Write(batch, gcSizeChange);
    }

    // ----- mode_get.go -----

    /** updateGC; get hands it the data entry as it was when the chunk was read. */
    method UpdateGC(item: Read, now: int)
      modifies this`ix, this`dirtyAddresses
      ensures ix == StoreOps.UpdateGC(old(ix), item, now)
      ensures dirtyAddresses == if gcRunning then old(dirtyAddresses) + [item.addr] else old(dirtyAddresses)
    {
      MarkDirty([item.addr]);
      var a := item.addr;
      var batch := new Batch(ix);
      var accessTs := 0;
      if a in ix.access {
        accessTs := ix.access[a];
      }
      if accessTs == 0 {
        return;
      }
      var key := GcKey(accessTs, item.binID, a);
      batch.pending := batch.pending.DropGc(key);
      if key in ix.gc {
        batch.pending := batch.pending.PutGc(GcKey(now, item.binID, a), item.slot);
      }
      batch.pending := batch.pending.PutAccess(a, now);
      ix := batch.pending;
    }

    // ----- gc.go -----

    /** Raises gcRunning: from now on every address touched is marked. */
    method BeginRun()
      modifies this`gcRunning
      ensures gcRunning
    {
      gcRunning := true;
    }

    method EndRun()
      modifies this`gcRunning, this`dirtyAddresses
      ensures !gcRunning && dirtyAddresses == []
    {
      gcRunning, dirtyAddresses := false, [];
    }

    /** The candidates of a run, given the iteration order of the gc index. */
    method GatherCandidates(order: seq<Candidate>) returns (cands: seq<Candidate>)
      requires forall i, j :: 0 <= i < j < |order| ==> Before(order[i].key, order[j].key)
      requires forall i :: 0 <= i < |order| ==> order[i].key in ix.gc && ix.gc[order[i].key] == order[i].slot
      requires forall k :: k in ix.gc ==> exists i :: 0 <= i < |order| && order[i].key == k
      ensures OldestFirst(ix, cands)
    {
      cands := [];
      for i := 0 to |order|
        invariant cands == order[..i] && i <= GC_BATCH_SIZE
      {
        if |cands| == GC_BATCH_SIZE {
          break;
        }
        cands := cands + [order[i]];
      }
      assert cands == order[..|cands|];
      forall k | k in ix.gc
        ensures (exists i :: 0 <= i < |cands| && cands[i].key == k) ||
          (|cands| == GC_BATCH_SIZE && forall i :: 0 <= i < |cands| ==> Before(cands[i].key, k))
      {
        var j :| 0 <= j < |order| && order[j].key == k;
        if j < |cands| {
          assert cands[j].key == k;
        }
      }
    }

    /** The locked part of collectGarbage. */
    method CollectGarbage(cands: seq<Candidate>, target: nat) returns (evicted: nat, done: bool, failed: bool)
      modifies this`ix
      ensures
        var r := Collect(c, old(ix), cands, ToSet(dirtyAddresses), target);
        && ix == AfterCollect(old(ix), r)
        && failed == r.failed
        && (!failed ==> evicted == |r.evicted| && done == r.done)
    {
      var gcSize := ix.gcSize;
      var batch := new Batch(ix);
      evicted, done, failed := 0, false, false;
      ghost var dirty := ToSet(dirtyAddresses);
      ghost var r := Collected(ix, [], false, false);
      for i := 0 to |cands|
        modifies batch
        invariant !failed && !done && r == Collected(batch.pending, r.evicted, false, false) && evicted == |r.evicted|
        invariant Collect(c, ix, cands, dirty, target) == CollectFrom(c, ix, r, cands, i, dirty, target)
      {
        var item := cands[i];
        var a := item.key.addr;
        if a in dirtyAddresses {
          continue;
        }
        if Sub64(gcSize, evicted) <= target {
          done := true;
          r := r.(done := true);
          break;
        }
        evicted := evicted + 1;
        if a !in ix.data {
          return 0, false, true;
        }
        batch.pending := batch.pending.DropData(a);
        batch.pending := batch.pending.DropAccess(a);
        batch.pending := batch.pending.DropPush(PushKey(0, a));
        batch.pending := batch.pending.DropPull(PullKey(c.po(a), item.key.binID));
        batch.pending := batch.pending.DropGc(item.key);
        batch.pending := batch.pending.DropStamp(c.po(a), a, item.slot);
        r := Collected(Evict(c, r.batch, item), r.evicted + [item], false, false);
      }
      assert r == Collect(c, ix, cands, dirty, target);
      batch.pending := batch.pending.(gcSize := Sub64(gcSize, evicted));
      ix := batch.pending;
    }

    // ----- reserve.go -----

    /** One round of unpinBatchChunks: unpins from the start-th chunk until the batch is over-full. */
    method UnpinChunks(addrs: seq<Address>, start: nat, now: nat -> int) returns (size: nat)
      requires start <= |addrs|
      modifies this`ix
      ensures size == if |addrs| - start <= UNPIN_BATCH_SIZE + 1 then |addrs| - start else UNPIN_BATCH_SIZE + 1
      ensures ix == UnpinRound(old(ix), addrs[start..start + size], now)
    {
      var batch := new Batch(ix);
      var gcSizeChange := 0;
      size := 0;
      ghost var n := if |addrs| - start <= UNPIN_BATCH_SIZE + 1 then |addrs| - start else UNPIN_BATCH_SIZE + 1;
      ghost var round := addrs[start..start + n];
      ghost var step := UnpinSteps(ix, round, now);
      ghost var whole := Fold(step, Effect(ix, 0, None), n, 0);
      while start + size < |addrs| && size <= UNPIN_BATCH_SIZE
        modifies batch
        invariant size <= n && batch.pending.gcSize == ix.gcSize && gcSizeChange >= 0
        invariant whole == Fold(step, Effect(batch.pending, gcSizeChange, None), n, size)
      {
        ghost var was := Effect(batch.pending, gcSizeChange, None);
        assert round[size] == addrs[start + size];
        var change, err := SetUnpin(batch, addrs[start + size], now(size));
        NextUnpins(ix, round, now, was, size, StoreOps.SetUnpin(ix, was.batch, round[size], now(size)));
        gcSizeChange := gcSizeChange + change;
        size := size + 1;
      }
      if gcSizeChange > 0 {
        IncGCSizeInBatch(batch, gcSizeChange);
      }
      ix := batch.pending;
    }

    /** unpinBatchChunks over the chunks of one bin in key order. */
    method UnpinBatchChunks(addrs: seq<Address>, now: nat -> int)
      modifies this`ix
      ensures ix == UnpinAll(old(ix), addrs, now)
    {
      var start := 0;
      var more := true;
      var clock := now;
      ghost var result := UnpinAll(ix, addrs, now);
      while more
        invariant 0 <= start <= |addrs|
        invariant result == if more then UnpinAll(ix, addrs[start..], clock) else ix
        decreases more, |addrs| - start
      {
        ghost var rest := addrs[start..];
        var size := UnpinChunks(addrs, start, clock);
        assert addrs[start..start + size] == rest[..size];
        assert rest[..|rest|] == rest && rest[size..] == addrs[start + size..];
        start := start + size;
        more := start < |addrs|;
        clock := Later(clock);
      }
    }

    method UnreserveBin(id: BatchID, bin: nat, addrs: seq<Address>, now: nat -> int)
      modifies this`ix
      ensures ix == StoreRuns.UnreserveBin(old(ix), id, bin, addrs, now)
    {
      UnpinBatchChunks(addrs, now);
      if bin == MAX_PO {
        ix := DropRadius(ix, id);
      } else {
        ix := SetRadius(ix, id, bin);
      }
    }

    /** The loop over the bins, and the final radius. */
    method UnreserveBins(id: BatchID, oldRadius: nat, radius: nat, order: nat -> seq<Address>, now: nat -> nat -> int)
      modifies this`ix
      ensures ix == UnreserveFrom(old(ix), id, oldRadius, radius, order, now)
    {
      ghost var whole := UnreserveFrom(ix, id, oldRadius, radius, order, now);
      var bin := oldRadius;
      while bin < radius
        invariant whole == UnreserveFrom(ix, id, bin, radius, order, now)
      {
        ghost var noted := StoreRuns.UnreserveBin(ix, id, bin, order(bin), now(bin));
        assert whole == UnreserveFrom(noted, id, bin + 1, radius, order, now);
        UnreserveBin(id, bin, order(bin), now(bin));
        bin := bin + 1;
      }
      if radius != MAX_PO + 1 {
        ix := SetRadius(ix, id, radius);
      }
    }

    method UnreserveBatch(id: BatchID, radius: nat, order: nat -> seq<Address>, now: nat -> nat -> int)
      modifies this`ix
      ensures ix == StoreRuns.UnreserveBatch(old(ix), id, radius, order, now)
    {
      var oldRadius := 0;
      if id in ix.side.radius {
        oldRadius := ix.side.radius[id];
      }
      UnreserveBins(id, oldRadius, radius, order, now);
    }
  }

  /** The chunk is stored already, or another of the call with its address came before it. */
  predicate Known(ix: Indexes, chs: seq<Chunk>, i: nat)
    requires i < |chs|
  {
    chs[i].addr in ix.data || exists j :: 0 <= j < i && chs[j].addr == chs[i].addr
  }

  /** A new chunk whose slot holds the same or a later stamp: the put goes through, stores nothing, and does not report it as existing. */
  lemma KeptIsNotReported(c: Config, kind: PutKind, db: Indexes, ch: Chunk, now: nat -> Times)
    requires ch.addr !in db.data && ch.slot in db.side.slots && !ch.immutable
    requires ch.stampTs <= db.side.slots[ch.slot].stampTs
    ensures Commits(c, kind, db, [ch], now) && !Known(db, [ch], 0)
    ensures var after := PutCall(c, kind, db, [ch], now); after.data == db.data && after.side == db.side
  {
    var step := PutSteps(c, kind, db, [ch], now);
    var e := StoreOps.PutChunk(c, kind, db, db, ch, now(0));
    assert [ch][0] == ch && First([ch], 0);
    assert Next(step, Effect(db, 0, None), 0) == e;
    assert Fold(step, e, 1, 1) == e;
  }

  lemma SeenBefore(chs: seq<Chunk>, i: nat)
    requires i < |chs|
    ensures First(chs, i) <==> !exists j :: 0 <= j < |chs[..i]| && chs[..i][j].addr == chs[i].addr
  {
    if First(chs, i) {
    } else {
      var j :| 0 <= j < i && chs[j].addr == chs[i].addr;
      assert chs[..i][j] == chs[j];
    }
  }
}
