/** What a set transition does to a chunk whose address came earlier in the same call. */
module StoreRepeat {
  import opened StoreIndexes
  import opened StoreOps
  import opened StoreLemmas

  lemma SetOneElsewhere(c: Config, mode: SetMode, db: Indexes, batch: Indexes, a: Address, now: int, x: Address)
    requires x != a
    ensures SameAt(batch, SetOne(c, mode, db, batch, a, now).batch, x)
  {
    match mode {
      case ModeSync => SetSyncElsewhere(c, db, batch, a, now, x);
      case ModeRemove => SetRemoveElsewhere(c, db, batch, a, x);
      case ModePin => SetPinElsewhere(db, batch, a, x);
      case ModeUnpin => SetUnpinElsewhere(db, batch, a, now, x);
    }
  }

  lemma SetOneSound(c: Config, mode: SetMode, db: Indexes, batch: Indexes, a: Address, now: int)
    requires Pending(db, batch, a)
    ensures Sound(batch, SetOne(c, mode, db, batch, a, now), a)
  {
    match mode {
      case ModeSync => SetSyncSound(c, db, batch, a, now);
      case ModeRemove => SetRemoveSound(c, db, batch, a);
      case ModePin => SetPinSound(db, batch, a);
      case ModeUnpin => SetUnpinSound(db, batch, a, now);
    }
  }

  /** The last pin of a synced chunk. */
  predicate LastPin(ix: Indexes, a: Address) {
    a in ix.pin && ix.pin[a] <= 1 && a in ix.data && PushKey(ix.data[a].storeTs, a) !in ix.push
  }

  /** What naming a chunk counts: pinning, removing or syncing takes it out of the cache, its last unpinning puts it there. */
  function CountOf(mode: SetMode, db: Indexes, a: Address): int {
    match mode
    case ModeUnpin => if LastPin(db, a) then 1 else 0
    case _ => if InCache(db, a) then -1 else 0
  }

  /** The counter change depends on the committed state alone. */
  lemma SetOneCounts(c: Config, mode: SetMode, db: Indexes, batch: Indexes, a: Address, now: int)
    requires AddrOk(db, a)
    ensures SetOne(c, mode, db, batch, a, now).gcChange == CountOf(mode, db, a)
  {
    match mode {
      case ModeSync => SyncCounts(c, db, batch, a, now);
      case ModeRemove =>
      case ModePin =>
      case ModeUnpin =>
    }
  }

  lemma SyncCounts(c: Config, db: Indexes, batch: Indexes, a: Address, now: int)
    requires AddrOk(db, a)
    ensures SetSync(c, db, batch, a, now).gcChange == if InCache(db, a) then -1 else 0
  {
    if a in db.data {
      assert c.Within(a, 0);
    }
  }

  /** Every chunk is within radius 0, so a sync always ends in the reserve. */
  lemma SyncPins(c: Config, db: Indexes, batch: Indexes, a: Address, now: int)
    requires a in db.data
    ensures SetSync(c, db, batch, a, now) == SetPin(db, Synced(db, batch, a, now), a)
  {
    assert c.Within(a, 0);
  }

  // ----- the first time -----

  lemma SetPinLocal(db: Indexes, batch: Indexes, a: Address)
    requires Pending(db, batch, a)
    ensures SameAt(SetPin(db, db, a).batch, SetPin(db, batch, a).batch, a)
  {
    if a in db.pin {
    } else if a !in db.access {
    } else {
    }
  }

  lemma SetUnpinLocal(db: Indexes, batch: Indexes, a: Address, now: int)
    requires Pending(db, batch, a)
    ensures SameAt(SetUnpin(db, db, a, now).batch, SetUnpin(db, batch, a, now).batch, a)
  {
    if a !in db.pin {
    } else if db.pin[a] > 1 {
    } else if a !in db.data || PushKey(db.data[a].storeTs, a) in db.push {
    } else if a in db.access {
    } else {
    }
  }

  lemma SetRemoveLocal(c: Config, db: Indexes, batch: Indexes, a: Address)
    requires Pending(db, batch, a)
    ensures SameAt(SetRemove(c, db, db, a).batch, SetRemove(c, db, batch, a).batch, a)
  {
    if a in db.data {
      var key := GcKey(if a in db.access then db.access[a] else 0, db.data[a].binID, a);
      if key in db.gc {
      } else {
      }
    }
  }

  lemma SyncedLocal(db: Indexes, batch: Indexes, a: Address, now: int)
    requires Pending(db, batch, a) && a in db.data
    ensures SameAt(Synced(db, db, a, now), Synced(db, batch, a, now), a)
  {
  }

  lemma PinLocal(db: Indexes, x: Indexes, y: Indexes, a: Address)
    requires SameAt(x, y, a)
    ensures SameAt(SetPin(db, x, a).batch, SetPin(db, y, a).batch, a)
  {
    if a in db.pin || a !in db.access {
    } else if a !in db.data {
    } else {
    }
  }

  lemma SetSyncLocal(c: Config, db: Indexes, batch: Indexes, a: Address, now: int)
    requires Pending(db, batch, a)
    ensures SameAt(SetSync(c, db, db, a, now).batch, SetSync(c, db, batch, a, now).batch, a)
  {
    if a in db.data {
      SyncedLocal(db, batch, a, now);
      PinLocal(db, Synced(db, db, a, now), Synced(db, batch, a, now), a);
      SyncPins(c, db, db, a, now);
      SyncPins(c, db, batch, a, now);
    }
  }

  /** What happens to a chunk does not depend on what the batch holds for other ones. */
  lemma SetOneLocal(c: Config, mode: SetMode, db: Indexes, batch: Indexes, a: Address, now: int)
    requires Pending(db, batch, a)
    ensures SameAt(SetOne(c, mode, db, db, a, now).batch, SetOne(c, mode, db, batch, a, now).batch, a)
  {
    match mode {
      case ModeSync => SetSyncLocal(c, db, batch, a, now);
      case ModeRemove => SetRemoveLocal(c, db, batch, a);
      case ModePin => SetPinLocal(db, batch, a);
      case ModeUnpin => SetUnpinLocal(db, batch, a, now);
    }
  }

  // ----- once more -----

  lemma SetPinAgain(db: Indexes, batch: Indexes, a: Address)
    requires AddrOk(db, a) && SameAt(SetPin(db, db, a).batch, batch, a)
    ensures SameAt(batch, SetPin(db, batch, a).batch, a)
    ensures |SetPin(db, batch, a).batch.gc| == |batch.gc|
  {
    if a in db.pin {
    } else if a !in db.access {
    } else {
      RemovedSize(batch.gc, GcKey(db.access[a], db.data[a].binID, a));
    }
  }

  lemma SetUnpinAgain(db: Indexes, batch: Indexes, a: Address, m: int, n: int)
    requires AddrOk(db, a) && ChunkOk(db, a) && SameAt(SetUnpin(db, db, a, m).batch, batch, a)
    ensures SameAt(SetUnpin(db, db, a, n).batch, SetUnpin(db, batch, a, n).batch, a)
    ensures |SetUnpin(db, batch, a, n).batch.gc| == |batch.gc|
  {
    if a !in db.pin {
    } else if db.pin[a] > 1 {
    } else if a !in db.data || PushKey(db.data[a].storeTs, a) in db.push {
    } else {
      AddedSize(batch.gc, GcKey(db.access[a], db.data[a].binID, a), Slot(db.data[a].slot.batch, 0));
    }
  }

  lemma SetRemoveTwice(c: Config, db: Indexes, batch: Indexes, a: Address)
    requires AddrOk(db, a) && SameAt(SetRemove(c, db, db, a).batch, batch, a)
    ensures SameAt(SetRemove(c, db, db, a).batch, SetRemove(c, db, batch, a).batch, a)
    ensures |SetRemove(c, db, batch, a).batch.gc| == |batch.gc|
  {
    if a in db.data {
      SetRemoveGone(c, db, db, a);
      SameAtGone(SetRemove(c, db, db, a).batch, batch, a);
      SetRemoveAgain(c, db, batch, a);
      SameAtTrans(SetRemove(c, db, db, a).batch, batch, SetRemove(c, db, batch, a).batch, a);
    }
  }

  lemma SetSyncAgain(c: Config, db: Indexes, batch: Indexes, a: Address, m: int, n: int)
    requires AddrOk(db, a) && SameAt(SetSync(c, db, db, a, m).batch, batch, a)
    ensures SameAt(SetSync(c, db, db, a, n).batch, SetSync(c, db, batch, a, n).batch, a)
    ensures |SetSync(c, db, batch, a, n).batch.gc| == |batch.gc|
  {
    if a in db.data {
      SyncPins(c, db, db, a, m);
      SyncPins(c, db, db, a, n);
      SyncPins(c, db, batch, a, n);
      if a in db.pin || a !in db.access {
      } else {
        RemovedSize(batch.gc, GcKey(db.access[a], db.data[a].binID, a));
      }
    }
  }

  /** Named again, a chunk ends where the last naming alone would have taken it, and no entry comes or goes. */
  lemma SetOneAgain(c: Config, mode: SetMode, db: Indexes, batch: Indexes, a: Address, m: int, n: int)
    requires AddrOk(db, a) && ChunkOk(db, a)
    requires SameAt(SetOne(c, mode, db, db, a, m).batch, batch, a)
    ensures SameAt(SetOne(c, mode, db, db, a, n).batch, SetOne(c, mode, db, batch, a, n).batch, a)
    ensures |SetOne(c, mode, db, batch, a, n).batch.gc| == |batch.gc|
  {
    match mode {
      case ModeSync => SetSyncAgain(c, db, batch, a, m, n);
      case ModeRemove => SetRemoveTwice(c, db, batch, a);
      case ModePin =>
        SetPinAgain(db, batch, a);
        SameAtTrans(SetPin(db, db, a).batch, batch, SetPin(db, batch, a).batch, a);
      case ModeUnpin => SetUnpinAgain(db, batch, a, m, n);
    }
  }
}
