/** Bin ids grow in commit order: what every step of the store does to the entries that carry one. */
module StoreGrowth {
  import opened Wrappers

  import opened StoreIndexes
  import opened StoreOps
  import opened StoreCalls
  import opened StorePuts
  import opened StoreReserve
  import opened StoreGc
  import opened StoreRuns

  /** The last id given out in a bin. */
  function Counter(ix: Indexes, po: nat): nat {
    if po in ix.side.binIDs then ix.side.binIDs[po] else 0
  }

  /** Every pull entry and every data entry that is new has an id above all ids given out before. */
  ghost predicate Grows(c: Config, x: Indexes, y: Indexes) {
    && (forall po: nat :: Counter(x, po) <= Counter(y, po))
    && (forall k {:trigger k in y.side.pull} :: k in y.side.pull ==>
          k in x.side.pull || Counter(x, k.po) < k.binID <= Counter(y, k.po))
    && (forall a {:trigger a in y.data} :: a in y.data ==>
          || (a in x.data && y.data[a] == x.data[a])
          || Counter(x, c.po(a)) < y.data[a].binID <= Counter(y, c.po(a)))
  }

  lemma GrowsTrans(c: Config, x: Indexes, y: Indexes, z: Indexes)
    requires Grows(c, x, y) && Grows(c, y, z)
    ensures Grows(c, x, z)
  {
    forall po: nat ensures Counter(x, po) <= Counter(z, po) {
      assert Counter(x, po) <= Counter(y, po);
    }
    forall k {:trigger k in z.side.pull} | k in z.side.pull
      ensures k in x.side.pull || Counter(x, k.po) < k.binID <= Counter(z, k.po)
    {
      assert Counter(x, k.po) <= Counter(y, k.po) <= Counter(z, k.po);
      if k in y.side.pull {
      }
    }
    forall a {:trigger a in z.data} | a in z.data
      ensures (a in x.data && z.data[a] == x.data[a]) || Counter(x, c.po(a)) < z.data[a].binID <= Counter(z, c.po(a))
    {
      assert Counter(x, c.po(a)) <= Counter(y, c.po(a)) <= Counter(z, c.po(a));
      if a in y.data {
      }
    }
  }

  /** Nothing with a bin id was added. */
  ghost predicate Shrinks(x: Indexes, y: Indexes) {
    && y.side.binIDs == x.side.binIDs
    && (forall k {:trigger k in y.side.pull} :: k in y.side.pull ==> k in x.side.pull)
    && (forall a {:trigger a in y.data} :: a in y.data ==> a in x.data && y.data[a] == x.data[a])
  }

  lemma ShrinkGrows(c: Config, x: Indexes, y: Indexes)
    requires Shrinks(x, y)
    ensures Grows(c, x, y)
  {
  }

  lemma SideGrows(c: Config, x: Indexes, y: Indexes, z: Indexes)
    requires Grows(c, x, y) && z.side == y.side && z.data == y.data
    ensures Grows(c, x, z)
  {
    forall po: nat ensures Counter(x, po) <= Counter(z, po) {
      assert Counter(x, po) <= Counter(y, po);
    }
  }

  // ----- the transitions -----

  lemma SetPinShrinks(db: Indexes, batch: Indexes, a: Address)
    ensures SetPin(db, batch, a).batch.side == batch.side && SetPin(db, batch, a).batch.data == batch.data
  {
  }

  lemma SetUnpinShrinks(db: Indexes, batch: Indexes, a: Address, now: int)
    ensures SetUnpin(db, batch, a, now).batch.side == batch.side && SetUnpin(db, batch, a, now).batch.data == batch.data
  {
  }

  lemma PreserveShrinks(c: Config, db: Indexes, batch: Indexes, item: Cached, pin: bool, cache: bool)
    ensures
      var after := PreserveOrCache(c, db, batch, item, pin, cache).batch;
      after.side == batch.side && after.data == batch.data
  {
    SetPinShrinks(db, batch, item.addr);
  }

  lemma SetSyncShrinks(c: Config, db: Indexes, batch: Indexes, a: Address, now: int)
    ensures SetSync(c, db, batch, a, now).batch.side == batch.side && SetSync(c, db, batch, a, now).batch.data == batch.data
  {
    if a in db.data {
      var e := db.data[a];
      var pushed := batch.DropPush(PushKey(e.storeTs, a));
      if a in db.access {
        PreserveShrinks(c, db, pushed, Cached(a, db.access[a], e.binID, e.slot, 0), false, false);
      } else {
        PreserveShrinks(c, db, pushed.PutAccess(a, now), Cached(a, now, e.binID, e.slot, 0), false, false);
      }
    }
  }

  lemma SetRemoveShrinks(c: Config, db: Indexes, batch: Indexes, a: Address)
    ensures Shrinks(batch, SetRemove(c, db, batch, a).batch)
  {
    var key := GcKey(if a in db.access then db.access[a] else 0, if a in db.data then db.data[a].binID else 0, a);
    if a !in db.data {
    } else if key in db.gc {
    } else {
    }
  }

  lemma SetOneShrinks(c: Config, mode: SetMode, db: Indexes, batch: Indexes, a: Address, now: int)
    ensures Shrinks(batch, SetOne(c, mode, db, batch, a, now).batch)
  {
    match mode {
      case ModeSync => SetSyncShrinks(c, db, batch, a, now);
      case ModeRemove => SetRemoveShrinks(c, db, batch, a);
      case ModePin => SetPinShrinks(db, batch, a);
      case ModeUnpin => SetUnpinShrinks(db, batch, a, now);
    }
  }

  lemma StoredGrows(c: Config, batch: Indexes, ch: Chunk, now: int, pulled: bool)
    ensures Grows(c, batch, Stored(c, batch, ch, now, pulled))
  {
  }

  lemma PutNewGrows(c: Config, kind: PutKind, db: Indexes, batch: Indexes, ch: Chunk, t: Times)
    ensures Grows(c, batch, PutNew(c, kind, db, batch, ch, t).batch)
  {
    var id := NextBinID(batch, c.po(ch.addr));
    var item := Cached(ch.addr, t.access, id, ch.slot, ch.radius);
    var after := PutNew(c, kind, db, batch, ch, t).batch;
    match kind {
      case Request(pin, cache) =>
        StoredGrows(c, batch, ch, t.store, !cache);
        PreserveShrinks(c, db, Stored(c, batch, ch, t.store, !cache).PutAccess(ch.addr, t.access), item, pin, cache);
        SideGrows(c, batch, Stored(c, batch, ch, t.store, !cache), after);
      case Upload(_) =>
        StoredGrows(c, batch, ch, t.store, true);
        SideGrows(c, batch, Stored(c, batch, ch, t.store, true), after);
      case Sync =>
        StoredGrows(c, batch, ch, t.store, true);
        PreserveShrinks(c, db, Stored(c, batch, ch, t.store, true).PutAccess(ch.addr, t.access), item, false, false);
        SideGrows(c, batch, Stored(c, batch, ch, t.store, true), after);
    }
  }

  lemma PutOpGrows(c: Config, kind: PutKind, db: Indexes, batch: Indexes, ch: Chunk, t: Times)
    ensures Grows(c, batch, PutOp(c, kind, db, batch, ch, t).batch)
  {
    match SlotOf(db, ch) {
      case Free => PutNewGrows(c, kind, db, batch, ch, t);
      case Keep => ShrinkGrows(c, batch, batch);
      case Refuse => ShrinkGrows(c, batch, batch);
      case Replace(prev) =>
        var removed := SetRemove(c, db, batch, prev);
        SetRemoveShrinks(c, db, batch, prev);
        ShrinkGrows(c, batch, removed.batch);
        PutNewGrows(c, kind, db, removed.batch, ch, t);
        GrowsTrans(c, batch, removed.batch, PutNew(c, kind, db, removed.batch, ch, t).batch);
    }
  }

  lemma PutChunkGrows(c: Config, kind: PutKind, db: Indexes, batch: Indexes, ch: Chunk, t: Times)
    ensures Grows(c, batch, PutChunk(c, kind, db, batch, ch, t).batch)
  {
    if ch.addr in db.data {
      ShrinkGrows(c, batch, batch);
    } else {
      var put := PutOp(c, kind, db, batch, ch, t);
      PutOpGrows(c, kind, db, batch, ch, t);
      SetPinShrinks(db, put.batch, ch.addr);
      SideGrows(c, batch, put.batch, PutChunk(c, kind, db, batch, ch, t).batch);
    }
  }

  lemma EvictShrinks(c: Config, batch: Indexes, cand: Candidate)
    ensures Shrinks(batch, Evict(c, batch, cand))
  {
  }

  // ----- whole calls -----

  lemma FoldGrows(c: Config, db: Indexes, step: Steps, n: nat)
    requires forall b: Indexes, j: nat :: j < n ==> Grows(c, b, step(b, j).batch)
    ensures
      var e := Fold(step, Effect(db, 0, None), n, 0);
      e.err.None? ==> Grows(c, db, e.batch) && Grows(c, db, Commit(db, e))
  {
    var inv := (p: Effect, j: nat) => Grows(c, db, p.batch);
    ShrinkGrows(c, db, db);
    assert inv(Effect(db, 0, None), 0);
    forall p: Effect, j: nat | j < n && inv(p, j) ensures inv(Next(step, p, j), j + 1) {
      GrowsTrans(c, db, p.batch, step(p.batch, j).batch);
    }
    FoldKeeps(step, inv, Effect(db, 0, None), n, 0);
    var e := Fold(step, Effect(db, 0, None), n, 0);
    if e.err.None? {
      SideGrows(c, db, e.batch, Commit(db, e));
    }
  }

  lemma SetCallGrows(c: Config, mode: SetMode, db: Indexes, addrs: seq<Address>, now: nat -> int)
    ensures Grows(c, db, SetCall(c, mode, db, addrs, now))
  {
    var step := SetSteps(c, mode, db, addrs, now);
    forall b: Indexes, j: nat | j < |addrs| ensures Grows(c, b, step(b, j).batch) {
      SetOneShrinks(c, mode, db, b, addrs[j], now(j));
      ShrinkGrows(c, b, step(b, j).batch);
    }
    FoldGrows(c, db, step, |addrs|);
    ShrinkGrows(c, db, db);
  }

  lemma PutCallGrows(c: Config, kind: PutKind, db: Indexes, chs: seq<Chunk>, now: nat -> Times)
    ensures Grows(c, db, PutCall(c, kind, db, chs, now))
  {
    var step := PutSteps(c, kind, db, chs, now);
    forall b: Indexes, j: nat | j < |chs| ensures Grows(c, b, step(b, j).batch) {
      if First(chs, j) {
        PutChunkGrows(c, kind, db, b, chs[j], now(j));
      } else {
        ShrinkGrows(c, b, b);
      }
    }
    FoldGrows(c, db, step, |chs|);
    ShrinkGrows(c, db, db);
  }

  lemma UnpinRoundGrows(c: Config, db: Indexes, addrs: seq<Address>, now: nat -> int)
    ensures Grows(c, db, UnpinRound(db, addrs, now))
  {
    var step := UnpinSteps(db, addrs, now);
    forall b: Indexes, j: nat | j < |addrs| ensures Grows(c, b, step(b, j).batch) {
      SetUnpinShrinks(db, b, addrs[j], now(j));
      ShrinkGrows(c, b, step(b, j).batch);
    }
    FoldNoError(step, Effect(db, 0, None), |addrs|, 0);
    FoldGrows(c, db, step, |addrs|);
  }

  lemma {:induction false} UnpinAllGrows(c: Config, db: Indexes, addrs: seq<Address>, now: nat -> int)
    ensures Grows(c, db, UnpinAll(db, addrs, now))
    decreases |addrs|
  {
    if |addrs| <= UNPIN_BATCH_SIZE + 1 {
      UnpinRoundGrows(c, db, addrs, now);
    } else {
      var mid := UnpinRound(db, addrs[..UNPIN_BATCH_SIZE + 1], now);
      UnpinRoundGrows(c, db, addrs[..UNPIN_BATCH_SIZE + 1], now);
      UnpinAllGrows(c, mid, addrs[UNPIN_BATCH_SIZE + 1..], Later(now));
      GrowsTrans(c, db, mid, UnpinAll(db, addrs, now));
    }
  }

  lemma {:induction false} UnreserveGrows(c: Config, db: Indexes, id: BatchID, bin: nat, radius: nat,
                                          order: nat -> seq<Address>, now: nat -> nat -> int)
    ensures Grows(c, db, UnreserveFrom(db, id, bin, radius, order, now))
    decreases radius - bin
  {
    if bin >= radius {
      ShrinkGrows(c, db, UnreserveFrom(db, id, bin, radius, order, now));
    } else {
      var unpinned := UnpinAll(db, order(bin), now(bin));
      var noted := UnreserveBin(db, id, bin, order(bin), now(bin));
      UnpinAllGrows(c, db, order(bin), now(bin));
      ShrinkGrows(c, unpinned, noted);
      GrowsTrans(c, db, unpinned, noted);
      UnreserveGrows(c, noted, id, bin + 1, radius, order, now);
      GrowsTrans(c, db, noted, UnreserveFrom(noted, id, bin + 1, radius, order, now));
    }
  }

  lemma {:induction false} CollectGrows(c: Config, db: Indexes, r: Collected, cands: seq<Candidate>, k: nat,
                                        dirty: set<Address>, target: nat)
    requires Grows(c, db, r.batch)
    ensures Grows(c, db, CollectFrom(c, db, r, cands, k, dirty, target).batch)
    decreases |cands| - k
  {
    if k < |cands| {
      if cands[k].key.addr in dirty {
        CollectGrows(c, db, r, cands, k + 1, dirty, target);
      } else if Sub64(db.gcSize, |r.evicted|) > target && cands[k].key.addr in db.data {
        EvictShrinks(c, r.batch, cands[k]);
        ShrinkGrows(c, r.batch, Evict(c, r.batch, cands[k]));
        GrowsTrans(c, db, r.batch, Evict(c, r.batch, cands[k]));
        CollectGrows(c, db, Evicted(c, r, cands[k]), cands, k + 1, dirty, target);
      }
    }
  }

  /** Whatever the store does, new entries come with ids above all earlier ones of their bin. */
  lemma StepGrows(c: Config, s: Sys, ev: Event)
    ensures Grows(c, s.ix, Step(c, s, ev).ix)
  {
    ShrinkGrows(c, s.ix, s.ix);
    match ev {
      case SetEvent(mode, addrs, now) => SetCallGrows(c, mode, s.ix, addrs, now);
      case PutEvent(kind, chs, now) => PutCallGrows(c, kind, s.ix, chs, now);
      case ReadEvent(item, now) => ShrinkGrows(c, s.ix, UpdateGC(s.ix, item, now));
      case UnreserveEvent(id, radius, order, now) => UnreserveGrows(c, s.ix, id, OldRadius(s.ix, id), radius, order, now);
      case RaiseEvent =>
      case GatherEvent(cands) =>
      case CollectEvent(target) =>
        if s.phase.Gathered? {
          var r := Collect(c, s.ix, s.phase.cands, s.phase.dirty, target);
          CollectGrows(c, s.ix, Collected(s.ix, [], false, false), s.phase.cands, 0, s.phase.dirty, target);
          if !r.failed {
            SideGrows(c, s.ix, r.batch, AfterCollect(s.ix, r));
          }
        }
      case LowerEvent =>
    }
  }

  // ----- runs -----

  /** No pull entry and no data entry is above the counter of its bin. */
  ghost predicate CountersOk(c: Config, ix: Indexes) {
    && (forall k {:trigger k in ix.side.pull} :: k in ix.side.pull ==> k.binID <= Counter(ix, k.po))
    && (forall a {:trigger a in ix.data} :: a in ix.data ==> ix.data[a].binID <= Counter(ix, c.po(a)))
  }

  lemma CountersKept(c: Config, x: Indexes, y: Indexes)
    requires CountersOk(c, x) && Grows(c, x, y)
    ensures CountersOk(c, y)
  {
    forall k {:trigger k in y.side.pull} | k in y.side.pull ensures k.binID <= Counter(y, k.po) {
      assert Counter(x, k.po) <= Counter(y, k.po);
    }
    forall a {:trigger a in y.data} | a in y.data ensures y.data[a].binID <= Counter(y, c.po(a)) {
      assert Counter(x, c.po(a)) <= Counter(y, c.po(a));
    }
  }

  lemma {:induction false} RunGrows(c: Config, s: Sys, evs: seq<Event>)
    ensures Grows(c, s.ix, Run(c, s, evs).ix)
    decreases |evs|
  {
    if evs == [] {
      ShrinkGrows(c, s.ix, s.ix);
    } else {
      var next := Step(c, s, evs[0]);
      StepGrows(c, s, evs[0]);
      RunGrows(c, next, evs[1..]);
      GrowsTrans(c, s.ix, next.ix, Run(c, s, evs).ix);
    }
  }

  /** In every store that started empty, the counters are at or above every id in use. */
  lemma AlwaysCounted(c: Config, evs: seq<Event>)
    ensures CountersOk(c, Run(c, START, evs).ix)
  {
    RunGrows(c, START, evs);
    CountersKept(c, START.ix, Run(c, START, evs).ix);
  }
}
