/** Access-time updates (mode_get.go) and garbage collection (gc.go). */
module StoreGc {
  import opened StoreIndexes
  import opened StoreOps
  import opened StoreLemmas
  import opened StoreCalls

  // ----- updateGC -----

  /** When updateGC may run: the chunk has no gc entry to move, or the item names the one it has. */
  predicate MovesItsEntry(db: Indexes, item: Read, now: int) {
    var a := item.addr;
    || a !in db.access
    || db.access[a] == 0
    || a in db.pin
    || db.access[a] == now
    || (a in db.data && item.binID == db.data[a].binID)
  }

  lemma UpdateGCElsewhere(db: Indexes, item: Read, now: int, x: Address)
    requires x != item.addr
    ensures SameAt(db, UpdateGC(db, item, now), x)
  {
    if item.addr !in db.access || db.access[item.addr] == 0 {
    } else if GcKey(db.access[item.addr], item.binID, item.addr) in db.gc {
    } else {
    }
  }

  /** The item has the bin id of the chunk's gc entry. */
  lemma UpdateGCMoves(db: Indexes, item: Read, now: int)
    requires AddrOk(db, item.addr) && item.addr in db.access && db.access[item.addr] != 0
    requires GcKey(db.access[item.addr], item.binID, item.addr) in db.gc
    ensures AddrOk(UpdateGC(db, item, now), item.addr)
    ensures |UpdateGC(db, item, now).gc| == |db.gc|
  {
    var key := GcKey(db.access[item.addr], item.binID, item.addr);
    RemovedSize(db.gc, key);
    AddedSize(db.gc - {key}, GcKey(now, item.binID, item.addr), item.slot);
  }

  /** The chunk has no gc entry under the item's key, so only its access time changes. */
  lemma UpdateGCStays(db: Indexes, item: Read, now: int)
    requires AddrOk(db, item.addr) && item.addr in db.access && db.access[item.addr] != 0
    requires GcKey(db.access[item.addr], item.binID, item.addr) !in db.gc
    ensures AddrOk(UpdateGC(db, item, now), item.addr) <==> item.addr in db.pin || db.access[item.addr] == now
    ensures UpdateGC(db, item, now).gc == db.gc
  {
    var a := item.addr;
    var key := GcKey(db.access[a], item.binID, a);
    RemovedSize(db.gc, key);
    if a !in db.pin {
      assert GcKey(db.access[a], db.data[a].binID, a) in UpdateGC(db, item, now).gc;
    }
  }

  /**
   updateGC keeps the partition if and only if the item it was handed still matches: a chunk
   removed and stored again since the item was read is left with a gc entry nobody can find.
   */
  lemma UpdateGCKeepsIff(db: Indexes, item: Read, now: int)
    requires Partition(db)
    ensures Partition(UpdateGC(db, item, now)) <==> MovesItsEntry(db, item, now)
    ensures |UpdateGC(db, item, now).gc| == |db.gc|
    ensures UpdateGC(db, item, now).gcSize == db.gcSize
    ensures OnlyAt(db, UpdateGC(db, item, now), {item.addr})
  {
    var a := item.addr;
    var after := UpdateGC(db, item, now);
    forall x | x != a ensures SameAt(db, after, x) && AddrOk(after, x) {
      UpdateGCElsewhere(db, item, now, x);
      assert AddrOk(db, x);
      SameAtOk(db, after, x);
    }
    assert AddrOk(db, a);
    if a in db.access && db.access[a] != 0 {
      if GcKey(db.access[a], item.binID, a) in db.gc {
        UpdateGCMoves(db, item, now);
      } else {
        UpdateGCStays(db, item, now);
      }
    }
    assert Partition(after) <==> AddrOk(after, a);
  }

  // ----- collectGarbage -----

  /** An Item decoded from the gc index. */
  datatype Candidate = Candidate(key: GcKey, slot: Slot)

  /** uint64 subtraction. */
  function Sub64(a: nat, b: nat): nat {
    if a >= b then a - b else a + 0x1_0000_0000_0000_0000 - b % 0x1_0000_0000_0000_0000
  }

  /** The deletes collectGarbage puts in the batch for one candidate; the item has no StoreTimestamp. */
  function Evict(c: Config, batch: Indexes, cand: Candidate): Indexes {
    var a := cand.key.addr;
    batch
      .DropData(a)
      .DropAccess(a)
      .DropPush(PushKey(0, a))
      .DropPull(PullKey(c.po(a), cand.key.binID))
      .DropGc(cand.key)
      .DropStamp(c.po(a), a, cand.slot)
  }

  datatype Collected = Collected(batch: Indexes, evicted: seq<Candidate>, done: bool, failed: bool)

  /** The locked loop over the candidates from the k-th one on. */
  function CollectFrom(c: Config, db: Indexes, r: Collected, cands: seq<Candidate>, k: nat,
                       dirty: set<Address>, target: nat): Collected
    decreases |cands| - k
  {
    if k >= |cands| then r
    else if cands[k].key.addr in dirty then
      CollectFrom(c, db, r, cands, k + 1, dirty, target)
    else if Sub64(db.gcSize, |r.evicted|) <= target then
      r.(done := true)
    else if cands[k].key.addr !in db.data then
      r.(failed := true)
    else
      CollectFrom(c, db, r.(batch := Evict(c, r.batch, cands[k]), evicted := r.evicted + [cands[k]]),
                  cands, k + 1, dirty, target)
  }

  function Collect(c: Config, db: Indexes, cands: seq<Candidate>, dirty: set<Address>, target: nat): Collected {
    CollectFrom(c, db, Collected(db, [], false, false), cands, 0, dirty, target)
  }

  /** The state after a run: the batch is dropped when a candidate's chunk was missing. */
  function AfterCollect(db: Indexes, r: Collected): Indexes {
    if r.failed then db else r.batch.(gcSize := Sub64(db.gcSize, |r.evicted|))
  }

  /** What is known of a candidate under the lock: it was touched, or its entry is still there, or its chunk is gone. */
  predicate CandidateOk(ix: Indexes, cand: Candidate, dirty: set<Address>) {
    cand.key.addr in dirty || cand.key in ix.gc || cand.key.addr !in ix.data
  }

  ghost predicate CandidatesOk(ix: Indexes, cands: seq<Candidate>, dirty: set<Address>) {
    && (forall i, j :: 0 <= i < j < |cands| ==> cands[i].key.addr != cands[j].key.addr)
    && (forall i :: 0 <= i < |cands| ==> CandidateOk(ix, cands[i], dirty))
  }

  lemma EvictElsewhere(c: Config, batch: Indexes, cand: Candidate, x: Address)
    requires x != cand.key.addr
    ensures SameAt(batch, Evict(c, batch, cand), x)
  {
  }

  lemma EvictOk(c: Config, db: Indexes, batch: Indexes, cand: Candidate)
    requires Pending(db, batch, cand.key.addr) && cand.key in db.gc
    ensures AddrOk(Evict(c, batch, cand), cand.key.addr)
    ensures |Evict(c, batch, cand).gc| == |batch.gc| - 1
    ensures cand.key.addr !in db.pin
  {
    RemovedSize(batch.gc, cand.key);
  }

  /** What may be said of an evicted candidate. */
  predicate EvictedOk(db: Indexes, cands: seq<Candidate>, cand: Candidate, dirty: set<Address>) {
    && cand in cands
    && cand.key in db.gc
    && cand.key.addr !in dirty
    && cand.key.addr !in db.pin
  }

  function AddressesOf(evicted: seq<Candidate>): set<Address> {
    set i | 0 <= i < |evicted| :: evicted[i].key.addr
  }

  /** What the pending batch of a run keeps: exactly the evicted chunks are gone, and each is accounted for. */
  ghost predicate Evicting(db: Indexes, r: Collected, cands: seq<Candidate>, dirty: set<Address>, target: nat) {
    && Partition(r.batch)
    && |r.batch.gc| == |db.gc| - |r.evicted|
    && OnlyAt(db, r.batch, AddressesOf(r.evicted))
    && r.batch.data == db.data - AddressesOf(r.evicted)
    && r.batch.pin == db.pin
    && (forall i :: 0 <= i < |r.evicted| ==> EvictedOk(db, cands, r.evicted[i], dirty))
    && (|r.evicted| > 0 ==> db.gcSize - |r.evicted| >= target)
  }

  /** What holds before the k-th candidate of the locked loop. */
  ghost predicate CollectInv(db: Indexes, r: Collected, cands: seq<Candidate>, k: nat, dirty: set<Address>,
                             target: nat) {
    && k <= |cands|
    && Evicting(db, r, cands, dirty, target)
    && (forall i :: k <= i < |cands| ==> SameAt(db, r.batch, cands[i].key.addr))
  }

  lemma EvictKeepsPartition(c: Config, db: Indexes, batch: Indexes, cand: Candidate)
    requires Partition(batch) && Pending(db, batch, cand.key.addr) && cand.key in db.gc
    ensures Partition(Evict(c, batch, cand))
    ensures OnlyAt(batch, Evict(c, batch, cand), {cand.key.addr})
  {
    EvictOk(c, db, batch, cand);
    forall x | x != cand.key.addr ensures SameAt(batch, Evict(c, batch, cand), x) && AddrOk(Evict(c, batch, cand), x) {
      EvictElsewhere(c, batch, cand, x);
      SameAtOk(batch, Evict(c, batch, cand), x);
    }
  }

  lemma EvictKeepsScope(db: Indexes, batch: Indexes, after: Indexes, evicted: seq<Candidate>, cand: Candidate)
    requires OnlyAt(db, batch, AddressesOf(evicted)) && batch.data == db.data - AddressesOf(evicted)
    requires OnlyAt(batch, after, {cand.key.addr}) && after.data == batch.data - {cand.key.addr}
    ensures OnlyAt(db, after, AddressesOf(evicted + [cand]))
    ensures after.data == db.data - AddressesOf(evicted + [cand])
  {
    OnlyAtTrans(db, batch, after, AddressesOf(evicted), {cand.key.addr});
    AddressesOfAppend(evicted, cand);
  }

  lemma AddressesOfAppend(evicted: seq<Candidate>, cand: Candidate)
    ensures AddressesOf(evicted + [cand]) == AddressesOf(evicted) + {cand.key.addr}
  {
    var all := evicted + [cand];
    forall x ensures x in AddressesOf(all) <==> x in AddressesOf(evicted) + {cand.key.addr} {
      if x in AddressesOf(evicted) {
        var i :| 0 <= i < |evicted| && evicted[i].key.addr == x;
        assert all[i].key.addr == x;
      }
      assert all[|evicted|].key.addr == cand.key.addr;
    }
  }

  lemma EvictKeepsRest(c: Config, db: Indexes, batch: Indexes, cands: seq<Candidate>, k: nat)
    requires k < |cands| && forall i, j :: 0 <= i < j < |cands| ==> cands[i].key.addr != cands[j].key.addr
    requires forall i :: k <= i < |cands| ==> SameAt(db, batch, cands[i].key.addr)
    ensures forall i :: k + 1 <= i < |cands| ==> SameAt(db, Evict(c, batch, cands[k]), cands[i].key.addr)
  {
    forall i | k + 1 <= i < |cands| ensures SameAt(db, Evict(c, batch, cands[k]), cands[i].key.addr) {
      EvictElsewhere(c, batch, cands[k], cands[i].key.addr);
      SameAtTrans(db, batch, Evict(c, batch, cands[k]), cands[i].key.addr);
    }
  }

  lemma EvictData(c: Config, batch: Indexes, cand: Candidate)
    ensures Evict(c, batch, cand).data == batch.data - {cand.key.addr}
    ensures Evict(c, batch, cand).pin == batch.pin
  {
  }

  function Evicted(c: Config, r: Collected, cand: Candidate): Collected {
    r.(batch := Evict(c, r.batch, cand), evicted := r.evicted + [cand])
  }

  lemma NoUnderflow(db: Indexes, r: Collected, cands: seq<Candidate>, dirty: set<Address>, target: nat)
    requires Evicting(db, r, cands, dirty, target)
    ensures |r.evicted| <= db.gcSize && Sub64(db.gcSize, |r.evicted|) == db.gcSize - |r.evicted|
  {
  }

  /** The candidate is past the dirty check, the target check and the lookup of its chunk. */
  lemma EvictKeeps(c: Config, db: Indexes, r: Collected, cands: seq<Candidate>, k: nat, dirty: set<Address>,
                   target: nat)
    requires Partition(db) && CandidatesOk(db, cands, dirty) && CollectInv(db, r, cands, k, dirty, target)
    requires k < |cands| && cands[k].key.addr !in dirty && cands[k].key.addr in db.data
    requires Sub64(db.gcSize, |r.evicted|) > target
    ensures CollectInv(db, Evicted(c, r, cands[k]), cands, k + 1, dirty, target)
  {
    NoUnderflow(db, r, cands, dirty, target);
    assert CandidateOk(db, cands[k], dirty);
    assert AddrOk(db, cands[k].key.addr);
    EvictOk(c, db, r.batch, cands[k]);
    EvictKeepsPartition(c, db, r.batch, cands[k]);
    EvictKeepsRest(c, db, r.batch, cands, k);
    EvictData(c, r.batch, cands[k]);
    EvictKeepsScope(db, r.batch, Evict(c, r.batch, cands[k]), r.evicted, cands[k]);
  }

  lemma {:induction false} CollectKeeps(c: Config, db: Indexes, r: Collected, cands: seq<Candidate>, k: nat,
                                        dirty: set<Address>, target: nat)
    requires Partition(db) && CandidatesOk(db, cands, dirty) && CollectInv(db, r, cands, k, dirty, target)
    ensures
      var e := CollectFrom(c, db, r, cands, k, dirty, target);
      e.failed || Evicting(db, e, cands, dirty, target)
    decreases |cands| - k
  {
    if k < |cands| {
      if cands[k].key.addr in dirty {
        CollectKeeps(c, db, r, cands, k + 1, dirty, target);
      } else if Sub64(db.gcSize, |r.evicted|) > target && cands[k].key.addr in db.data {
        EvictKeeps(c, db, r, cands, k, dirty, target);
        CollectKeeps(c, db, Evicted(c, r, cands[k]), cands, k + 1, dirty, target);
      }
    }
  }

  lemma FirstCollectInv(db: Indexes, cands: seq<Candidate>, dirty: set<Address>, target: nat)
    requires Partition(db)
    ensures CollectInv(db, Collected(db, [], false, false), cands, 0, dirty, target)
  {
    assert db.data - AddressesOf([]) == db.data;
  }

  /**
   A run that commits evicts only chunks that are still in the gc index under the key they were
   collected with, none of them pinned, put, set or read since the run began; the counter goes
   down by exactly their number, without underflow and never below the target, and every other
   chunk is left as it was. A run that fails changes nothing.
   */
  lemma CollectIsSafe(c: Config, db: Indexes, cands: seq<Candidate>, dirty: set<Address>, target: nat)
    requires Partition(db) && CandidatesOk(db, cands, dirty)
    ensures
      var r := Collect(c, db, cands, dirty, target);
      var after := AfterCollect(db, r);
      && Partition(after) && Excess(after) == Excess(db)
      && (r.failed ==> after == db)
      && (!r.failed ==>
            && after.gcSize == db.gcSize - |r.evicted|
            && (|r.evicted| > 0 ==> after.gcSize >= target)
            && after.data == db.data - AddressesOf(r.evicted) && after.pin == db.pin
            && OnlyAt(db, after, AddressesOf(r.evicted))
            && forall i :: 0 <= i < |r.evicted| ==> EvictedOk(db, cands, r.evicted[i], dirty))
  {
    FirstCollectInv(db, cands, dirty, target);
    CollectKeeps(c, db, Collected(db, [], false, false), cands, 0, dirty, target);
    var r := Collect(c, db, cands, dirty, target);
    if !r.failed {
      NoUnderflow(db, r, cands, dirty, target);
      forall x ensures AddrOk(AfterCollect(db, r), x) {
        assert AddrOk(r.batch, x);
        SizeOnly(r.batch, AfterCollect(db, r), x);
      }
      forall x | x !in AddressesOf(r.evicted) ensures SameAt(db, AfterCollect(db, r), x) {
        assert SameAt(db, r.batch, x);
      }
    }
  }

  // ----- how far a run gets -----

  /** The candidates from the k-th on that were not touched while the run gathered them. */
  function Clean(cands: seq<Candidate>, dirty: set<Address>, k: nat): seq<Candidate>
    decreases |cands| - k
  {
    if k >= |cands| then []
    else if cands[k].key.addr in dirty then Clean(cands, dirty, k + 1)
    else [cands[k]] + Clean(cands, dirty, k + 1)
  }

  function Min(a: nat, b: nat): nat { if a <= b then a else b }

  /** How many chunks a run that has evicted so many has still to evict to reach the target. */
  function Surplus(gcSize: nat, evicted: nat, target: nat): nat {
    if gcSize - evicted <= target then 0 else gcSize - evicted - target
  }

  /** The rest of a run takes the first n of the clean candidates, or fails for want of one of them. */
  predicate Takes(db: Indexes, before: seq<Candidate>, e: Collected, clean: seq<Candidate>, n: nat)
    requires n <= |clean|
  {
    && (e.failed <==> exists i :: 0 <= i < n && clean[i].key.addr !in db.data)
    && (!e.failed ==> e.evicted == before + clean[..n] && (e.done <==> n < |clean|))
  }

  lemma TakesOneMore(db: Indexes, before: seq<Candidate>, e: Collected, cand: Candidate, rest: seq<Candidate>, n: nat)
    requires n <= |rest| && cand.key.addr in db.data && Takes(db, before + [cand], e, rest, n)
    ensures Takes(db, before, e, [cand] + rest, n + 1)
  {
    var clean := [cand] + rest;
    assert clean[..n + 1] == [cand] + rest[..n];
    assert forall i :: 0 <= i < n ==> rest[i] == clean[i + 1];
    assert forall i :: 0 < i < n + 1 ==> clean[i] == rest[i - 1];
  }

  lemma {:induction false} CollectFromTakes(c: Config, db: Indexes, r: Collected, cands: seq<Candidate>,
                                            k: nat, dirty: set<Address>, target: nat)
    requires |r.evicted| <= db.gcSize && !r.failed && !r.done
    ensures
      var clean := Clean(cands, dirty, k);
      Takes(db, r.evicted, CollectFrom(c, db, r, cands, k, dirty, target),
            clean, Min(|clean|, Surplus(db.gcSize, |r.evicted|, target)))
    decreases |cands| - k
  {
    if k < |cands| {
      if cands[k].key.addr in dirty {
        CollectFromTakes(c, db, r, cands, k + 1, dirty, target);
      } else if Sub64(db.gcSize, |r.evicted|) > target {
        if cands[k].key.addr in db.data {
          var rest := Clean(cands, dirty, k + 1);
          CollectFromTakes(c, db, Evicted(c, r, cands[k]), cands, k + 1, dirty, target);
          TakesOneMore(db, r.evicted, CollectFrom(c, db, r, cands, k, dirty, target), cands[k], rest,
                       Min(|rest|, Surplus(db.gcSize, |r.evicted| + 1, target)));
        } else {
          assert Clean(cands, dirty, k)[0] == cands[k];
        }
      }
    }
  }

  /**
   A run evicts the untouched candidates in the order of the gc index until the counter has come
   down to the target, and reports done exactly when that left candidates over. It fails, and
   then drops all its work, if and only if one of those chunks has left the store meanwhile.
   */
  lemma CollectTakesOldest(c: Config, db: Indexes, cands: seq<Candidate>, dirty: set<Address>, target: nat)
    ensures
      var clean := Clean(cands, dirty, 0);
      Takes(db, [], Collect(c, db, cands, dirty, target), clean, Min(|clean|, Surplus(db.gcSize, 0, target)))
  {
    CollectFromTakes(c, db, Collected(db, [], false, false), cands, 0, dirty, target);
  }
}
