/** Over whole runs: which stamp slots garbage collection frees, and when one of them is another chunk's. */
module StoreEvictions {
  import opened StoreIndexes
  import opened StoreOps
  import opened StoreGc
  import opened StoreRuns
  import opened StoreGrowth
  import opened StoreSlots

  // ----- reads -----

  /** What get may read in a state. */
  function ReadsOf(ix: Indexes): set<Read> {
    set a | a in ix.data :: Read(a, ix.data[a].binID, ix.data[a].slot)
  }

  /** updateGC is handed what get has read in this state or in an earlier one. */
  predicate ReadsAreReal(c: Config, s: Sys, evs: seq<Event>, seen: set<Read>)
    decreases |evs|
  {
    || evs == []
    || (&& (evs[0].ReadEvent? ==> evs[0].item in seen + ReadsOf(s.ix))
        && ReadsAreReal(c, Step(c, s, evs[0]), evs[1..], seen + ReadsOf(s.ix)))
  }

  ghost predicate Seen(c: Config, ix: Indexes, seen: set<Read>) {
    forall r {:trigger r in seen} :: r in seen ==> r.binID <= Counter(ix, c.po(r.addr)) && StillTrue(ix, r)
  }

  lemma SeesMore(c: Config, ix: Indexes, seen: set<Read>)
    requires CountersOk(c, ix) && Seen(c, ix, seen)
    ensures Seen(c, ix, seen + ReadsOf(ix))
  {
  }

  /** A chunk that leaves and returns does so under a greater id, so what was read of it can never come to name another slot. */
  lemma SeenStays(c: Config, x: Indexes, y: Indexes, seen: set<Read>)
    requires Seen(c, x, seen) && Grows(c, x, y)
    ensures Seen(c, y, seen)
  {
    forall r {:trigger r in seen} | r in seen ensures r.binID <= Counter(y, c.po(r.addr)) && StillTrue(y, r) {
      assert Counter(x, c.po(r.addr)) <= Counter(y, c.po(r.addr));
    }
  }

  // ----- entries -----

  /** Whether the entry was last written by an unpinning: what an event leaves of the answer. */
  predicate BareAfter(ix: Indexes, ev: Event, k: GcKey, bare: bool) {
    if k in ix.gc && !Rewrites(ix, ev, k) then bare else Unpins(ev)
  }

  predicate Bare(c: Config, s: Sys, evs: seq<Event>, k: GcKey, bare: bool)
    decreases |evs|
  {
    if evs == [] then bare else Bare(c, Step(c, s, evs[0]), evs[1..], k, BareAfter(s.ix, evs[0], k, bare))
  }

  lemma SameEntry(c: Config, x: Indexes, y: Indexes, k: GcKey)
    requires Partition(x) && Partition(y) && CountersOk(c, x) && Grows(c, x, y) && k in x.gc && k in y.gc
    ensures k.addr in x.data && k.addr in y.data && y.data[k.addr] == x.data[k.addr]
  {
    assert AddrOk(x, k.addr) && AddrOk(y, k.addr);
  }

  lemma StepCarries(c: Config, s: Sys, ev: Event, k: GcKey, bare: bool)
    requires SysOk(s) && Admissible(s, ev) && CountersOk(c, s.ix) && (ev.ReadEvent? ==> StillTrue(s.ix, ev.item))
    requires Carries(s.ix, k, bare)
    ensures Carries(Step(c, s, ev).ix, k, BareAfter(s.ix, ev, k, bare))
  {
    var after := Step(c, s, ev).ix;
    StepWrites(c, s, ev, k);
    StepGrows(c, s, ev);
    StepOk(c, s, ev);
    if k in after.gc && k in s.ix.gc {
      SameEntry(c, s.ix, after, k);
    }
  }

  // ----- candidates -----

  /** A candidate that nobody has touched carries what its entry does. */
  predicate CandidateCarries(c: Config, ix: Indexes, cand: Candidate, dirty: set<Address>) {
    && cand.key.binID <= Counter(ix, c.po(cand.key.addr))
    && (cand.key.addr in dirty || cand.key !in ix.gc || ix.gc[cand.key] == cand.slot)
  }

  predicate CandidatesCarry(c: Config, s: Sys) {
    s.phase.Gathered? ==> forall i :: 0 <= i < |s.phase.cands| ==> CandidateCarries(c, s.ix, s.phase.cands[i], s.phase.dirty)
  }

  lemma GatheredCarry(c: Config, ix: Indexes, cands: seq<Candidate>, dirty: set<Address>)
    requires Partition(ix) && CountersOk(c, ix) && OldestFirst(ix, cands)
    ensures CandidatesCarry(c, Sys(ix, Gathered(dirty, cands)))
  {
    forall i | 0 <= i < |cands| ensures CandidateCarries(c, ix, cands[i], dirty) {
      assert AddrOk(ix, cands[i].key.addr);
    }
  }

  lemma CandidateStays(c: Config, x: Indexes, y: Indexes, ev: Event, cand: Candidate, dirty: set<Address>, later: set<Address>)
    requires CandidateCarries(c, x, cand, dirty) && CandidateOk(x, cand, dirty) && dirty <= later
    requires Grows(c, x, y) && Partition(y) && Written(x, y, ev, cand.key)
    requires ev.ReadEvent? ==> ev.item.addr in later
    ensures CandidateCarries(c, y, cand, later)
  {
    assert Counter(x, c.po(cand.key.addr)) <= Counter(y, c.po(cand.key.addr));
    assert AddrOk(y, cand.key.addr);
  }

  lemma StepCandidates(c: Config, s: Sys, ev: Event)
    requires SysOk(s) && Admissible(s, ev) && CountersOk(c, s.ix) && (ev.ReadEvent? ==> StillTrue(s.ix, ev.item))
    requires CandidatesCarry(c, s)
    ensures CandidatesCarry(c, Step(c, s, ev))
  {
    var t := Step(c, s, ev);
    if ev.GatherEvent? {
      GatheredCarry(c, s.ix, ev.cands, s.phase.dirty);
    } else if t.phase.Gathered? {
      StepGrows(c, s, ev);
      StepOk(c, s, ev);
      forall i | 0 <= i < |t.phase.cands| ensures CandidateCarries(c, t.ix, t.phase.cands[i], t.phase.dirty) {
        StepWrites(c, s, ev, t.phase.cands[i].key);
        CandidateStays(c, s.ix, t.ix, ev, t.phase.cands[i], s.phase.dirty, t.phase.dirty);
      }
    }
  }

  // ----- runs -----

  ghost predicate Tracked(c: Config, s: Sys, seen: set<Read>) {
    SysOk(s) && CountersOk(c, s.ix) && Seen(c, s.ix, seen) && CandidatesCarry(c, s)
  }

  lemma StepTracks(c: Config, s: Sys, ev: Event, seen: set<Read>)
    requires Tracked(c, s, seen) && Admissible(s, ev) && (ev.ReadEvent? ==> ev.item in seen + ReadsOf(s.ix))
    ensures Tracked(c, Step(c, s, ev), seen + ReadsOf(s.ix))
    ensures ev.ReadEvent? ==> StillTrue(s.ix, ev.item)
  {
    SeesMore(c, s.ix, seen);
    StepOk(c, s, ev);
    StepGrows(c, s, ev);
    CountersKept(c, s.ix, Step(c, s, ev).ix);
    SeenStays(c, s.ix, Step(c, s, ev).ix, seen + ReadsOf(s.ix));
    StepCandidates(c, s, ev);
  }

  lemma {:induction false} RunCarries(c: Config, s: Sys, evs: seq<Event>, seen: set<Read>, k: GcKey, bare: bool)
    requires Tracked(c, s, seen) && AdmissibleRun(c, s, evs) && ReadsAreReal(c, s, evs, seen) && Carries(s.ix, k, bare)
    ensures SysOk(Run(c, s, evs)) && CandidatesCarry(c, Run(c, s, evs))
    ensures Carries(Run(c, s, evs).ix, k, Bare(c, s, evs, k, bare))
    decreases |evs|
  {
    if evs != [] {
      StepTracks(c, s, evs[0], seen);
      StepCarries(c, s, evs[0], k, bare);
      RunCarries(c, Step(c, s, evs[0]), evs[1..], seen + ReadsOf(s.ix), k, BareAfter(s.ix, evs[0], k, bare));
    }
  }

  /**
   In every store that started empty, an entry of the gc index carries the slot of its chunk if a
   put has made it or a read has moved it last, and the slot without its stamp index if the chunk
   has come there by losing its pin.
   */
  lemma EntriesCarry(c: Config, evs: seq<Event>, k: GcKey)
    requires AdmissibleRun(c, START, evs) && ReadsAreReal(c, START, evs, {})
    ensures SysOk(Run(c, START, evs)) && CandidatesCarry(c, Run(c, START, evs))
    ensures
      var ix := Run(c, START, evs).ix;
      k in ix.gc ==> k.addr in ix.data && ix.gc[k] == Carried(ix.data[k.addr].slot, Bare(c, START, evs, k, false))
  {
    StartOk();
    RunCarries(c, START, evs, {}, k, false);
    assert AddrOk(Run(c, START, evs).ix, k.addr);
  }

  /**
   Evicting a chunk frees its own stamp slot if and only if its entry was not last written by an
   unpinning, or its stamp index is zero. Otherwise its slot stays taken, and the entry of index
   zero of its batch is deleted, whatever chunk that one belongs to.
   */
  lemma EvictionFreesSlotIff(c: Config, evs: seq<Event>, k: GcKey)
    requires AdmissibleRun(c, START, evs) && ReadsAreReal(c, START, evs, {}) && k in Run(c, START, evs).ix.gc
    ensures
      var ix := Run(c, START, evs).ix;
      var after := Evict(c, ix, Candidate(k, ix.gc[k]));
      && k.addr in ix.data && k.addr !in after.data
      && var own, bare := ix.data[k.addr].slot, Bare(c, START, evs, k, false);
      && (own !in after.side.slots <==> own !in ix.side.slots || !bare || own.index == 0)
      && (bare && own.index != 0 ==>
            && Slot(own.batch, 0) !in after.side.slots
            && forall slot :: slot in ix.side.slots && slot != Slot(own.batch, 0) ==>
                 slot in after.side.slots && after.side.slots[slot] == ix.side.slots[slot])
  {
    EntriesCarry(c, evs, k);
  }

  // ----- whole collections -----

  function SlotsOf(evicted: seq<Candidate>): set<Slot> {
    set i | 0 <= i < |evicted| :: evicted[i].slot
  }

  function PullsOf(c: Config, evicted: seq<Candidate>): set<PullKey> {
    set i | 0 <= i < |evicted| :: PullKey(c.po(evicted[i].key.addr), evicted[i].key.binID)
  }

  function ListingsOf(c: Config, evicted: seq<Candidate>): set<ChunkKey> {
    set i | 0 <= i < |evicted| :: ChunkKey(evicted[i].slot.batch, c.po(evicted[i].key.addr), evicted[i].key.addr)
  }

  /** Exactly the side entries the evicted candidates carry are gone. */
  predicate SideWithout(c: Config, x: Side, y: Side, evicted: seq<Candidate>) {
    y == Side(x.pull - PullsOf(c, evicted), x.chunks - ListingsOf(c, evicted), x.slots - SlotsOf(evicted), x.radius, x.binIDs)
  }

  lemma SlotsOfAppend(evicted: seq<Candidate>, cand: Candidate)
    ensures SlotsOf(evicted + [cand]) == SlotsOf(evicted) + {cand.slot}
  {
    var all := evicted + [cand];
    forall x ensures x in SlotsOf(all) <==> x in SlotsOf(evicted) + {cand.slot} {
      if x in SlotsOf(evicted) {
        var i :| 0 <= i < |evicted| && evicted[i].slot == x;
        assert all[i].slot == x;
      }
      assert all[|evicted|].slot == cand.slot;
    }
  }

  lemma PullsOfAppend(c: Config, evicted: seq<Candidate>, cand: Candidate)
    ensures PullsOf(c, evicted + [cand]) == PullsOf(c, evicted) + {PullKey(c.po(cand.key.addr), cand.key.binID)}
  {
    var all := evicted + [cand];
    forall x ensures x in PullsOf(c, all) <==> x in PullsOf(c, evicted) + {PullKey(c.po(cand.key.addr), cand.key.binID)} {
      if x in PullsOf(c, evicted) {
        var i :| 0 <= i < |evicted| && PullKey(c.po(evicted[i].key.addr), evicted[i].key.binID) == x;
        assert all[i] == evicted[i];
      }
      assert all[|evicted|] == cand;
    }
  }

  lemma ListingsOfAppend(c: Config, evicted: seq<Candidate>, cand: Candidate)
    ensures ListingsOf(c, evicted + [cand]) ==
      ListingsOf(c, evicted) + {ChunkKey(cand.slot.batch, c.po(cand.key.addr), cand.key.addr)}
  {
    var all := evicted + [cand];
    var one := ChunkKey(cand.slot.batch, c.po(cand.key.addr), cand.key.addr);
    forall x ensures x in ListingsOf(c, all) <==> x in ListingsOf(c, evicted) + {one} {
      if x in ListingsOf(c, evicted) {
        var i :| 0 <= i < |evicted| && ChunkKey(evicted[i].slot.batch, c.po(evicted[i].key.addr), evicted[i].key.addr) == x;
        assert all[i] == evicted[i];
      }
      assert all[|evicted|] == cand;
    }
  }

  lemma {:induction false} CollectSides(c: Config, db: Indexes, r: Collected, cands: seq<Candidate>, k: nat,
                                        dirty: set<Address>, target: nat)
    requires SideWithout(c, db.side, r.batch.side, r.evicted)
    ensures
      var e := CollectFrom(c, db, r, cands, k, dirty, target);
      SideWithout(c, db.side, e.batch.side, e.evicted)
    decreases |cands| - k
  {
    if k < |cands| {
      if cands[k].key.addr in dirty {
        CollectSides(c, db, r, cands, k + 1, dirty, target);
      } else if Sub64(db.gcSize, |r.evicted|) > target && cands[k].key.addr in db.data {
        EvictSide(c, db, r, cands[k]);
        CollectSides(c, db, Evicted(c, r, cands[k]), cands, k + 1, dirty, target);
      }
    }
  }

  lemma EvictSide(c: Config, db: Indexes, r: Collected, cand: Candidate)
    requires SideWithout(c, db.side, r.batch.side, r.evicted)
    ensures SideWithout(c, db.side, Evicted(c, r, cand).batch.side, Evicted(c, r, cand).evicted)
  {
    SlotsOfAppend(r.evicted, cand);
    PullsOfAppend(c, r.evicted, cand);
    ListingsOfAppend(c, r.evicted, cand);
    var after, x := Evicted(c, r, cand).batch.side, db.side;
    assert after.slots == x.slots - SlotsOf(r.evicted + [cand]);
    assert after.pull == x.pull - PullsOf(c, r.evicted + [cand]);
    assert after.chunks == x.chunks - ListingsOf(c, r.evicted + [cand]);
  }

  /**
   A collection in a store that started empty deletes exactly the pull entries of its evicted
   candidates, their listings with their batch, and the slot entries they carry: the own slot of
   each, or index zero of its batch if it was last written by an unpinning.
   */
  lemma CollectionFreesSlots(c: Config, evs: seq<Event>, target: nat, i: nat)
    requires AdmissibleRun(c, START, evs) && ReadsAreReal(c, START, evs, {}) && Run(c, START, evs).phase.Gathered?
    ensures
      var mid := Run(c, START, evs);
      var r := Collect(c, mid.ix, mid.phase.cands, mid.phase.dirty, target);
      !r.failed ==>
        && SideWithout(c, mid.ix.side, Step(c, mid, CollectEvent(target)).ix.side, r.evicted)
        && (i < |r.evicted| ==>
              && r.evicted[i].key.addr in mid.ix.data
              && r.evicted[i].key.binID == mid.ix.data[r.evicted[i].key.addr].binID
              && r.evicted[i].slot ==
                 Carried(mid.ix.data[r.evicted[i].key.addr].slot, Bare(c, START, evs, r.evicted[i].key, false)))
  {
    var mid := Run(c, START, evs);
    var r := Collect(c, mid.ix, mid.phase.cands, mid.phase.dirty, target);
    StartOk();
    EveryRunKeeps(c, START, evs);
    CollectionSide(c, mid, target);
    if !r.failed && i < |r.evicted| {
      EvictedIsOk(c, mid, target, i);
      EvictedCarries(c, evs, mid, r, i);
    }
  }

  lemma CollectionSide(c: Config, mid: Sys, target: nat)
    requires mid.phase.Gathered?
    ensures
      var r := Collect(c, mid.ix, mid.phase.cands, mid.phase.dirty, target);
      !r.failed ==> SideWithout(c, mid.ix.side, Step(c, mid, CollectEvent(target)).ix.side, r.evicted)
  {
    NothingEvicted(c, mid.ix.side);
    CollectSides(c, mid.ix, Collected(mid.ix, [], false, false), mid.phase.cands, 0, mid.phase.dirty, target);
  }

  lemma EvictedIsOk(c: Config, mid: Sys, target: nat, i: nat)
    requires SysOk(mid) && mid.phase.Gathered?
    ensures
      var r := Collect(c, mid.ix, mid.phase.cands, mid.phase.dirty, target);
      !r.failed && i < |r.evicted| ==> EvictedOk(mid.ix, mid.phase.cands, r.evicted[i], mid.phase.dirty)
  {
    CollectIsSafe(c, mid.ix, mid.phase.cands, mid.phase.dirty, target);
  }

  lemma NothingEvicted(c: Config, x: Side)
    ensures SideWithout(c, x, x, [])
  {
    assert x.pull - PullsOf(c, []) == x.pull && x.chunks - ListingsOf(c, []) == x.chunks && x.slots - SlotsOf([]) == x.slots;
  }

  lemma EvictedCarries(c: Config, evs: seq<Event>, mid: Sys, r: Collected, i: nat)
    requires AdmissibleRun(c, START, evs) && ReadsAreReal(c, START, evs, {}) && mid == Run(c, START, evs)
    requires mid.phase.Gathered? && i < |r.evicted| && EvictedOk(mid.ix, mid.phase.cands, r.evicted[i], mid.phase.dirty)
    ensures r.evicted[i].key.addr in mid.ix.data
    ensures r.evicted[i].key.binID == mid.ix.data[r.evicted[i].key.addr].binID
    ensures r.evicted[i].slot ==
      Carried(mid.ix.data[r.evicted[i].key.addr].slot, Bare(c, START, evs, r.evicted[i].key, false))
  {
    EntriesCarry(c, evs, r.evicted[i].key);
    assert AddrOk(mid.ix, r.evicted[i].key.addr);
    var j :| 0 <= j < |mid.phase.cands| && mid.phase.cands[j] == r.evicted[i];
    assert CandidateCarries(c, mid.ix, mid.phase.cands[j], mid.phase.dirty);
  }
}
