/** Whole runs: every interleaving of put, set, get, unreserve and garbage collection. */
module StoreRuns {
  import opened StoreIndexes
  import opened StoreOps
  import opened StoreCalls
  import opened StorePuts
  import opened StoreReserve
  import opened StoreStatus
  import opened StoreGc

  // ----- UnreserveBatch -----

  const MAX_PO: nat := 31

  function SetRadius(ix: Indexes, id: BatchID, radius: nat): Indexes {
    ix.(side := ix.side.(radius := ix.side.radius[id := radius]))
  }

  function DropRadius(ix: Indexes, id: BatchID): Indexes {
    ix.(side := ix.side.(radius := ix.side.radius - {id}))
  }

  function OldRadius(ix: Indexes, id: BatchID): nat {
    if id in ix.side.radius then ix.side.radius[id] else 0
  }

  /** One bin unpinned and noted, in a commit of its own. */
  function UnreserveBin(db: Indexes, id: BatchID, bin: nat, addrs: seq<Address>, now: nat -> int): Indexes {
    var unpinned := UnpinAll(db, addrs, now);
    if bin == MAX_PO then DropRadius(unpinned, id) else SetRadius(unpinned, id, bin)
  }

  /** The bins from `bin` up to the new radius. */
  function UnreserveFrom(db: Indexes, id: BatchID, bin: nat, radius: nat, order: nat -> seq<Address>,
                         now: nat -> nat -> int): Indexes
    decreases radius - bin
  {
    if bin >= radius then
      if radius != MAX_PO + 1 then SetRadius(db, id, radius) else db
    else
      UnreserveFrom(UnreserveBin(db, id, bin, order(bin), now(bin)), id, bin + 1, radius, order, now)
  }

  function UnreserveBatch(db: Indexes, id: BatchID, radius: nat, order: nat -> seq<Address>,
                          now: nat -> nat -> int): Indexes {
    UnreserveFrom(db, id, OldRadius(db, id), radius, order, now)
  }

  /** postageChunksIndex iterated under the prefix (batch, bin): its addresses in ascending order. */
  ghost predicate BinOrder(ix: Indexes, id: BatchID, bin: nat, addrs: seq<Address>) {
    && (forall i, j :: 0 <= i < j < |addrs| ==> addrs[i] < addrs[j])
    && (forall a :: a in addrs <==> ChunkKey(id, bin, a) in ix.side.chunks)
  }

  lemma SideOnly(x: Indexes, y: Indexes)
    requires Good(x) && y == x.(side := y.side)
    ensures OnlyUnreserved(x, y)
  {
    forall a ensures AddrOk(y, a) && ChunkOk(y, a) && SameAt(x, y, a) {
      assert AddrOk(x, a) && ChunkOk(x, a);
    }
  }

  lemma UnreserveBinKeeps(c: Config, db: Indexes, id: BatchID, bin: nat, addrs: seq<Address>, now: nat -> int)
    requires Good(db) && Distinct(addrs)
    ensures OnlyUnreserved(db, UnreserveBin(db, id, bin, addrs, now))
  {
    var unpinned := UnpinAll(db, addrs, now);
    UnpinAllKeeps(c, db, addrs, now);
    SideOnly(unpinned, UnreserveBin(db, id, bin, addrs, now));
    OnlyUnreservedTrans(db, unpinned, UnreserveBin(db, id, bin, addrs, now));
  }

  lemma {:induction false} UnreserveKeeps(c: Config, db: Indexes, id: BatchID, bin: nat, radius: nat,
                                          order: nat -> seq<Address>, now: nat -> nat -> int)
    requires Good(db)
    requires forall b: nat :: bin <= b < radius ==> Distinct(order(b))
    ensures OnlyUnreserved(db, UnreserveFrom(db, id, bin, radius, order, now))
    decreases radius - bin
  {
    if bin >= radius {
      SideOnly(db, UnreserveFrom(db, id, bin, radius, order, now));
    } else {
      var noted := UnreserveBin(db, id, bin, order(bin), now(bin));
      UnreserveBinKeeps(c, db, id, bin, order(bin), now(bin));
      UnreserveKeeps(c, noted, id, bin + 1, radius, order, now);
      OnlyUnreservedTrans(db, noted, UnreserveFrom(noted, id, bin + 1, radius, order, now));
    }
  }

  // ----- the system -----

  /** Where the garbage collection worker is; dirty holds the addresses marked since it raised gcRunning. */
  datatype Phase =
    | Idle
    | Raised(dirty: set<Address>)
    | Gathered(dirty: set<Address>, cands: seq<Candidate>)
    | Finished(dirty: set<Address>)

  datatype Sys = Sys(ix: Indexes, phase: Phase)

  datatype Event =
    | SetEvent(mode: SetMode, addrs: seq<Address>, setNow: nat -> int)
    | PutEvent(kind: PutKind, chs: seq<Chunk>, putNow: nat -> Times)
    | ReadEvent(item: Read, readNow: int)
    | UnreserveEvent(id: BatchID, radius: nat, order: nat -> seq<Address>, binNow: nat -> nat -> int)
    | RaiseEvent
    | GatherEvent(cands: seq<Candidate>)
    | CollectEvent(target: nat)
    | LowerEvent

  function Mark(phase: Phase, addrs: set<Address>): Phase {
    if phase.Idle? then phase else phase.(dirty := phase.dirty + addrs)
  }

  function ToSet(addrs: seq<Address>): set<Address> {
    set a | a in addrs
  }

  /** The put that returns before it takes the lock, because its only chunk is there already. */
  predicate Skips(ix: Indexes, kind: PutKind, chs: seq<Chunk>) {
    |chs| == 1 && !Pins(kind) && chs[0].addr in ix.data
  }

  function Step(c: Config, s: Sys, ev: Event): Sys {
    match ev
    case SetEvent(mode, addrs, now) => Sys(SetCall(c, mode, s.ix, addrs, now), Mark(s.phase, ToSet(addrs)))
    case PutEvent(kind, chs, now) =>
      if Skips(s.ix, kind, chs) then s
      else Sys(PutCall(c, kind, s.ix, chs, now), Mark(s.phase, ToSet(Addresses(chs))))
    case ReadEvent(item, now) => Sys(UpdateGC(s.ix, item, now), Mark(s.phase, {item.addr}))
    case UnreserveEvent(id, radius, order, now) => s.(ix := UnreserveBatch(s.ix, id, radius, order, now))
    case RaiseEvent => s.(phase := Raised({}))
    case GatherEvent(cands) => if s.phase.Raised? then s.(phase := Gathered(s.phase.dirty, cands)) else s
    case CollectEvent(target) =>
      if s.phase.Gathered? then
        Sys(AfterCollect(s.ix, Collect(c, s.ix, s.phase.cands, s.phase.dirty, target)), Finished(s.phase.dirty))
      else s
    case LowerEvent => s.(phase := Idle)
  }

  /** The byte order of gc keys. */
  predicate Before(x: GcKey, y: GcKey) {
    || x.accessTs < y.accessTs
    || (x.accessTs == y.accessTs && x.binID < y.binID)
    || (x.accessTs == y.accessTs && x.binID == y.binID && x.addr < y.addr)
  }

  const GC_BATCH_SIZE: nat := 10000

  /** What iterating the gc index yields: its first entries in order, all of them or gcBatchSize many. */
  ghost predicate OldestFirst(ix: Indexes, cands: seq<Candidate>) {
    && |cands| <= GC_BATCH_SIZE
    && (forall i, j :: 0 <= i < j < |cands| ==> Before(cands[i].key, cands[j].key))
    && (forall i :: 0 <= i < |cands| ==> cands[i].key in ix.gc && ix.gc[cands[i].key] == cands[i].slot)
    && (forall k :: k in ix.gc ==>
          || (exists i :: 0 <= i < |cands| && cands[i].key == k)
          || (|cands| == GC_BATCH_SIZE && forall i :: 0 <= i < |cands| ==> Before(cands[i].key, k)))
  }

  /**
   What the theorems ask of an event. An updateGC on an item that no longer matches breaks the
   partition, and nothing else does (UpdateGCKeepsIff); the other conditions say when the worker
   takes its steps and what iterating an index yields.
   */
  ghost predicate Admissible(s: Sys, ev: Event) {
    match ev
    case SetEvent(_, _, _) => true
    case PutEvent(_, _, _) => true
    case ReadEvent(item, now) => MovesItsEntry(s.ix, item, now)
    case UnreserveEvent(id, radius, order, _) =>
      forall bin: nat :: OldRadius(s.ix, id) <= bin < radius ==> BinOrder(s.ix, id, bin, order(bin))
    case RaiseEvent => s.phase.Idle?
    case GatherEvent(cands) => s.phase.Raised? && OldestFirst(s.ix, cands)
    case CollectEvent(_) => s.phase.Gathered?
    case LowerEvent => s.phase.Finished? || s.phase.Raised?
  }

  /** How far an event moves the counter against the entries it counts. */
  function Drift(c: Config, s: Sys, ev: Event): int {
    match ev
    case SetEvent(mode, addrs, now) => SetDrift(c, mode, s.ix, addrs, now)
    case PutEvent(kind, chs, now) => PutDrift(c, kind, s.ix, chs, now)
    case _ => 0
  }

  ghost predicate SysOk(s: Sys) {
    && Good(s.ix)
    && (s.phase.Gathered? ==> CandidatesOk(s.ix, s.phase.cands, s.phase.dirty))
  }

  // ----- candidates survive every event -----

  /** No address outside `marked` loses its gc entry and keeps its data. */
  ghost predicate Respects(x: Indexes, y: Indexes, marked: set<Address>) {
    forall k: GcKey {:trigger k in y.gc} :: k.addr !in marked && (k in x.gc || k.addr !in x.data) ==> k in y.gc || k.addr !in y.data
  }

  lemma CandidatesStay(x: Indexes, y: Indexes, cands: seq<Candidate>, dirty: set<Address>, marked: set<Address>)
    requires CandidatesOk(x, cands, dirty) && Respects(x, y, marked)
    ensures CandidatesOk(y, cands, dirty + marked)
  {
    forall i | 0 <= i < |cands| ensures CandidateOk(y, cands[i], dirty + marked) {
      assert CandidateOk(x, cands[i], dirty);
      assert cands[i].key in y.gc || cands[i].key !in y.gc;
    }
  }

  lemma KeptRespects(x: Indexes, y: Indexes, marked: set<Address>)
    requires forall a :: a !in marked ==> KeptOrGone(x, y, a)
    ensures Respects(x, y, marked)
  {
    forall k: GcKey {:trigger k in y.gc} | k.addr !in marked && (k in x.gc || k.addr !in x.data)
      ensures k in y.gc || k.addr !in y.data
    {
      assert KeptOrGone(x, y, k.addr);
    }
  }

  /** A chunk in the gc index has no pin, so unpinning others leaves it alone. */
  lemma OnlyPinnedRespects(x: Indexes, y: Indexes)
    requires Partition(x) && OnlyPinned(x, y)
    ensures Respects(x, y, {})
  {
    forall k: GcKey {:trigger k in y.gc} | k in x.gc || k.addr !in x.data ensures k in y.gc || k.addr !in y.data {
      assert AddrOk(x, k.addr);
      if k in x.gc {
        assert SameAt(x, y, k.addr);
      }
    }
  }

  lemma MarkKeeps(x: Indexes, y: Indexes, phase: Phase, marked: set<Address>)
    requires phase.Gathered? ==> CandidatesOk(x, phase.cands, phase.dirty)
    requires Respects(x, y, marked) && Good(y)
    ensures SysOk(Sys(y, Mark(phase, marked)))
  {
    if phase.Gathered? {
      CandidatesStay(x, y, phase.cands, phase.dirty, marked);
    }
  }

  lemma MarkNothing(phase: Phase)
    ensures Mark(phase, {}) == phase
  {
    if !phase.Idle? {
      assert phase.dirty + {} == phase.dirty;
    }
  }

  lemma GatherKeeps(ix: Indexes, cands: seq<Candidate>, dirty: set<Address>)
    requires Partition(ix) && OldestFirst(ix, cands)
    ensures CandidatesOk(ix, cands, dirty)
  {
    forall i, j | 0 <= i < j < |cands| ensures cands[i].key.addr != cands[j].key.addr {
      assert AddrOk(ix, cands[i].key.addr);
      assert Before(cands[i].key, cands[j].key);
    }
  }

  // ----- every event keeps the system invariant -----

  lemma SetStepOk(c: Config, s: Sys, mode: SetMode, addrs: seq<Address>, now: nat -> int)
    requires SysOk(s)
    ensures
      var t := Sys(SetCall(c, mode, s.ix, addrs, now), Mark(s.phase, ToSet(addrs)));
      SysOk(t) && Excess(t.ix) == Excess(s.ix) + SetDrift(c, mode, s.ix, addrs, now)
  {
    var after := SetCall(c, mode, s.ix, addrs, now);
    SetCallKeeps(c, mode, s.ix, addrs, now);
    KeptRespects(s.ix, after, ToSet(addrs));
    MarkKeeps(s.ix, after, s.phase, ToSet(addrs));
  }

  lemma PutChunksOk(c: Config, kind: PutKind, db: Indexes, chs: seq<Chunk>, now: nat -> Times)
    requires Good(db)
    ensures ChunksOk(PutCall(c, kind, db, chs, now))
  {
    if Commits(c, kind, db, chs, now) {
      PutCallRefines(c, kind, db, chs, now);
    }
  }

  lemma PutStepOk(c: Config, s: Sys, kind: PutKind, chs: seq<Chunk>, now: nat -> Times)
    requires SysOk(s)
    ensures
      var t := Sys(PutCall(c, kind, s.ix, chs, now), Mark(s.phase, ToSet(Addresses(chs))));
      SysOk(t) && Excess(t.ix) == Excess(s.ix) + PutDrift(c, kind, s.ix, chs, now)
  {
    var after := PutCall(c, kind, s.ix, chs, now);
    PutCallKeeps(c, kind, s.ix, chs, now);
    PutChunksOk(c, kind, s.ix, chs, now);
    KeptRespects(s.ix, after, ToSet(Addresses(chs)));
    MarkKeeps(s.ix, after, s.phase, ToSet(Addresses(chs)));
  }

  lemma ReadStepOk(s: Sys, item: Read, now: int)
    requires SysOk(s) && MovesItsEntry(s.ix, item, now)
    ensures
      var t := Sys(UpdateGC(s.ix, item, now), Mark(s.phase, {item.addr}));
      SysOk(t) && Excess(t.ix) == Excess(s.ix)
  {
    var after := UpdateGC(s.ix, item, now);
    UpdateGCKeepsIff(s.ix, item, now);
    forall x ensures ChunkOk(after, x) {
      assert ChunkOk(s.ix, x);
    }
    forall a | a !in {item.addr} ensures KeptOrGone(s.ix, after, a) {
      assert SameAt(s.ix, after, a);
    }
    KeptRespects(s.ix, after, {item.addr});
    MarkKeeps(s.ix, after, s.phase, {item.addr});
  }

  lemma UnreserveStepOk(c: Config, s: Sys, id: BatchID, radius: nat, order: nat -> seq<Address>, now: nat -> nat -> int)
    requires SysOk(s)
    requires forall bin: nat :: OldRadius(s.ix, id) <= bin < radius ==> BinOrder(s.ix, id, bin, order(bin))
    ensures
      var t := s.(ix := UnreserveBatch(s.ix, id, radius, order, now));
      SysOk(t) && Excess(t.ix) == Excess(s.ix)
  {
    forall b: nat | OldRadius(s.ix, id) <= b < radius ensures Distinct(order(b)) {
      assert BinOrder(s.ix, id, b, order(b));
    }
    UnreserveKeeps(c, s.ix, id, OldRadius(s.ix, id), radius, order, now);
    var after := UnreserveBatch(s.ix, id, radius, order, now);
    OnlyPinnedRespects(s.ix, after);
    MarkNothing(s.phase);
    MarkKeeps(s.ix, after, s.phase, {});
  }

  lemma CollectStepOk(c: Config, s: Sys, target: nat)
    requires SysOk(s) && s.phase.Gathered?
    ensures
      var t := Step(c, s, CollectEvent(target));
      SysOk(t) && Excess(t.ix) == Excess(s.ix)
  {
    CollectIsSafe(c, s.ix, s.phase.cands, s.phase.dirty, target);
    var r := Collect(c, s.ix, s.phase.cands, s.phase.dirty, target);
    var after := AfterCollect(s.ix, r);
    forall x ensures ChunkOk(after, x) {
      assert ChunkOk(s.ix, x);
      if !r.failed && x !in AddressesOf(r.evicted) {
        assert SameAt(s.ix, after, x);
      }
    }
  }

  lemma StepOk(c: Config, s: Sys, ev: Event)
    requires SysOk(s) && Admissible(s, ev)
    ensures SysOk(Step(c, s, ev))
    ensures Excess(Step(c, s, ev).ix) == Excess(s.ix) + Drift(c, s, ev)
  {
    match ev {
      case SetEvent(mode, addrs, now) => SetStepOk(c, s, mode, addrs, now);
      case PutEvent(kind, chs, now) => PutStepOk(c, s, kind, chs, now);
      case ReadEvent(item, now) => ReadStepOk(s, item, now);
      case UnreserveEvent(id, radius, order, now) => UnreserveStepOk(c, s, id, radius, order, now);
      case RaiseEvent =>
      case GatherEvent(cands) => GatherKeeps(s.ix, cands, s.phase.dirty);
      case CollectEvent(target) => CollectStepOk(c, s, target);
      case LowerEvent =>
    }
  }

  // ----- runs -----

  function Run(c: Config, s: Sys, evs: seq<Event>): Sys
    decreases |evs|
  {
    if evs == [] then s else Run(c, Step(c, s, evs[0]), evs[1..])
  }

  ghost predicate AdmissibleRun(c: Config, s: Sys, evs: seq<Event>)
    decreases |evs|
  {
    evs == [] || (Admissible(s, evs[0]) && AdmissibleRun(c, Step(c, s, evs[0]), evs[1..]))
  }

  function DriftOver(c: Config, s: Sys, evs: seq<Event>): int
    decreases |evs|
  {
    if evs == [] then 0 else Drift(c, s, evs[0]) + DriftOver(c, Step(c, s, evs[0]), evs[1..])
  }

  /**
   Every interleaving keeps the partition, and gcSize moves against the gc index by exactly what
   the single calls of it contribute.
   */
  lemma {:induction false} EveryRunKeeps(c: Config, s: Sys, evs: seq<Event>)
    requires SysOk(s) && AdmissibleRun(c, s, evs)
    ensures SysOk(Run(c, s, evs))
    ensures Excess(Run(c, s, evs).ix) == Excess(s.ix) + DriftOver(c, s, evs)
    decreases |evs|
  {
    if evs != [] {
      StepOk(c, s, evs[0]);
      EveryRunKeeps(c, Step(c, s, evs[0]), evs[1..]);
    }
  }

  /** Events that count every removal once: sets that repeat no address, and puts that are no requests or share no owner. */
  ghost predicate CountsOnce(s: Sys, ev: Event) {
    match ev
    case SetEvent(_, addrs, _) => Distinct(addrs)
    case PutEvent(kind, chs, _) => !(kind.Request? && SharedOwner(s.ix, chs))
    case _ => true
  }

  ghost predicate CountsOnceOver(c: Config, s: Sys, evs: seq<Event>)
    decreases |evs|
  {
    evs == [] || (CountsOnce(s, evs[0]) && CountsOnceOver(c, Step(c, s, evs[0]), evs[1..]))
  }

  /** The cached chunks that uploads and syncs remove without counting. */
  function LostIn(c: Config, s: Sys, ev: Event): nat {
    if ev.PutEvent? && !ev.kind.Request? && Commits(c, ev.kind, s.ix, ev.chs, ev.putNow) then
      |CachedOwners(s.ix, ev.chs, |ev.chs|)|
    else 0
  }

  function LostOver(c: Config, s: Sys, evs: seq<Event>): nat
    decreases |evs|
  {
    if evs == [] then 0 else LostIn(c, s, evs[0]) + LostOver(c, Step(c, s, evs[0]), evs[1..])
  }

  lemma CountedOnceGains(c: Config, s: Sys, ev: Event)
    requires SysOk(s) && Excess(s.ix) >= 0 && CountsOnce(s, ev)
    ensures Drift(c, s, ev) == LostIn(c, s, ev)
  {
    match ev {
      case SetEvent(mode, addrs, now) =>
        DistinctSetKeeps(c, mode, s.ix, addrs, now);
      case PutEvent(kind, chs, now) => PutGains(c, kind, s.ix, chs, now);
      case _ =>
    }
  }

  /** The underflow guard of the counter is never needed in such runs, and the counter is ahead by exactly what was lost. */
  lemma {:induction false} RunCountsLosses(c: Config, s: Sys, evs: seq<Event>)
    requires SysOk(s) && Excess(s.ix) >= 0 && AdmissibleRun(c, s, evs) && CountsOnceOver(c, s, evs)
    ensures Excess(Run(c, s, evs).ix) == Excess(s.ix) + LostOver(c, s, evs)
    decreases |evs|
  {
    if evs != [] {
      StepOk(c, s, evs[0]);
      CountedOnceGains(c, s, evs[0]);
      RunCountsLosses(c, Step(c, s, evs[0]), evs[1..]);
    }
  }

  const START := Sys(EMPTY, Idle)

  lemma StartOk()
    ensures SysOk(START) && Excess(START.ix) == 0
  {
    EmptyPartition();
    forall a ensures ChunkOk(EMPTY, a) {
    }
  }

  /**
   A store that starts empty: the partition holds at every moment, and gcSize is the size of the gc
   index plus the drift. In runs that count every removal once it is never behind, and ahead by
   exactly the cached chunks that uploads and syncs have removed.
   */
  lemma StoreIsSound(c: Config, evs: seq<Event>)
    requires AdmissibleRun(c, START, evs)
    ensures
      var ix := Run(c, START, evs).ix;
      && Partition(ix) && ChunksOk(ix)
      && ix.gcSize == |ix.gc| + DriftOver(c, START, evs)
      && (CountsOnceOver(c, START, evs) ==> ix.gcSize == |ix.gc| + LostOver(c, START, evs))
  {
    StartOk();
    EveryRunKeeps(c, START, evs);
    if CountsOnceOver(c, START, evs) {
      RunCountsLosses(c, START, evs);
    }
  }

  // ----- what garbage collection takes -----

  /** The addresses an event touches: named by a set, by a put that takes the lock, or by a read. */
  function Touches(s: Sys, ev: Event): set<Address> {
    match ev
    case SetEvent(_, addrs, _) => ToSet(addrs)
    case PutEvent(kind, chs, _) =>
      var pins := (kind.Request? && kind.pin) || kind == Upload(true);
      if |chs| == 1 && chs[0].addr in s.ix.data && !pins then {} else ToSet(Addresses(chs))
    case ReadEvent(item, _) => {item.addr}
    case _ => {}
  }

  function TouchedOver(c: Config, s: Sys, evs: seq<Event>): set<Address>
    decreases |evs|
  {
    if evs == [] then {} else Touches(s, evs[0]) + TouchedOver(c, Step(c, s, evs[0]), evs[1..])
  }

  /** While the worker is at it, every address that is touched ends up among the dirty ones, and no other. */
  lemma {:induction false} DirtyIsTouched(c: Config, s: Sys, evs: seq<Event>)
    requires !s.phase.Idle? && forall i :: 0 <= i < |evs| ==> !evs[i].RaiseEvent? && !evs[i].LowerEvent?
    ensures
      var end := Run(c, s, evs).phase;
      !end.Idle? && end.dirty == s.phase.dirty + TouchedOver(c, s, evs)
    decreases |evs|
  {
    if evs != [] {
      var next := Step(c, s, evs[0]);
      assert !evs[0].RaiseEvent? && !evs[0].LowerEvent?;
      assert !next.phase.Idle? && next.phase.dirty == s.phase.dirty + Touches(s, evs[0]);
      DirtyIsTouched(c, next, evs[1..]);
    }
  }

  lemma {:induction false} RunSplit(c: Config, s: Sys, first: seq<Event>, rest: seq<Event>)
    ensures Run(c, s, first + rest) == Run(c, Run(c, s, first), rest)
    ensures AdmissibleRun(c, s, first + rest) <==> AdmissibleRun(c, s, first) && AdmissibleRun(c, Run(c, s, first), rest)
    decreases |first|
  {
    if first == [] {
      assert first + rest == rest;
    } else {
      assert (first + rest)[1..] == first[1..] + rest;
      RunSplit(c, Step(c, s, first[0]), first[1..], rest);
    }
  }

  /**
   However puts, sets, reads and unreserving interleave with a garbage collection run, a run that
   commits evicts only chunks that are unpinned and still in the gc index under the key they were
   gathered with, and that no set, put or read has named since gcRunning went up; nothing is left
   of them, every other chunk is as it was, and the counter stays at or above the target.
   */
  lemma GarbageIsGarbage(c: Config, s: Sys, evs: seq<Event>, target: nat)
    requires SysOk(s) && s.phase.Idle?
    requires forall i :: 0 <= i < |evs| ==> !evs[i].RaiseEvent? && !evs[i].LowerEvent?
    requires AdmissibleRun(c, Step(c, s, RaiseEvent), evs) && Run(c, Step(c, s, RaiseEvent), evs).phase.Gathered?
    ensures
      var mid := Run(c, Step(c, s, RaiseEvent), evs);
      var r := Collect(c, mid.ix, mid.phase.cands, mid.phase.dirty, target);
      var after := Step(c, mid, CollectEvent(target)).ix;
      && (r.failed ==> after == mid.ix)
      && (!r.failed ==>
            && after.gcSize == mid.ix.gcSize - |r.evicted|
            && (|r.evicted| > 0 ==> after.gcSize >= target)
            && (forall i :: 0 <= i < |r.evicted| ==>
                  && r.evicted[i].key.addr !in TouchedOver(c, Step(c, s, RaiseEvent), evs)
                  && r.evicted[i] in mid.phase.cands && r.evicted[i].key in mid.ix.gc
                  && r.evicted[i].key.addr !in mid.ix.pin
                  && StatusOf(after, r.evicted[i].key.addr) == GONE)
            && forall x :: x !in AddressesOf(r.evicted) ==> SameAt(mid.ix, after, x))
  {
    var raised := Step(c, s, RaiseEvent);
    EveryRunKeeps(c, raised, evs);
    DirtyIsTouched(c, raised, evs);
    CollectLeaves(c, Run(c, raised, evs), target);
  }

  lemma CollectLeaves(c: Config, mid: Sys, target: nat)
    requires SysOk(mid) && mid.phase.Gathered?
    ensures
      var r := Collect(c, mid.ix, mid.phase.cands, mid.phase.dirty, target);
      var after := Step(c, mid, CollectEvent(target)).ix;
      && (r.failed ==> after == mid.ix)
      && (!r.failed ==>
            && after.gcSize == mid.ix.gcSize - |r.evicted|
            && (|r.evicted| > 0 ==> after.gcSize >= target)
            && (forall i :: 0 <= i < |r.evicted| ==>
                  && EvictedOk(mid.ix, mid.phase.cands, r.evicted[i], mid.phase.dirty)
                  && StatusOf(after, r.evicted[i].key.addr) == GONE)
            && forall x :: x !in AddressesOf(r.evicted) ==> SameAt(mid.ix, after, x))
  {
    var r := Collect(c, mid.ix, mid.phase.cands, mid.phase.dirty, target);
    var after := AfterCollect(mid.ix, r);
    CollectIsSafe(c, mid.ix, mid.phase.cands, mid.phase.dirty, target);
    if !r.failed {
      forall i | 0 <= i < |r.evicted| ensures StatusOf(after, r.evicted[i].key.addr) == GONE {
        EvictedIsGone(mid.ix, after, r.evicted, i);
      }
    }
  }

  lemma EvictedIsGone(db: Indexes, after: Indexes, evicted: seq<Candidate>, i: nat)
    requires i < |evicted| && Partition(after) && after.data == db.data - AddressesOf(evicted) && after.pin == db.pin
    requires evicted[i].key.addr !in db.pin
    ensures StatusOf(after, evicted[i].key.addr) == GONE
  {
    assert evicted[i].key.addr in AddressesOf(evicted);
    assert AddrOk(after, evicted[i].key.addr);
    AbsentStatus(after, evicted[i].key.addr);
  }

  lemma {:induction false} AllClean(cands: seq<Candidate>, k: nat)
    requires k <= |cands|
    ensures Clean(cands, {}, k) == cands[k..]
    decreases |cands| - k
  {
    if k < |cands| {
      AllClean(cands, k + 1);
      assert cands[k..] == [cands[k]] + cands[k + 1..];
    }
  }

  /**
   Left to itself, a run evicts the oldest entries until the counter is down at the target, or as
   many as it has gathered; it never fails.
   */
  lemma QuietRunReachesTarget(c: Config, db: Indexes, cands: seq<Candidate>, target: nat)
    requires Partition(db) && OldestFirst(db, cands)
    ensures
      var r := Collect(c, db, cands, {}, target);
      var n := Min(|cands|, Surplus(db.gcSize, 0, target));
      && !r.failed && r.evicted == cands[..n] && (r.done <==> n < |cands|)
      && AfterCollect(db, r).gcSize == db.gcSize - n
  {
    AllClean(cands, 0);
    assert cands[0..] == cands;
    CollectTakesOldest(c, db, cands, {}, target);
    GatherKeeps(db, cands, {});
    CollectIsSafe(c, db, cands, {}, target);
    forall i | 0 <= i < |cands| ensures cands[i].key.addr in db.data {
      assert AddrOk(db, cands[i].key.addr);
    }
  }

  lemma LeftWasThere(c: Config, db: Indexes, cands: seq<Candidate>, target: nat, k: GcKey)
    requires Partition(db) && OldestFirst(db, cands)
    requires k in AfterCollect(db, Collect(c, db, cands, {}, target)).gc
    ensures k in db.gc && forall i :: 0 <= i < |Collect(c, db, cands, {}, target).evicted| ==>
      Collect(c, db, cands, {}, target).evicted[i].key != k
  {
    var r := Collect(c, db, cands, {}, target);
    var after := AfterCollect(db, r);
    GatherKeeps(db, cands, {});
    QuietRunReachesTarget(c, db, cands, target);
    CollectIsSafe(c, db, cands, {}, target);
    assert AddrOk(after, k.addr);
    assert k.addr !in AddressesOf(r.evicted);
    assert SameAt(db, after, k.addr);
    forall i | 0 <= i < |r.evicted| ensures r.evicted[i].key != k {
      assert r.evicted[i].key.addr in AddressesOf(r.evicted);
    }
  }

  /**
   A quiet run evicts the least recently used chunks: whatever it leaves in the cache was accessed
   later than everything it evicts, or at the same time under a greater bin id, or else has a greater
   address.
   */
  lemma EvictsLeastRecent(c: Config, db: Indexes, cands: seq<Candidate>, target: nat, i: nat, k: GcKey)
    requires Partition(db) && OldestFirst(db, cands)
    requires i < |Collect(c, db, cands, {}, target).evicted|
    requires k in AfterCollect(db, Collect(c, db, cands, {}, target)).gc
    ensures
      var e := Collect(c, db, cands, {}, target).evicted[i].key;
      || e.accessTs < k.accessTs
      || (e.accessTs == k.accessTs && e.binID < k.binID)
      || (e.accessTs == k.accessTs && e.binID == k.binID && e.addr < k.addr)
  {
    var r := Collect(c, db, cands, {}, target);
    QuietRunReachesTarget(c, db, cands, target);
    LeftWasThere(c, db, cands, target, k);
    assert r.evicted[i] == cands[i];
    forall j | 0 <= j < |r.evicted| ensures cands[j].key != k {
      assert r.evicted[j] == cands[j];
    }
  }
}
