/** The invariant over whole runs: any calls of Write, then Hash, interleaved with any goroutine steps. */
module BmtRuns {
  import opened Wrappers

  import opened Bytes
  import opened BmtConf
  import opened BmtReference
  import opened BmtMachine
  import opened BmtInvariant
  import opened BmtSteps

  // ----- goroutine steps -----

  lemma BufferHolds(c: Conf, job: Job, st: State, i: nat)
    requires ValidJob(c, job) && CallerOk(c, job, Last(c, job), st)
    requires i < |st.threads| && i <= Last(c, job)
    ensures BufferSection(st.buffer, i) == Section(job.data, i)
  {
    if i < OpenSection(c, st.size) {
      assert 64 * i + 64 <= st.size;
      assert st.buffer[..st.size][64 * i..64 * i + 64] == job.data[..st.size][64 * i..64 * i + 64];
    }
  }

  lemma UnsentKept(c: Conf, ts: seq<Thread>, up: History, i: nat, t': Thread)
    requires i < |ts| && Advances(ts[i], t') && ts[i].level < c.depth
    requires t'.Ended? ==> t'.level < c.depth
    ensures Sent(c, ts[i := t'], up) == Sent(c, ts, up)
  {
    SameElsewhere(ts, i, t', Carrier(up, c.depth - 1, 0), c.depth);
  }

  /** A carrier of the root that has just climbed has not sent yet, and no other one has. */
  lemma UnsentCarried(c: Conf, ts: seq<Thread>, up: History, i: nat, t': Thread, id: NodeId)
    requires i < |ts| && Advances(ts[i], t') && ts[i].level < c.depth && t'.Running?
    requires Carrier(up, id.level, id.index) == -1
    ensures Sent(c, ts[i := t'], up[id := i]) == Sent(c, ts, up)
  {
    UnsentKept(c, ts, up, i, t');
    assert id == NodeId(c.depth - 1, 0) || Carrier(up[id := i], c.depth - 1, 0) == Carrier(up, c.depth - 1, 0);
  }

  lemma ReusableNode(c: Conf, job: Job, i: nat, level: nat)
    requires ValidJob(c, job) && i < Pow2(c.depth - 1) && 1 <= level < c.depth
    ensures NodeId(level, Anc(i, level)) in job.base
    ensures Reusable(NodeAt(job.base, NodeId(level, Anc(i, level))).state)
  {
    AncBound(i, level, c.depth - 1);
    assert Inner(c, NodeId(level, Anc(i, level)));
  }

  lemma LastCovers(c: Conf, job: Job)
    requires ValidJob(c, job)
    ensures |job.data| <= 64 * Last(c, job) + 64
    ensures Last(c, job) < Pow2(c.depth - 1)
  {
    SubtreeSizeIsPower(c.depth - 1);
  }

  lemma LeafStepKeeps(c: Conf, job: Job, p: nat, st: State, up: History, i: nat)
    requires Climbing(c, job, p, st, up)
    requires i < |st.threads| && i <= p && st.threads[i].Running? && st.threads[i].pc == Leaf
    requires BufferSection(st.buffer, i) == Section(job.data, i)
    ensures Climbing(c, job, p, LeafStep(c, st, i), up[NodeId(0, i) := i])
  {
    LeafKeeps(c, job, p, st.threads, up, st.nodes, i);
    assert Ref(c, job, 0, i) == c.hash(Section(job.data, i));
    UnsentCarried(c, st.threads, up, i, Climb(st.threads[i], Some(Ref(c, job, 0, i))), NodeId(0, i));
  }

  lemma PathsMeet(c: Conf, p: nat)
    requires c.depth >= 1 && p < Pow2(c.depth - 1)
    ensures OneRoot(c, p)
  {
    forall i: nat | i <= p ensures RootIndex(c, i) == 0 {
      AncBound(i, c.depth - 1, c.depth - 1);
    }
  }

  lemma SendResults(c: Conf, job: Job, ts: seq<Thread>, up: History, results: seq<bytes>, i: nat)
    requires c.depth >= 1 && ResultsOk(c, job, ts, up, results)
    requires i < |ts| && ts[i].Running? && ts[i].level == c.depth
    requires ts[i].s.Some? <==> Carrier(up, c.depth - 1, 0) == i
    requires ts[i].s.Some? ==> ts[i].s.value == Ref(c, job, c.depth - 1, 0)
    ensures ResultsOk(c, job, ts[i := Ended(c.depth, ts[i].final)], up,
                      if ts[i].s.Some? then results + [ts[i].s.value] else results)
  {
    var root := Carrier(up, c.depth - 1, 0);
    var ts' := ts[i := Ended(c.depth, ts[i].final)];
    assert Sent(c, ts', up) == (root == i || Sent(c, ts, up));
    assert root == i ==> !Sent(c, ts, up);
  }

  lemma SendStepKeeps(c: Conf, job: Job, p: nat, st: State, up: History, i: nat)
    requires Climbing(c, job, p, st, up)
    requires i < |st.threads| && i <= p && st.threads[i].Running? && st.threads[i].level == c.depth
    requires RootIndex(c, i) == 0
    ensures Climbing(c, job, p, SendStep(st, i), up)
  {
    SendKeeps(c, job, p, st.threads, up, st.nodes, i);
    SendResults(c, job, st.threads, up, st.results, i);
  }

  lemma WriteStepKeeps(c: Conf, job: Job, p: nat, st: State, up: History, i: nat)
    requires Climbing(c, job, p, st, up)
    requires i < |st.threads| && i < p && st.threads[i].Running? && st.threads[i].pc == Write && st.threads[i].level < c.depth
    ensures st.threads[i].s.Some?
    ensures Climbing(c, job, p, WriteStep(st, i), up)
  {
    WriteKeeps(c, job, p, st.threads, up, st.nodes, i);
    UnsentKept(c, st.threads, up, i, st.threads[i].(pc := Toggle));
  }

  lemma FinalWriteStepKeeps(c: Conf, job: Job, p: nat, st: State, up: History)
    requires Climbing(c, job, p, st, up)
    requires ValidConf(c) && |job.data| <= 64 * p + 64
    requires p < |st.threads| && st.threads[p].Running? && st.threads[p].pc == Write && 1 <= st.threads[p].level < c.depth
    ensures Climbing(c, job, p, FinalWriteStep(c, st, p), up)
  {
    UnsentKept(c, st.threads, up, p, FinalWriteStep(c, st, p).threads[p]);
    if st.threads[p].fromLeft || st.threads[p].s.Some? {
      FinalWriteKeeps(c, job, p, st.threads, up, st.nodes);
    } else {
      PassKeeps(c, job, p, st.threads, up, st.nodes);
    }
  }

  lemma ToggleStepKeeps(c: Conf, job: Job, p: nat, st: State, up: History, i: nat)
    requires Climbing(c, job, p, st, up)
    requires i < |st.threads| && i <= p && st.threads[i].Running? && st.threads[i].pc == Toggle
    requires 1 <= st.threads[i].level < c.depth
    requires Reusable(NodeAt(job.base, NodeId(st.threads[i].level, st.threads[i].index)).state)
    ensures Climbing(c, job, p, ToggleStep(st, i), up)
  {
    UnsentKept(c, st.threads, up, i, ToggleStep(st, i).threads[i]);
    ToggleKeeps(c, job, p, st.threads, up, st.nodes, i, ToggleStep(st, i).threads[i]);
  }

  lemma HashStepKeeps(c: Conf, job: Job, p: nat, st: State, up: History, i: nat)
    requires Climbing(c, job, p, st, up)
    requires i < |st.threads| && i <= p && st.threads[i].Running? && st.threads[i].pc == Hash
    ensures Climbing(c, job, p, HashStep(c, st, i), up[NodeId(st.threads[i].level, st.threads[i].index) := i])
  {
    HashKeeps(c, job, p, st.threads, up, st.nodes, i);
    var t := st.threads[i];
    UnsentCarried(c, st.threads, up, i, HashStep(c, st, i).threads[i], NodeId(t.level, t.index));
  }

  lemma WhereThread(c: Conf, job: Job, p: nat, st: State, up: History, i: nat)
    requires Climbing(c, job, p, st, up) && i < |st.threads|
    ensures ThreadOk(c, job, p, st.threads, up, i)
  {
  }

  lemma TopOfLoopClimbs(c: Conf, job: Job, p: nat, st: State, up: History, i: nat)
    requires Static(c, job, p)
    requires Climbing(c, job, p, st, up)
    requires i < |st.threads| && i <= p && st.threads[i].Running? && st.threads[i].pc == Write
    requires 1 <= st.threads[i].level <= c.depth && (st.threads[i].final <==> i == p)
    ensures Climbing(c, job, p, Step(c, st, i), up)
  {
    if st.threads[i].level == c.depth {
      assert RootIndex(c, i) == 0;
      SendStepKeeps(c, job, p, st, up, i);
    } else if i != p {
      WriteStepKeeps(c, job, p, st, up, i);
    } else {
      FinalWriteStepKeeps(c, job, p, st, up);
    }
  }

  lemma StepClimbs(c: Conf, job: Job, p: nat, st: State, up: History, i: nat) returns (up': History)
    requires Static(c, job, p)
    requires Climbing(c, job, p, st, up)
    requires i < |st.threads| && i <= p && st.threads[i].Running?
    requires ThreadOk(c, job, p, st.threads, up, i)
    requires BufferSection(st.buffer, i) == Section(job.data, i)
    ensures Climbing(c, job, p, Step(c, st, i), up')
  {
    var t := st.threads[i];
    up' := up;
    match t.pc {
      case Leaf =>
        LeafStepKeeps(c, job, p, st, up, i);
        up' := up[NodeId(0, i) := i];
      case Write =>
        TopOfLoopClimbs(c, job, p, st, up, i);
      case Toggle =>
        ReusableNode(c, job, i, t.level);
        ToggleStepKeeps(c, job, p, st, up, i);
      case Hash =>
        HashStepKeeps(c, job, p, st, up, i);
        up' := up[NodeId(t.level, t.index) := i];
    }
  }

  /** Goroutines leave the caller's variables alone. */
  lemma StepIsLocal(c: Conf, st: State, i: nat)
    requires i < |st.threads| && st.threads[i].Running?
    ensures var st' := Step(c, st, i);
      st'.size == st.size && st'.hashed == st.hashed && st'.span == st.span && st'.buffer == st.buffer && st'.pos == st.pos
      && |st'.threads| == |st.threads|
  {
  }

  lemma SameCaller(c: Conf, job: Job, p: nat, st: State, st': State)
    requires CallerOk(c, job, p, st)
    requires st'.size == st.size && st'.hashed == st.hashed && st'.buffer == st.buffer && st'.pos == st.pos
    requires |st'.threads| == |st.threads|
    ensures CallerOk(c, job, p, st')
  {
  }

  lemma StepKeeps(c: Conf, job: Job, st: State, up: History, i: nat) returns (up': History)
    requires Inv(c, job, st, up)
    requires i < |st.threads| && st.threads[i].Running?
    ensures Inv(c, job, Step(c, st, i), up')
  {
    StepIsLocal(c, st, i);
    SameCaller(c, job, Last(c, job), st, Step(c, st, i));
    BufferHolds(c, job, st, i);
    WhereThread(c, job, Last(c, job), st, up, i);
    up' := StepClimbs(c, job, Last(c, job), st, up, i);
  }

  // ----- the caller's steps -----

  /** Goroutines that have only been started change nothing in the tree. */
  lemma SpawnedNode(c: Conf, job: Job, p: nat, ts: seq<Thread>, up: History, nodes: map<NodeId, Node>,
                    more: seq<Thread>, level: nat, index: nat)
    requires level >= 1
    requires HistoryOk(c, ts, up)
    requires NodeOk(c, job, p, ts, up, nodes, level, index)
    requires forall i :: 0 <= i < |more| ==> more[i].Running? && more[i].level == 0
    ensures NodeOk(c, job, p, ts + more, up, nodes, level, index)
  {
    var a := Carrier(up, level - 1, 2 * index);
    var b := RightCarrier(p, up, level, index);
    assert forall j: int :: Wrote(ts + more, j, level) == Wrote(ts, j, level);
    assert forall j: int :: Toggled(ts + more, j, level) == Toggled(ts, j, level);
    assert Hashing(ts + more, a, level) == Hashing(ts, a, level);
    assert Hashing(ts + more, b, level) == Hashing(ts, b, level);
    assert Above(ts + more, p, level) == Above(ts, p, level);
  }

  lemma SpawnedThread(c: Conf, job: Job, p: nat, ts: seq<Thread>, up: History, more: seq<Thread>, i: nat)
    requires i < |ts + more| && ThreadsOk(c, job, p, ts, up) && c.depth >= 1
    requires forall j :: 0 <= j < |more| ==> more[j] == Spawned(|ts| + j, |ts| + j == p)
    ensures ThreadOk(c, job, p, ts + more, up, i)
  {
    if i < |ts| {
      assert ThreadOk(c, job, p, ts, up, i);
    }
  }

  lemma SpawnClimbs(c: Conf, job: Job, p: nat, st: State, up: History, more: seq<Thread>)
    requires Climbing(c, job, p, st, up)
    requires forall j :: 0 <= j < |more| ==> more[j] == Spawned(|st.threads| + j, |st.threads| + j == p)
    ensures Climbing(c, job, p, st.(threads := st.threads + more), up)
  {
    var ts' := st.threads + more;
    forall i: nat | i < |ts'| ensures ThreadOk(c, job, p, ts', up, i) {
      SpawnedThread(c, job, p, st.threads, up, more, i);
    }
    forall level: nat, index: nat | Reached(c, p, level, index)
      ensures NodeOk(c, job, p, ts', up, st.nodes, level, index)
    {
      SpawnedNode(c, job, p, st.threads, up, st.nodes, more, level, index);
    }
  }

  /** Climbing looks at nothing but the tree, the goroutines and the channel. */
  lemma SameClimb(c: Conf, job: Job, p: nat, st: State, st': State, up: History)
    requires Climbing(c, job, p, st, up)
    requires st'.threads == st.threads && st'.nodes == st.nodes && st'.results == st.results
    ensures Climbing(c, job, p, st', up)
  {
  }

  lemma OpenSectionGrows(c: Conf, job: Job, size: nat)
    requires ValidJob(c, job) && size <= |job.data|
    ensures OpenSection(c, size) <= Last(c, job)
    ensures size < c.maxSize ==> OpenSection(c, size) == size / 64
  {
    SubtreeSizeIsPower(c.depth - 1);
  }

  /** Write moves pos to the section that is open afterwards, and leaves the data in the buffer. */
  lemma WriteCaller(c: Conf, job: Job, st: State, b: bytes)
    requires ValidJob(c, job) && CallerOk(c, job, Last(c, job), st) && !st.hashed
    requires st.size + Taken(c, st.size, b) <= |job.data|
    requires b[..Taken(c, st.size, b)] == job.data[st.size..st.size + Taken(c, st.size, b)]
    ensures
      var st' := WriteCall(c, st, b);
      && CallerOk(c, job, Last(c, job), st') && st'.pos <= Last(c, job)
      && (st.size < c.maxSize ==> |st.threads| == st.size / 64)
  {
    var l := Taken(c, st.size, b);
    var st' := WriteCall(c, st, b);
    OpenSectionGrows(c, job, st.size);
    OpenSectionGrows(c, job, st.size + l);
    assert st'.buffer[..st'.size] == st.buffer[..st.size] + b[..l];
    assert job.data[..st'.size] == job.data[..st.size] + job.data[st.size..st'.size];
  }

  lemma WriteCallKeeps(c: Conf, job: Job, st: State, up: History, b: bytes)
    requires Inv(c, job, st, up) && !st.hashed
    requires st.size + Taken(c, st.size, b) <= |job.data|
    requires b[..Taken(c, st.size, b)] == job.data[st.size..st.size + Taken(c, st.size, b)]
    ensures Inv(c, job, WriteCall(c, st, b), up)
  {
    var p := Last(c, job);
    var st' := WriteCall(c, st, b);
    var more := SpawnedBetween(st.size / 64, st'.pos);
    WriteCaller(c, job, st, b);
    SpawnClimbs(c, job, p, st, up, more);
    SameClimb(c, job, p, st.(threads := st.threads + more), st', up);
  }

  lemma PaddedBuffer(buffer: bytes, data: bytes, p: nat)
    requires 64 * p <= |data| <= 64 * p + 64 <= |buffer|
    requires buffer[..|data|] == data
    ensures BufferSection(CopyInto(buffer, |data|, Zeros(64)), p) == Section(data, p)
    ensures CopyInto(buffer, |data|, Zeros(64))[..|data|] == data
  {
    var b' := CopyInto(buffer, |data|, Zeros(64));
    assert b'[..|data|] == buffer[..|data|];
    forall j | 0 <= j < 64 ensures b'[64 * p..64 * p + 64][j] == Section(data, p)[j] {
      if 64 * p + j < |data| {
        assert b'[64 * p + j] == b'[..|data|][64 * p + j];
      }
    }
  }

  lemma OpenSectionBounds(size: nat, sections: nat)
    requires 0 < size <= 64 * sections
    ensures
      var p := if size == 64 * sections then size / 64 - 1 else size / 64;
      64 * p <= size <= 64 * p + 64 <= 64 * sections
  {
  }

  lemma LastSection(c: Conf, job: Job)
    requires ValidJob(c, job) && |job.data| > 0
    ensures 64 * Last(c, job) <= |job.data| <= 64 * Last(c, job) + 64 <= c.maxSize
  {
    SubtreeSizeIsPower(c.depth - 1);
    OpenSectionBounds(|job.data|, Pow2(c.depth - 1));
  }

  lemma PaddedSection(c: Conf, job: Job, st: State)
    requires ValidJob(c, job) && CallerOk(c, job, Last(c, job), st)
    requires st.size == |job.data| > 0
    ensures BufferSection(HashCall(c, st).buffer, Last(c, job)) == Section(job.data, Last(c, job))
    ensures HashCall(c, st).buffer[..st.size] == job.data[..st.size]
  {
    LastSection(c, job);
    assert job.data[..st.size] == job.data;
    PaddedBuffer(st.buffer, job.data, Last(c, job));
  }

  lemma HashCallKeeps(c: Conf, job: Job, st: State, up: History)
    requires Inv(c, job, st, up) && !st.hashed && st.size == |job.data|
    ensures Inv(c, job, HashCall(c, st), up)
  {
    var p := Last(c, job);
    var st' := HashCall(c, st);
    if st.size == 0 {
      SameClimb(c, job, p, st, st', up);
    } else {
      var more := [Spawned(p, true)];
      SpawnClimbs(c, job, p, st, up, more);
      SameClimb(c, job, p, st.(threads := st.threads + more), st', up);
      PaddedSection(c, job, st);
    }
  }

  // ----- whole runs -----

  /** All a run writes from here on, given the size so far: Write drops what does not fit. */
  function Remaining(c: Conf, size: nat, hashed: bool, acts: seq<Action>): (data: bytes)
    requires size <= c.maxSize
    ensures size + |data| <= c.maxSize
    decreases |acts|
  {
    if acts == [] then []
    else match acts[0]
      case CallWrite(b) =>
        if hashed then Remaining(c, size, hashed, acts[1..])
        else
          var l := Taken(c, size, b);
          b[..l] + Remaining(c, size + l, hashed, acts[1..])
      case CallHash => Remaining(c, size, true, acts[1..])
      case Run(_) => Remaining(c, size, hashed, acts[1..])
  }

  /** The data a run hashes. */
  function DataOf(c: Conf, acts: seq<Action>): bytes {
    Remaining(c, 0, false, acts)
  }

  lemma NothingAfterHash(c: Conf, size: nat, acts: seq<Action>)
    requires size <= c.maxSize
    ensures Remaining(c, size, true, acts) == []
    decreases |acts|
  {
    if acts != [] {
      NothingAfterHash(c, size, acts[1..]);
    }
  }

  lemma SplitData(data: bytes, size: nat, head: bytes, tail: bytes)
    requires size <= |data| && data == data[..size] + (head + tail)
    ensures size + |head| <= |data| && data[size..size + |head|] == head
    ensures data == data[..size + |head|] + tail
  {
    assert data[..size + |head|] == data[..size] + head;
  }

  lemma WriteActKeeps(c: Conf, job: Job, st: State, up: History, b: bytes, rest: seq<Action>)
    requires Inv(c, job, st, up) && !st.hashed
    requires job.data == job.data[..st.size] + Remaining(c, st.size, false, [CallWrite(b)] + rest)
    ensures var st' := WriteCall(c, st, b);
      Inv(c, job, st', up) && job.data == job.data[..st'.size] + Remaining(c, st'.size, false, rest)
  {
    var l := Taken(c, st.size, b);
    assert ([CallWrite(b)] + rest)[1..] == rest;
    SplitData(job.data, st.size, b[..l], Remaining(c, st.size + l, false, rest));
    WriteCallKeeps(c, job, st, up, b);
  }

  lemma HashActKeeps(c: Conf, job: Job, st: State, up: History, rest: seq<Action>)
    requires Inv(c, job, st, up) && !st.hashed
    requires job.data == job.data[..st.size] + Remaining(c, st.size, false, [CallHash] + rest)
    ensures var st' := HashCall(c, st);
      Inv(c, job, st', up) && job.data == job.data[..st'.size] + Remaining(c, st'.size, true, rest)
  {
    NothingAfterHash(c, st.size, rest);
    assert ([CallHash] + rest)[1..] == rest;
    assert job.data == job.data[..st.size];
    HashCallKeeps(c, job, st, up);
  }

  lemma RunActKeeps(c: Conf, job: Job, st: State, up: History, i: nat) returns (up': History)
    requires Inv(c, job, st, up) && i < |st.threads| && st.threads[i].Running?
    ensures var st' := Step(c, st, i);
      Inv(c, job, st', up') && st'.size == st.size && st'.hashed == st.hashed
  {
    StepIsLocal(c, st, i);
    up' := StepKeeps(c, job, st, up, i);
  }

  lemma {:induction false} RunKeeps(c: Conf, job: Job, st: State, up: History, acts: seq<Action>) returns (up': History)
    requires Inv(c, job, st, up)
    requires job.data == job.data[..st.size] + Remaining(c, st.size, st.hashed, acts)
    ensures Inv(c, job, Exec(c, st, acts), up')
    decreases |acts|
  {
    up' := up;
    if acts != [] {
      assert acts == [acts[0]] + acts[1..];
      match acts[0] {
        case CallWrite(b) =>
          if !st.hashed { WriteActKeeps(c, job, st, up, b, acts[1..]); }
        case CallHash =>
          if !st.hashed { HashActKeeps(c, job, st, up, acts[1..]); }
        case Run(i) =>
          if i < |st.threads| && st.threads[i].Running? { up' := RunActKeeps(c, job, st, up, i); }
      }
      up' := RunKeeps(c, job, Act(c, st, acts[0]), up', acts[1..]);
    }
  }

  lemma FreshClimbs(c: Conf, job: Job, buffer: bytes, nodes: map<NodeId, Node>, span: bytes)
    requires ValidJob(c, job) && job.base == nodes && |buffer| == c.maxSize
    ensures Inv(c, job, Fresh(buffer, nodes, span), map[])
  {
    LastCovers(c, job);
    PathsMeet(c, Last(c, job));
  }
}
