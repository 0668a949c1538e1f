/**
 Why a tree may go back to the pool as soon as Hash returns, although the final goroutine may
 still be climbing: nothing is written any more, and every toggle is back in its passive state.
 */
module BmtQuiescence {
  import opened Wrappers

  import opened Bytes
  import opened BmtConf
  import opened BmtReference
  import opened BmtMachine
  import opened BmtInvariant
  import opened BmtSteps
  import opened BmtRuns
  import opened BmtTheorems

  // ----- one goroutine at a time -----

  /** The final goroutine on its way past nodes that other goroutines hash. */
  predicate Bystander(t: Thread) {
    t.Running? && t.final && !t.fromLeft && t.s.None? && t.pc == Write
  }

  lemma AtNode(c: Conf, job: Job, p: nat, ts: seq<Thread>, up: History, i: nat)
    requires i < |ts| && i <= p && ts[i].Running? && 1 <= ts[i].level < c.depth
    requires ThreadOk(c, job, p, ts, up, i) && !Bystander(ts[i])
    ensures ts[i].index == Anc(i, ts[i].level)
    ensures i == Carrier(up, ts[i].level - 1, 2 * ts[i].index) || i == RightCarrier(p, up, ts[i].level, ts[i].index)
  {
    AncMonotone(i, p, ts[i].level - 1);
    assert Anc(i, ts[i].level - 1) == 2 * ts[i].index || Anc(i, ts[i].level - 1) == 2 * ts[i].index + 1;
  }

  lemma SameNodeExclusive(c: Conf, job: Job, p: nat, ts: seq<Thread>, up: History, nodes: map<NodeId, Node>,
                          i: nat, j: nat)
    requires Core(c, job, p, ts, up, nodes) && |ts| <= p + 1
    requires i < |ts| && j < |ts| && ts[i].Running? && ts[j].Running?
    requires ts[i].pc == Hash && ts[j].pc == Hash
    requires ts[i].level == ts[j].level && ts[i].index == ts[j].index
    ensures i == j
  {
    assert ThreadOk(c, job, p, ts, up, i);
    assert ThreadOk(c, job, p, ts, up, j);
    AncMonotone(i, p, ts[i].level);
    AtNode(c, job, p, ts, up, i);
    AtNode(c, job, p, ts, up, j);
    assert NodeOk(c, job, p, ts, up, nodes, ts[i].level, ts[i].index);
  }

  /** Goroutine i is about to hash its node: both child hashes are in place, and no other is at the same node. */
  ghost predicate HashesAlone(c: Conf, data: bytes, st: State, i: nat)
    requires i < |st.threads| && st.threads[i].Running?
  {
    var t := st.threads[i];
    var n := NodeAt(st.nodes, NodeId(t.level, t.index));
    && t.level >= 1
    && n.left == NodeHash(c.hash, data, t.level - 1, 2 * t.index)
    && n.right == NodeHash(c.hash, data, t.level - 1, 2 * t.index + 1)
    && forall j :: 0 <= j < |st.threads| && j != i ==>
         !(st.threads[j].Running? && st.threads[j].pc == Hash &&
           st.threads[j].level == t.level && st.threads[j].index == t.index)
  }

  lemma HashingAlone(c: Conf, job: Job, st: State, up: History, i: nat)
    requires Inv(c, job, st, up) && i < |st.threads| && st.threads[i].Running? && st.threads[i].pc == Hash
    ensures HashesAlone(c, job.data, st, i)
  {
    var t := st.threads[i];
    HashingFilled(c, job, Last(c, job), st.threads, up, st.nodes, i);
    forall j | 0 <= j < |st.threads| && j != i
      ensures !(st.threads[j].Running? && st.threads[j].pc == Hash &&
                st.threads[j].level == t.level && st.threads[j].index == t.index)
    {
      if st.threads[j].Running? && st.threads[j].pc == Hash
         && st.threads[j].level == t.level && st.threads[j].index == t.index {
        SameNodeExclusive(c, job, Last(c, job), st.threads, up, st.nodes, i, j);
      }
    }
  }

  /** Only one goroutine at a time uses the hasher of a node, and it finds both child hashes in place. */
  lemma HashingIsExclusive(c: Conf, buffer: bytes, nodes: map<NodeId, Node>, span: bytes, acts: seq<Action>, i: nat)
    requires PoolTree(c, buffer, nodes)
    requires 64 <= c.maxSize
    requires
      var ts := Exec(c, Fresh(buffer, nodes, span), acts).threads;
      i < |ts| && ts[i].Running? && ts[i].pc == Hash
    ensures HashesAlone(c, DataOf(c, acts), Exec(c, Fresh(buffer, nodes, span), acts), i)
  {
    var up := AnyRun(c, buffer, nodes, span, acts);
    HashingAlone(c, Job(DataOf(c, acts), nodes), Exec(c, Fresh(buffer, nodes, span), acts), up, i);
  }

  lemma HashingFilled(c: Conf, job: Job, p: nat, ts: seq<Thread>, up: History, nodes: map<NodeId, Node>, i: nat)
    requires Core(c, job, p, ts, up, nodes) && i < |ts| && i <= p && ts[i].Running? && ts[i].pc == Hash
    ensures
      var n := NodeAt(nodes, NodeId(ts[i].level, ts[i].index));
      && ts[i].level >= 1
      && n.left == Ref(c, job, ts[i].level - 1, 2 * ts[i].index)
      && n.right == Ref(c, job, ts[i].level - 1, 2 * ts[i].index + 1)
  {
    assert ThreadOk(c, job, p, ts, up, i);
    AncMonotone(i, p, ts[i].level);
    assert NodeOk(c, job, p, ts, up, nodes, ts[i].level, ts[i].index);
    AtNode(c, job, p, ts, up, i);
    HashingNodeFilled(c, job, p, ts, up, nodes, i);
  }

  lemma HashingNodeFilled(c: Conf, job: Job, p: nat, ts: seq<Thread>, up: History, nodes: map<NodeId, Node>, i: nat)
    requires i < |ts| && Hashing(ts, i, ts[i].level) && 1 <= ts[i].level
    requires i == Carrier(up, ts[i].level - 1, 2 * ts[i].index) || i == RightCarrier(p, up, ts[i].level, ts[i].index)
    requires NodeOk(c, job, p, ts, up, nodes, ts[i].level, ts[i].index)
    ensures
      var n := NodeAt(nodes, NodeId(ts[i].level, ts[i].index));
      && n.left == Ref(c, job, ts[i].level - 1, 2 * ts[i].index)
      && n.right == Ref(c, job, ts[i].level - 1, 2 * ts[i].index + 1)
  {
  }

  // ----- after the result was sent -----

  /** A node whose hash was carried away has got both of its child hashes. */
  lemma ChildrenCarried(c: Conf, job: Job, p: nat, ts: seq<Thread>, up: History, nodes: map<NodeId, Node>,
                        level: nat, index: nat)
    requires level >= 1 && NodeOk(c, job, p, ts, up, nodes, level, index)
    requires Carrier(up, level, index) >= 0
    ensures Carrier(up, level - 1, 2 * index) >= 0
    ensures !NoRight(p, level, index) ==> Carrier(up, level - 1, 2 * index + 1) >= 0
    ensures Toggles(p, ts, up, level, index) == if Solo(p, up, level, index) then 0 else 2
  {
  }

  /** Seen from the root: once its hash was carried out, all reached nodes have been. */
  lemma {:induction false} Settled(c: Conf, job: Job, p: nat, ts: seq<Thread>, up: History, nodes: map<NodeId, Node>,
                                   level: nat, index: nat)
    requires c.depth >= 1 && TreeOk(c, job, p, ts, up, nodes)
    requires RootIndex(c, p) == 0 && Carrier(up, c.depth - 1, 0) >= 0
    requires level < c.depth && index <= Anc(p, level)
    ensures Carrier(up, level, index) >= 0
    decreases c.depth - level
  {
    if level < c.depth - 1 {
      assert Anc(p, level + 1) == Anc(p, level) / 2;
      Settled(c, job, p, ts, up, nodes, level + 1, index / 2);
      assert NodeOk(c, job, p, ts, up, nodes, level + 1, index / 2);
      ChildrenCarried(c, job, p, ts, up, nodes, level + 1, index / 2);
      assert index == 2 * (index / 2) || index == 2 * (index / 2) + 1;
    }
  }

  /** A goroutine at a node whose hash was carried away is a bystander. */
  lemma OnlyBystanders(c: Conf, job: Job, p: nat, ts: seq<Thread>, up: History, nodes: map<NodeId, Node>, i: nat)
    requires i < |ts| && i <= p && ts[i].Running? && 1 <= ts[i].level < c.depth
    requires ThreadOk(c, job, p, ts, up, i) && HistoryOk(c, ts, up)
    requires NodeOk(c, job, p, ts, up, nodes, ts[i].level, ts[i].index)
    requires Carrier(up, ts[i].level, ts[i].index) >= 0
    ensures Bystander(ts[i])
  {
    if !Bystander(ts[i]) {
      AtNode(c, job, p, ts, up, i);
      CarrierPath(c, ts, up, ts[i].level, ts[i].index);
    }
  }

  lemma NothingWritten(c: Conf, job: Job, st: State, up: History, i: nat)
    requires Inv(c, job, st, up) && st.results != []
    requires i < |st.threads| && st.threads[i].Running?
    ensures var st' := Step(c, st, i);
      st'.nodes == st.nodes && st'.buffer == st.buffer && st'.results == st.results
  {
    var p := Last(c, job);
    var t := st.threads[i];
    assert ThreadOk(c, job, p, st.threads, up, i);
    AncMonotone(i, p, t.level);
    assert RootIndex(c, p) == 0;
    if t.level < c.depth {
      Settled(c, job, p, st.threads, up, st.nodes, t.level, t.index);
      if t.level == 0 {
        CarrierPath(c, st.threads, up, 0, i);
        assert false;
      } else {
        assert NodeOk(c, job, p, st.threads, up, st.nodes, t.level, t.index);
        OnlyBystanders(c, job, p, st.threads, up, st.nodes, i);
      }
    } else {
      assert RootIndex(c, i) == 0;
    }
  }

  /** Once a result was sent, no step of any goroutine writes a node, the buffer or the channel. */
  lemma QuietAfterResult(c: Conf, buffer: bytes, nodes: map<NodeId, Node>, span: bytes, acts: seq<Action>, i: nat)
    requires PoolTree(c, buffer, nodes)
    requires 64 <= c.maxSize
    requires
      var st := Exec(c, Fresh(buffer, nodes, span), acts);
      st.results != [] && i < |st.threads| && st.threads[i].Running?
    ensures
      var st := Exec(c, Fresh(buffer, nodes, span), acts);
      var st' := Step(c, st, i);
      st'.nodes == st.nodes && st'.buffer == st.buffer && st'.results == st.results
  {
    var up := AnyRun(c, buffer, nodes, span, acts);
    NothingWritten(c, Job(DataOf(c, acts), nodes), Exec(c, Fresh(buffer, nodes, span), acts), up, i);
  }

  /** A goroutine that only passes nodes, up to the root, where it ends without sending. */
  predicate Silent(c: Conf, t: Thread)
    decreases c.depth - t.level
  {
    && t.Running? && t.pc == Write && t.s.None? && t.level <= c.depth
    && (t.level < c.depth ==> Bystander(t) && Silent(c, Climb(t, None)))
  }

  lemma {:induction false} LeftoverSilent(c: Conf, job: Job, st: State, up: History, i: nat)
    requires Inv(c, job, st, up) && st.results != []
    requires i < |st.threads| && st.threads[i].Running?
    ensures Silent(c, st.threads[i])
    decreases c.depth - st.threads[i].level
  {
    var t := st.threads[i];
    LeftoverPasses(c, job, st, up, i);
    if t.level < c.depth {
      var up' := StepKeeps(c, job, st, up, i);
      LeftoverSilent(c, job, Step(c, st, i), up', i);
    }
  }

  lemma LeftoverPasses(c: Conf, job: Job, st: State, up: History, i: nat)
    requires Inv(c, job, st, up) && st.results != []
    requires i < |st.threads| && st.threads[i].Running?
    ensures
      var t := st.threads[i];
      && t.level <= c.depth && t.pc == Write && t.s.None?
      && (t.level < c.depth ==> Bystander(t))
  {
    var p := Last(c, job);
    var t := st.threads[i];
    assert ThreadOk(c, job, p, st.threads, up, i);
    AncMonotone(i, p, t.level);
    assert RootIndex(c, p) == 0 && RootIndex(c, i) == 0;
    if t.level < c.depth {
      Settled(c, job, p, st.threads, up, st.nodes, t.level, t.index);
      if t.level == 0 {
        CarrierPath(c, st.threads, up, 0, i);
        assert false;
      } else {
        assert NodeOk(c, job, p, st.threads, up, st.nodes, t.level, t.index);
        OnlyBystanders(c, job, p, st.threads, up, st.nodes, i);
      }
    }
  }

  /**
   The goroutines that are left when the result has arrived stay silent for good: in any state
   whatever, in particular after the hasher was reset and while the next chunk is hashed on the
   same tree, a step of one of them writes nothing, and it is silent again or has ended.
   */
  lemma LeftoversAreSilent(c: Conf, buffer: bytes, nodes: map<NodeId, Node>, span: bytes, acts: seq<Action>, i: nat)
    requires PoolTree(c, buffer, nodes)
    requires 64 <= c.maxSize
    requires
      var st := Exec(c, Fresh(buffer, nodes, span), acts);
      st.results != [] && i < |st.threads| && st.threads[i].Running?
    ensures Silent(c, Exec(c, Fresh(buffer, nodes, span), acts).threads[i])
  {
    var up := AnyRun(c, buffer, nodes, span, acts);
    LeftoverSilent(c, Job(DataOf(c, acts), nodes), Exec(c, Fresh(buffer, nodes, span), acts), up, i);
  }

  lemma SilentStep(c: Conf, st: State, i: nat)
    requires i < |st.threads| && Silent(c, st.threads[i])
    ensures
      var st' := Step(c, st, i);
      && st' == st.(threads := st'.threads) && |st'.threads| == |st.threads|
      && (forall j :: 0 <= j < |st.threads| && j != i ==> st'.threads[j] == st.threads[j])
      && (st'.threads[i].Ended? || Silent(c, st'.threads[i]))
  {
  }

  // ----- reuse -----

  /** How often a toggle can still be flipped twice before its int32 turns negative. */
  predicate ReusableFor(state: int, uses: nat) {
    state % 2 == 0 && (uses > 0 ==> 0 <= state && state + 2 * uses <= MAX_INT32 + 1)
  }

  /** A tree that is good for the given number of chunks. */
  ghost predicate TreeGoodFor(c: Conf, nodes: map<NodeId, Node>, uses: nat)
    requires c.depth >= 1
  {
    forall id :: Inner(c, id) ==> id in nodes && ReusableFor(nodes[id].state, uses)
  }

  /** In any even state but the negative ones, toggle stops the first caller and lets the second pass. */
  lemma TogglePairs(state: int)
    requires MIN_INT32 <= state <= MAX_INT32 && state % 2 == 0
    ensures (Active(AddInt32(state)) && !Active(AddInt32(AddInt32(state)))) <==> 0 <= state
  {
  }

  lemma GoodIsReady(c: Conf, nodes: map<NodeId, Node>, uses: nat)
    requires c.depth >= 1 && TreeGoodFor(c, nodes, uses) && uses >= 1
    ensures ReadyTree(c, nodes)
  {
    forall id | Inner(c, id) ensures id in nodes && Reusable(nodes[id].state) {
      assert ReusableFor(nodes[id].state, uses);
    }
  }

  lemma NodeAfterUse(c: Conf, job: Job, st: State, up: History, id: NodeId)
    requires Inv(c, job, st, up) && Digest(c, st).Some? && Inner(c, id)
    ensures id in st.nodes && id in job.base
    ensures st.nodes[id].state == job.base[id].state
         || st.nodes[id].state == AddInt32(AddInt32(job.base[id].state))
  {
    var p := Last(c, job);
    if Reached(c, p, id.level, id.index) {
      assert RootIndex(c, p) == 0;
      assert NodeOk(c, job, p, st.threads, up, st.nodes, id.level, id.index);
      assert id == NodeId(id.level, id.index);
      if st.results != [] {
        Settled(c, job, p, st.threads, up, st.nodes, id.level, id.index);
        ChildrenCarried(c, job, p, st.threads, up, st.nodes, id.level, id.index);
      }
      TwiceToggled(job.base[id].state);
    }
  }

  lemma TwiceToggled(state: int)
    ensures AfterToggles(state, 0) == state
    ensures AfterToggles(state, 2) == AddInt32(AddInt32(state))
  {
    assert AfterToggles(state, 1) == AddInt32(AfterToggles(state, 0));
  }

  lemma StillGood(c: Conf, job: Job, st: State, up: History, uses: nat)
    requires Inv(c, job, st, up) && Digest(c, st).Some? && uses >= 1 && TreeGoodFor(c, job.base, uses)
    ensures TreeGoodFor(c, st.nodes, uses - 1)
  {
    forall id | Inner(c, id) ensures id in st.nodes && ReusableFor(st.nodes[id].state, uses - 1) {
      assert ReusableFor(job.base[id].state, uses);
      NodeAfterUse(c, job, st, up, id);
    }
  }

  /**
   Pooling: once Hash can return, every node has been toggled twice or not at all, so a tree
   that was good for n chunks is good for n - 1, whatever goroutines are still running.
   */
  lemma TreeIsReusable(c: Conf, buffer: bytes, nodes: map<NodeId, Node>, span: bytes, acts: seq<Action>, uses: nat)
    requires ValidConf(c) && |buffer| == c.maxSize && uses >= 1 && TreeGoodFor(c, nodes, uses)
    requires 64 <= c.maxSize
    requires Digest(c, Exec(c, Fresh(buffer, nodes, span), acts)).Some?
    ensures TreeGoodFor(c, Exec(c, Fresh(buffer, nodes, span), acts).nodes, uses - 1)
  {
    GoodIsReady(c, nodes, uses);
    var up := AnyRun(c, buffer, nodes, span, acts);
    StillGood(c, Job(DataOf(c, acts), nodes), Exec(c, Fresh(buffer, nodes, span), acts), up, uses);
  }
}
