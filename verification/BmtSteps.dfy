/** Every atomic step of every goroutine keeps the invariant. */
module BmtSteps {
  import opened Wrappers

  import opened BmtConf
  import opened BmtReference
  import opened BmtMachine
  import opened BmtInvariant

  // ----- nodes a step does not touch -----

  /** t' is t further on its node, or at the top of the loop one level up. */
  predicate Advances(t: Thread, t': Thread) {
    && t.Running?
    && t'.final == t.final
    && (t'.level == t.level || (t'.level == t.level + 1 && t'.Running? && t'.pc == Write))
  }

  lemma SameElsewhere(ts: seq<Thread>, i: nat, t': Thread, j: int, level: nat)
    requires i < |ts| && Advances(ts[i], t')
    requires j != i || level != ts[i].level
    ensures Wrote(ts[i := t'], j, level) == Wrote(ts, j, level)
    ensures Toggled(ts[i := t'], j, level) == Toggled(ts, j, level)
    ensures Hashing(ts[i := t'], j, level) == Hashing(ts, j, level)
    ensures Above(ts[i := t'], j, level) == Above(ts, j, level)
    ensures Stopped(ts[i := t'], j, level) == Stopped(ts, j, level)
  {
  }

  lemma CarrierPath(c: Conf, ts: seq<Thread>, up: History, level: nat, index: nat)
    requires HistoryOk(c, ts, up)
    ensures Carrier(up, level, index) >= 0 ==>
      var i := Carrier(up, level, index);
      i < |ts| && Anc(i, level) == index && Anc(i, level + 1) == index / 2 && ts[i].level > level
  {
  }

  lemma OtherNode(c: Conf, job: Job, p: nat, ts: seq<Thread>, up: History, nodes: map<NodeId, Node>,
                  i: nat, t': Thread, nodes': map<NodeId, Node>, level: nat, index: nat)
    requires i < |ts| && Advances(ts[i], t') && ts[i].index == Anc(i, ts[i].level)
    requires HistoryOk(c, ts, up)
    requires Reached(c, p, level, index)
    requires NodeOk(c, job, p, ts, up, nodes, level, index)
    requires level != ts[i].level || index != ts[i].index
    requires NodeAt(nodes', NodeId(level, index)) == NodeAt(nodes, NodeId(level, index))
    ensures NodeOk(c, job, p, ts[i := t'], up, nodes', level, index)
  {
    var a := Carrier(up, level - 1, 2 * index);
    var b := RightCarrier(p, up, level, index);
    CarrierPath(c, ts, up, level - 1, 2 * index);
    CarrierPath(c, ts, up, level - 1, 2 * index + 1);
    if level == ts[i].level {
      assert a != i;
      assert b != i;
    }
    SameElsewhere(ts, i, t', a, level);
    SameElsewhere(ts, i, t', b, level);
  }

  /** The same for a whole tree of which a step writes at most the node its goroutine stands at. */
  lemma OtherNodes(c: Conf, job: Job, p: nat, ts: seq<Thread>, up: History, nodes: map<NodeId, Node>,
                   i: nat, t': Thread, nodes': map<NodeId, Node>)
    requires i < |ts| && Advances(ts[i], t') && ts[i].index == Anc(i, ts[i].level)
    requires HistoryOk(c, ts, up)
    requires TreeOk(c, job, p, ts, up, nodes)
    requires forall id :: id != NodeId(ts[i].level, ts[i].index) ==> NodeAt(nodes', id) == NodeAt(nodes, id)
    ensures forall level: nat, index: nat | Reached(c, p, level, index) && (level != ts[i].level || index != ts[i].index) ::
      NodeOk(c, job, p, ts[i := t'], up, nodes', level, index)
  {
    forall level: nat, index: nat | Reached(c, p, level, index) && (level != ts[i].level || index != ts[i].index)
      ensures NodeOk(c, job, p, ts[i := t'], up, nodes', level, index)
    {
      OtherNode(c, job, p, ts, up, nodes, i, t', nodes', level, index);
    }
  }

  lemma TreeKept(c: Conf, job: Job, p: nat, ts: seq<Thread>, up: History, nodes: map<NodeId, Node>,
                 i: nat, t': Thread, node: Node)
    requires i < |ts| && Advances(ts[i], t') && ts[i].index == Anc(i, ts[i].level)
    requires HistoryOk(c, ts, up)
    requires TreeOk(c, job, p, ts, up, nodes)
    requires Reached(c, p, ts[i].level, ts[i].index)
    requires NodeOk(c, job, p, ts[i := t'], up, nodes[NodeId(ts[i].level, ts[i].index) := node], ts[i].level, ts[i].index)
    ensures TreeOk(c, job, p, ts[i := t'], up, nodes[NodeId(ts[i].level, ts[i].index) := node])
  {
    OtherNodes(c, job, p, ts, up, nodes, i, t', nodes[NodeId(ts[i].level, ts[i].index) := node]);
  }

  lemma ThreadsKept(c: Conf, job: Job, p: nat, ts: seq<Thread>, up: History, i: nat, t': Thread)
    requires i < |ts| && ThreadsOk(c, job, p, ts, up)
    requires ThreadOk(c, job, p, ts[i := t'], up, i)
    ensures ThreadsOk(c, job, p, ts[i := t'], up)
  {
    var ts' := ts[i := t'];
    forall j: nat | j < |ts'| ensures ThreadOk(c, job, p, ts', up, j) {
      assert ThreadOk(c, job, p, ts, up, j);
    }
  }

  lemma HistoryKept(c: Conf, ts: seq<Thread>, up: History, i: nat, t': Thread)
    requires i < |ts| && HistoryOk(c, ts, up) && Advances(ts[i], t')
    ensures HistoryOk(c, ts[i := t'], up)
  {
  }

  /** A step inside one node: the history stays, so only the goroutine and its node need care. */
  lemma StepInNode(c: Conf, job: Job, p: nat, ts: seq<Thread>, up: History, nodes: map<NodeId, Node>,
                   i: nat, t': Thread, node: Node)
    requires Core(c, job, p, ts, up, nodes)
    requires i < |ts| && i <= p && Advances(ts[i], t') && 1 <= ts[i].level < c.depth
    requires ThreadOk(c, job, p, ts[i := t'], up, i)
    requires NodeOk(c, job, p, ts[i := t'], up, nodes[NodeId(ts[i].level, ts[i].index) := node], ts[i].level, ts[i].index)
    ensures Core(c, job, p, ts[i := t'], up, nodes[NodeId(ts[i].level, ts[i].index) := node])
  {
    assert ThreadOk(c, job, p, ts, up, i);
    AncMonotone(i, p, ts[i].level);
    ThreadsKept(c, job, p, ts, up, i, t');
    HistoryKept(c, ts, up, i, t');
    TreeKept(c, job, p, ts, up, nodes, i, t', node);
  }

  // ----- writing a segment -----

  lemma WriteNode(c: Conf, job: Job, p: nat, ts: seq<Thread>, up: History, nodes: map<NodeId, Node>, i: nat)
    requires i < |ts| && i < p
    requires ts[i].Running? && ts[i].pc == Write && 1 <= ts[i].level < c.depth
    requires ThreadOk(c, job, p, ts, up, i)
    requires HistoryOk(c, ts, up)
    requires NodeOk(c, job, p, ts, up, nodes, ts[i].level, ts[i].index)
    ensures ts[i].s.Some?
    ensures
      var t := ts[i];
      var n := NodeAt(nodes, NodeId(t.level, t.index));
      var n' := if t.fromLeft then n.(left := t.s.value) else n.(right := t.s.value);
      NodeOk(c, job, p, ts[i := t.(pc := Toggle)], up, nodes[NodeId(t.level, t.index) := n'], t.level, t.index)
  {
    var t := ts[i];
    AncMonotone(i, p, t.level - 1);
    CarrierPath(c, ts, up, t.level - 1, 2 * t.index);
    CarrierPath(c, ts, up, t.level - 1, 2 * t.index + 1);
    assert Carrier(up, t.level - 1, Anc(i, t.level - 1)) == i;
    assert Anc(i, t.level - 1) == if t.fromLeft then 2 * t.index else 2 * t.index + 1;
  }

  /** The segments the final goroutine writes; a right sister it fills in is a zero subtree. */
  lemma FinalWriteNode(c: Conf, job: Job, p: nat, ts: seq<Thread>, up: History, nodes: map<NodeId, Node>)
    requires ValidConf(c) && |job.data| <= 64 * p + 64
    requires p < |ts|
    requires ts[p].Running? && ts[p].pc == Write && 1 <= ts[p].level < c.depth
    requires ts[p].fromLeft || ts[p].s.Some?
    requires ThreadOk(c, job, p, ts, up, p)
    requires HistoryOk(c, ts, up)
    requires NodeOk(c, job, p, ts, up, nodes, ts[p].level, ts[p].index)
    ensures
      var t := ts[p];
      var n := NodeAt(nodes, NodeId(t.level, t.index));
      var n0 := if t.fromLeft then n.(right := c.zerohashes[t.level]) else n;
      var n1 := if t.s.None? then n0 else if t.fromLeft then n0.(left := t.s.value) else n0.(right := t.s.value);
      NodeOk(c, job, p, ts[p := t.(pc := if t.fromLeft && t.s.Some? then Hash else Toggle)], up,
             nodes[NodeId(t.level, t.index) := n1], t.level, t.index)
  {
    var t := ts[p];
    CarrierPath(c, ts, up, t.level - 1, 2 * t.index);
    CarrierPath(c, ts, up, t.level - 1, 2 * t.index + 1);
    assert Anc(p, t.level - 1) == if t.fromLeft then 2 * t.index else 2 * t.index + 1;
    if t.fromLeft {
      ZeroSubtree(c.hash, job.data, p, t.level - 1, 2 * t.index + 1);
    }
  }

  // ----- the toggle -----

  lemma ToggleParity(base: int, n: nat)
    requires Reusable(base) && n <= 1
    ensures Active(AddInt32(AfterToggles(base, n))) <==> n == 0
  {
    assert AfterToggles(base, 0) == base;
    assert AfterToggles(base, 1) == base + 1;
  }

  /** Of the two goroutines that meet at a node, toggle stops the first and lets the second one hash. */
  lemma ToggleNode(c: Conf, job: Job, p: nat, ts: seq<Thread>, up: History, nodes: map<NodeId, Node>, i: nat,
                   t': Thread)
    requires i < |ts| && i <= p
    requires ts[i].Running? && ts[i].pc == Toggle && 1 <= ts[i].level < c.depth
    requires ThreadOk(c, job, p, ts, up, i)
    requires HistoryOk(c, ts, up)
    requires Reusable(NodeAt(job.base, NodeId(ts[i].level, ts[i].index)).state)
    requires NodeOk(c, job, p, ts, up, nodes, ts[i].level, ts[i].index)
    requires
      var t := ts[i];
      var n := NodeAt(nodes, NodeId(t.level, t.index));
      t' == if !Active(AddInt32(n.state)) then t.(pc := Hash)
            else if t.final then Climb(t, None)
            else Ended(t.level, false)
    ensures
      var t := ts[i];
      var n := NodeAt(nodes, NodeId(t.level, t.index));
      NodeOk(c, job, p, ts[i := t'], up, nodes[NodeId(t.level, t.index) := n.(state := AddInt32(n.state))], t.level, t.index)
    ensures t' == Climb(ts[i], None) ==> Carrier(up, ts[i].level, ts[i].index) == -1
  {
    var t := ts[i];
    var ts' := ts[i := t'];
    AncMonotone(i, p, t.level - 1);
    CarrierPath(c, ts, up, t.level - 1, 2 * t.index);
    CarrierPath(c, ts, up, t.level - 1, 2 * t.index + 1);
    assert Anc(i, t.level - 1) == if t.fromLeft then 2 * t.index else 2 * t.index + 1;
    var a := Carrier(up, t.level - 1, 2 * t.index);
    var b := RightCarrier(p, up, t.level, t.index);
    assert !Solo(p, up, t.level, t.index);
    assert a != b || a == -1;
    assert i == a || i == b;
    var before := Toggles(p, ts, up, t.level, t.index);
    assert Toggles(p, ts', up, t.level, t.index) == before + 1;
    ToggleParity(NodeAt(job.base, NodeId(t.level, t.index)).state, before);
  }

  // ----- hashing and climbing -----

  lemma LonelyNode(c: Conf, job: Job, p: nat, ts: seq<Thread>, up: History, nodes: map<NodeId, Node>, i: nat)
    requires i < |ts| && i <= p && Hashing(ts, i, ts[i].level) && 1 <= ts[i].level < c.depth
    requires ThreadOk(c, job, p, ts, up, i)
    requires HistoryOk(c, ts, up)
    requires NodeOk(c, job, p, ts, up, nodes, ts[i].level, ts[i].index)
    ensures Carrier(up, ts[i].level, ts[i].index) == -1
    ensures
      var n := NodeAt(nodes, NodeId(ts[i].level, ts[i].index));
      c.hash(n.left + n.right) == Ref(c, job, ts[i].level, ts[i].index)
  {
    var t := ts[i];
    AncMonotone(i, p, t.level - 1);
    CarrierPath(c, ts, up, t.level - 1, 2 * t.index);
    CarrierPath(c, ts, up, t.level - 1, 2 * t.index + 1);
    CarrierPath(c, ts, up, t.level, t.index);
    assert Anc(i, t.level - 1) == if t.fromLeft then 2 * t.index else 2 * t.index + 1;
  }

  /** The node a goroutine leaves with its hash: the history now says who the winner was. */
  lemma LeftNode(c: Conf, job: Job, p: nat, ts: seq<Thread>, up: History, nodes: map<NodeId, Node>, i: nat, t': Thread)
    requires i < |ts| && i <= p && Hashing(ts, i, ts[i].level) && 1 <= ts[i].level < c.depth
    requires t'.Running? && t'.level == ts[i].level + 1 && t'.pc == Write
    requires ThreadOk(c, job, p, ts, up, i)
    requires HistoryOk(c, ts, up)
    requires NodeOk(c, job, p, ts, up, nodes, ts[i].level, ts[i].index)
    requires Carrier(up, ts[i].level, ts[i].index) == -1
    ensures NodeOk(c, job, p, ts[i := t'], up[NodeId(ts[i].level, ts[i].index) := i], nodes, ts[i].level, ts[i].index)
  {
    var t := ts[i];
    var ts', up' := ts[i := t'], up[NodeId(t.level, t.index) := i];
    AncMonotone(i, p, t.level - 1);
    CarrierPath(c, ts, up, t.level - 1, 2 * t.index);
    CarrierPath(c, ts, up, t.level - 1, 2 * t.index + 1);
    assert Anc(i, t.level - 1) == if t.fromLeft then 2 * t.index else 2 * t.index + 1;
    assert Carrier(up', t.level - 1, 2 * t.index) == Carrier(up, t.level - 1, 2 * t.index);
    assert RightCarrier(p, up', t.level, t.index) == RightCarrier(p, up, t.level, t.index);
    assert Toggles(p, ts', up', t.level, t.index) == Toggles(p, ts, up, t.level, t.index);
  }

  /** The node a goroutine arrives at: one of its children now has a carrier, which has done nothing yet. */
  lemma ArrivedNode(c: Conf, job: Job, p: nat, ts: seq<Thread>, up: History, nodes: map<NodeId, Node>, i: nat,
                    level: nat, index: nat)
    requires level >= 1 && i < |ts| && i <= p && index == Anc(i, level - 1)
    requires ts[i].Running? && ts[i].level == level && ts[i].pc == Write
    requires NodeOk(c, job, p, ts, up, nodes, level, index / 2)
    requires Carrier(up, level - 1, index) == -1
    ensures NodeOk(c, job, p, ts, up[NodeId(level - 1, index) := i], nodes, level, index / 2)
  {
    var k := index / 2;
    var up' := up[NodeId(level - 1, index) := i];
    AncMonotone(i, p, level - 1);
    assert index == 2 * k || index == 2 * k + 1;
    assert Carrier(up', level, k) == Carrier(up, level, k);
    assert !Wrote(ts, i, level) && !Toggled(ts, i, level);
    assert Toggles(p, ts, up', level, k) == Toggles(p, ts, up, level, k);
  }

  lemma ThreadsCarry(c: Conf, job: Job, p: nat, ts: seq<Thread>, up: History, i: nat, t': Thread)
    requires i < |ts| && i <= p && ThreadsOk(c, job, p, ts, up) && ts[i].Running? && ts[i].level < c.depth
    requires t' == Climb(ts[i], Some(Ref(c, job, ts[i].level, ts[i].index)))
    requires Carrier(up, ts[i].level, ts[i].index) == -1
    ensures ThreadsOk(c, job, p, ts[i := t'], up[NodeId(ts[i].level, ts[i].index) := i])
  {
    var ts', up' := ts[i := t'], up[NodeId(ts[i].level, ts[i].index) := i];
    assert ThreadOk(c, job, p, ts, up, i);
    assert Anc(i, ts[i].level + 1) == ts[i].index / 2;
    forall j: nat | j < |ts'| ensures ThreadOk(c, job, p, ts', up', j) {
      assert ThreadOk(c, job, p, ts, up, j);
      forall h: nat | j != p && h < ts'[j].level
        ensures Carrier(up', h, Anc(j, h)) == j
      {
        assert h < ts[j].level ==> Carrier(up, h, Anc(j, h)) == j;
      }
    }
  }

  lemma RemoteNode(c: Conf, job: Job, p: nat, ts: seq<Thread>, up: History, nodes: map<NodeId, Node>, i: nat,
                   id: NodeId, level: nat, index: nat)
    requires level >= 1
    requires NodeOk(c, job, p, ts, up, nodes, level, index)
    requires id != NodeId(level, index)
    requires id != NodeId(level - 1, 2 * index) && id != NodeId(level - 1, 2 * index + 1)
    ensures NodeOk(c, job, p, ts, up[id := i], nodes, level, index)
  {
    assert Carrier(up[id := i], level, index) == Carrier(up, level, index);
    assert Carrier(up[id := i], level - 1, 2 * index) == Carrier(up, level - 1, 2 * index);
    assert RightCarrier(p, up[id := i], level, index) == RightCarrier(p, up, level, index);
  }

  lemma HistoryCarry(c: Conf, ts: seq<Thread>, up: History, i: nat, t': Thread)
    requires i < |ts| && HistoryOk(c, ts, up) && ts[i].Running? && ts[i].level < c.depth
    requires t'.level == ts[i].level + 1 && ts[i].index == Anc(i, ts[i].level)
    ensures HistoryOk(c, ts[i := t'], up[NodeId(ts[i].level, ts[i].index) := i])
  {
  }

  lemma TreeCarry(c: Conf, job: Job, p: nat, ts: seq<Thread>, up: History, nodes: map<NodeId, Node>, i: nat, t': Thread)
    requires HistoryOk(c, ts, up) && TreeOk(c, job, p, ts, up, nodes)
    requires i < |ts| && i <= p && ts[i].Running? && ts[i].level < c.depth && ThreadOk(c, job, p, ts, up, i)
    requires ts[i].level >= 1 ==> Hashing(ts, i, ts[i].level)
    requires t' == Climb(ts[i], Some(Ref(c, job, ts[i].level, ts[i].index)))
    requires Carrier(up, ts[i].level, ts[i].index) == -1
    ensures TreeOk(c, job, p, ts[i := t'], up[NodeId(ts[i].level, ts[i].index) := i], nodes)
  {
    var t := ts[i];
    var id := NodeId(t.level, t.index);
    var ts', up' := ts[i := t'], up[id := i];
    OtherNodes(c, job, p, ts, up, nodes, i, t', nodes);
    AncMonotone(i, p, t.level);
    forall level: nat, index: nat | Reached(c, p, level, index)
      ensures NodeOk(c, job, p, ts', up', nodes, level, index)
    {
      if level == t.level && index == t.index {
        LeftNode(c, job, p, ts, up, nodes, i, t');
      } else if level == t.level + 1 && index == t.index / 2 {
        ArrivedNode(c, job, p, ts', up, nodes, i, level, t.index);
      } else {
        RemoteNode(c, job, p, ts', up, nodes, i, id, level, index);
      }
    }
  }

  /** Hashing a section or a node and climbing to the parent with the hash. */
  lemma CarryUp(c: Conf, job: Job, p: nat, ts: seq<Thread>, up: History, nodes: map<NodeId, Node>, i: nat, t': Thread)
    requires Core(c, job, p, ts, up, nodes)
    requires i < |ts| && i <= p && ts[i].Running? && ts[i].level < c.depth
    requires ts[i].level >= 1 ==> Hashing(ts, i, ts[i].level)
    requires t' == Climb(ts[i], Some(Ref(c, job, ts[i].level, ts[i].index)))
    requires Carrier(up, ts[i].level, ts[i].index) == -1
    ensures Core(c, job, p, ts[i := t'], up[NodeId(ts[i].level, ts[i].index) := i], nodes)
  {
    assert ThreadOk(c, job, p, ts, up, i);
    ThreadsCarry(c, job, p, ts, up, i, t');
    HistoryCarry(c, ts, up, i, t');
    TreeCarry(c, job, p, ts, up, nodes, i, t');
  }

  // ----- one step of one goroutine -----

  lemma PassedNode(c: Conf, job: Job, p: nat, ts: seq<Thread>, up: History, nodes: map<NodeId, Node>)
    requires p < |ts| && ts[p].Running? && ts[p].pc == Write && 1 <= ts[p].level < c.depth
    requires !ts[p].fromLeft && ts[p].s.None?
    requires ThreadOk(c, job, p, ts, up, p)
    requires HistoryOk(c, ts, up)
    requires NodeOk(c, job, p, ts, up, nodes, ts[p].level, ts[p].index)
    ensures NodeOk(c, job, p, ts[p := Climb(ts[p], None)], up, nodes, ts[p].level, ts[p].index)
    ensures Carrier(up, ts[p].level, ts[p].index) != p
  {
    var t := ts[p];
    CarrierPath(c, ts, up, t.level - 1, 2 * t.index);
    CarrierPath(c, ts, up, t.level - 1, 2 * t.index + 1);
    CarrierPath(c, ts, up, t.level, t.index);
    assert Anc(p, t.level - 1) == 2 * t.index + 1;
  }

  /** The final goroutine holds nil and comes from the right: both hashes arrive without it. */
  lemma PassKeeps(c: Conf, job: Job, p: nat, ts: seq<Thread>, up: History, nodes: map<NodeId, Node>)
    requires Core(c, job, p, ts, up, nodes)
    requires p < |ts| && ts[p].Running? && ts[p].pc == Write && 1 <= ts[p].level < c.depth
    requires !ts[p].fromLeft && ts[p].s.None?
    ensures Core(c, job, p, ts[p := Climb(ts[p], None)], up, nodes)
  {
    var t' := Climb(ts[p], None);
    assert ThreadOk(c, job, p, ts, up, p);
    PassedNode(c, job, p, ts, up, nodes);
    OtherNodes(c, job, p, ts, up, nodes, p, t', nodes);
    ThreadsKept(c, job, p, ts, up, p, t');
    HistoryKept(c, ts, up, p, t');
  }

  lemma WriteKeeps(c: Conf, job: Job, p: nat, ts: seq<Thread>, up: History, nodes: map<NodeId, Node>, i: nat)
    requires Core(c, job, p, ts, up, nodes)
    requires i < |ts| && i < p && ts[i].Running? && ts[i].pc == Write && ts[i].level < c.depth
    ensures ts[i].s.Some?
    ensures
      var t := ts[i];
      var n := NodeAt(nodes, NodeId(t.level, t.index));
      var n' := if t.fromLeft then n.(left := t.s.value) else n.(right := t.s.value);
      Core(c, job, p, ts[i := t.(pc := Toggle)], up, nodes[NodeId(t.level, t.index) := n'])
  {
    var t := ts[i];
    assert ThreadOk(c, job, p, ts, up, i);
    AncMonotone(i, p, t.level);
    assert NodeOk(c, job, p, ts, up, nodes, t.level, t.index);
    WriteNode(c, job, p, ts, up, nodes, i);
    var n := NodeAt(nodes, NodeId(t.level, t.index));
    StepInNode(c, job, p, ts, up, nodes, i, t.(pc := Toggle),
               if t.fromLeft then n.(left := t.s.value) else n.(right := t.s.value));
  }

  lemma FinalWriteKeeps(c: Conf, job: Job, p: nat, ts: seq<Thread>, up: History, nodes: map<NodeId, Node>)
    requires ValidConf(c) && |job.data| <= 64 * p + 64
    requires Core(c, job, p, ts, up, nodes)
    requires p < |ts| && ts[p].Running? && ts[p].pc == Write && 1 <= ts[p].level < c.depth
    requires ts[p].fromLeft || ts[p].s.Some?
    ensures
      var t := ts[p];
      var n := NodeAt(nodes, NodeId(t.level, t.index));
      var n0 := if t.fromLeft then n.(right := c.zerohashes[t.level]) else n;
      var n1 := if t.s.None? then n0 else if t.fromLeft then n0.(left := t.s.value) else n0.(right := t.s.value);
      Core(c, job, p, ts[p := t.(pc := if t.fromLeft && t.s.Some? then Hash else Toggle)], up,
           nodes[NodeId(t.level, t.index) := n1])
  {
    var t := ts[p];
    assert ThreadOk(c, job, p, ts, up, p);
    assert NodeOk(c, job, p, ts, up, nodes, t.level, t.index);
    FinalWriteNode(c, job, p, ts, up, nodes);
    var n := NodeAt(nodes, NodeId(t.level, t.index));
    var n0 := if t.fromLeft then n.(right := c.zerohashes[t.level]) else n;
    StepInNode(c, job, p, ts, up, nodes, p, t.(pc := if t.fromLeft && t.s.Some? then Hash else Toggle),
               if t.s.None? then n0 else if t.fromLeft then n0.(left := t.s.value) else n0.(right := t.s.value));
  }

  lemma ToggledThread(c: Conf, job: Job, p: nat, ts: seq<Thread>, up: History, i: nat, t': Thread)
    requires i < |ts| && i <= p && ThreadOk(c, job, p, ts, up, i)
    requires ts[i].Running? && ts[i].pc == Toggle && 1 <= ts[i].level < c.depth
    requires t' == ts[i].(pc := Hash)
          || (ts[i].final && t' == Climb(ts[i], None) && Carrier(up, ts[i].level, ts[i].index) == -1)
          || (!ts[i].final && t' == Ended(ts[i].level, false))
    ensures ThreadOk(c, job, p, ts[i := t'], up, i)
  {
  }

  lemma ToggleKeeps(c: Conf, job: Job, p: nat, ts: seq<Thread>, up: History, nodes: map<NodeId, Node>, i: nat,
                    t': Thread)
    requires Core(c, job, p, ts, up, nodes)
    requires i < |ts| && i <= p && ts[i].Running? && ts[i].pc == Toggle && ts[i].level < c.depth
    requires Reusable(NodeAt(job.base, NodeId(ts[i].level, ts[i].index)).state)
    requires
      var t := ts[i];
      var n := NodeAt(nodes, NodeId(t.level, t.index));
      t' == if !Active(AddInt32(n.state)) then t.(pc := Hash)
            else if t.final then Climb(t, None)
            else Ended(t.level, false)
    ensures
      var t := ts[i];
      var n := NodeAt(nodes, NodeId(t.level, t.index));
      Core(c, job, p, ts[i := t'], up, nodes[NodeId(t.level, t.index) := n.(state := AddInt32(n.state))])
  {
    var t := ts[i];
    assert ThreadOk(c, job, p, ts, up, i);
    AncMonotone(i, p, t.level);
    assert NodeOk(c, job, p, ts, up, nodes, t.level, t.index);
    ToggleNode(c, job, p, ts, up, nodes, i, t');
    ToggledThread(c, job, p, ts, up, i, t');
    var n := NodeAt(nodes, NodeId(t.level, t.index));
    StepInNode(c, job, p, ts, up, nodes, i, t', n.(state := AddInt32(n.state)));
  }

  lemma LeafKeeps(c: Conf, job: Job, p: nat, ts: seq<Thread>, up: History, nodes: map<NodeId, Node>, i: nat)
    requires Core(c, job, p, ts, up, nodes)
    requires i < |ts| && i <= p && ts[i].Running? && ts[i].pc == Leaf && 0 < c.depth
    ensures ts[i].level == 0 && ts[i].index == i && Carrier(up, 0, i) == -1
    ensures Core(c, job, p, ts[i := Climb(ts[i], Some(Ref(c, job, 0, i)))], up[NodeId(0, i) := i], nodes)
  {
    assert ThreadOk(c, job, p, ts, up, i);
    CarrierPath(c, ts, up, 0, i);
    CarryUp(c, job, p, ts, up, nodes, i, Climb(ts[i], Some(Ref(c, job, 0, i))));
  }

  lemma HashKeeps(c: Conf, job: Job, p: nat, ts: seq<Thread>, up: History, nodes: map<NodeId, Node>, i: nat)
    requires Core(c, job, p, ts, up, nodes)
    requires i < |ts| && i <= p && ts[i].Running? && ts[i].pc == Hash
    ensures 1 <= ts[i].level < c.depth && Carrier(up, ts[i].level, ts[i].index) == -1
    ensures
      var t := ts[i];
      var n := NodeAt(nodes, NodeId(t.level, t.index));
      Core(c, job, p, ts[i := Climb(t, Some(c.hash(n.left + n.right)))], up[NodeId(t.level, t.index) := i], nodes)
  {
    var t := ts[i];
    assert ThreadOk(c, job, p, ts, up, i);
    AncMonotone(i, p, t.level);
    assert NodeOk(c, job, p, ts, up, nodes, t.level, t.index);
    LonelyNode(c, job, p, ts, up, nodes, i);
    CarryUp(c, job, p, ts, up, nodes, i, Climb(t, Some(Ref(c, job, t.level, t.index))));
  }

  lemma SendKeeps(c: Conf, job: Job, p: nat, ts: seq<Thread>, up: History, nodes: map<NodeId, Node>, i: nat)
    requires Core(c, job, p, ts, up, nodes)
    requires i < |ts| && ts[i].Running? && ts[i].level == c.depth && c.depth >= 1
    requires Anc(i, c.depth - 1) == 0
    ensures Core(c, job, p, ts[i := Ended(c.depth, ts[i].final)], up, nodes)
    ensures ts[i].s.Some? <==> Carrier(up, c.depth - 1, 0) == i
    ensures ts[i].s.Some? ==> ts[i].s.value == Ref(c, job, c.depth - 1, 0)
    ensures ts[i].pc == Write
  {
    var t' := Ended(c.depth, ts[i].final);
    assert ThreadOk(c, job, p, ts, up, i);
    OtherNodes(c, job, p, ts, up, nodes, i, t', nodes);
    ThreadsKept(c, job, p, ts, up, i, t');
    HistoryKept(c, ts, up, i, t');
  }
}
