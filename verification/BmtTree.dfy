/** The tree of nodes linked by parent pointers (pool.go), as goroutines find it on the heap. */
module BmtTree {
  import opened Bytes
  import opened BmtConf
  import opened BmtMachine

  class TreeNode {
    const isLeft: bool
    const parent: TreeNode?
    var state: int
    var left: bytes
    var right: bytes

    constructor (index: nat, parent: TreeNode?)
      ensures isLeft == (index % 2 == 0) && this.parent == parent
      ensures state == 0 && left == [] && right == []
    {
      this.isLeft := index % 2 == 0;
      this.parent := parent;
      state, left, right := 0, [], [];
    }

    method Toggle() returns (active: bool)
      modifies this`state
      ensures state == AddInt32(old(state))
      ensures active == Active(state)
    {
      state := AddInt32(state);
      active := GoRem2(state) == 1;
    }

    function GetSister(isLeft: bool): bytes
      reads this
    {
      if isLeft then right else left
    }
  }

  /** Which node sits where. */
  type Layout = map<NodeId, TreeNode>

  predicate InTree(depth: nat, id: NodeId) {
    id.level < depth && id.index < Pow2(depth - 1 - id.level)
  }

  ghost predicate Injective(at: Layout) {
    forall id, id' {:trigger at[id], at[id']} :: id in at && id' in at && at[id] == at[id'] ==> id == id'
  }

  /** The node knows which child it is and who its parent is. */
  ghost predicate Hooked(depth: nat, at: Layout, id: NodeId)
    requires id in at
  {
    && at[id].isLeft == (id.index % 2 == 0)
    && (id.level + 1 == depth ==> at[id].parent == null)
    && (id.level + 1 < depth ==>
          var up := NodeId(id.level + 1, id.index / 2);
          up in at && at[id].parent == at[up])
  }

  /** All nodes from the given level upwards are there, distinct, and linked to their parents. */
  ghost predicate LinkedFrom(depth: nat, level: nat, at: Layout) {
    && (forall id {:trigger id in at} :: id in at <==> InTree(depth, id) && level <= id.level)
    && Injective(at)
    && (forall id {:trigger Hooked(depth, at, id)} :: id in at ==> Hooked(depth, at, id))
  }

  ghost predicate Linked(depth: nat, at: Layout) {
    LinkedFrom(depth, 0, at)
  }

  /** The contents of the nodes, as the transition system sees them. */
  ghost function NodesOf(at: Layout): (m: map<NodeId, Node>)
    reads at.Values
  {
    map id | id in at :: Node(at[id].state, at[id].left, at[id].right)
  }

  class Tree {
    const leaves: seq<TreeNode>
    const buffer: array<byte>
    ghost const at: Layout

    ghost predicate Valid(c: Conf)
    {
      && c.depth >= 1
      && Linked(c.depth, at)
      && IsLevel(c.depth, 0, at, leaves)
      && buffer.Length == c.maxSize
    }

    constructor (leaves: seq<TreeNode>, buffer: array<byte>, ghost at: Layout)
      ensures this.leaves == leaves && this.buffer == buffer && this.at == at
    {
      this.leaves, this.buffer, this.at := leaves, buffer, at;
    }

    /** n.left = s; nodes are distinct objects, so one entry of the tree's contents changes. */
    method SetLeft(n: TreeNode, s: bytes, ghost id: NodeId)
      requires Injective(at) && id in at && at[id] == n
      modifies n`left
      ensures NodesOf(at) == old(NodesOf(at))[id := old(NodesOf(at))[id].(left := s)]
    {
      n.left := s;
    }

    method SetRight(n: TreeNode, s: bytes, ghost id: NodeId)
      requires Injective(at) && id in at && at[id] == n
      modifies n`right
      ensures NodesOf(at) == old(NodesOf(at))[id := old(NodesOf(at))[id].(right := s)]
    {
      n.right := s;
    }

    method ToggleAt(n: TreeNode, ghost id: NodeId) returns (active: bool)
      requires Injective(at) && id in at && at[id] == n
      modifies n`state
      ensures NodesOf(at) == old(NodesOf(at))[id := old(NodesOf(at))[id].(state := AddInt32(old(NodesOf(at))[id].state))]
      ensures active == Active(AddInt32(old(NodesOf(at))[id].state))
    {
      active := n.Toggle();
    }
  }

  /** `below` is `at` with the given nodes on one more level. */
  ghost predicate Extends(level: nat, at: Layout, nodes: seq<TreeNode>, below: Layout) {
    && (forall id {:trigger id in below} :: id in below <==> id in at || (id.level == level && id.index < |nodes|))
    && (forall id {:trigger id in at} :: id in at ==> id in below && below[id] == at[id] && at[id] !in nodes)
    && (forall i :: 0 <= i < |nodes| ==> below[NodeId(level, i)] == nodes[i])
    && (forall i, j :: 0 <= i < j < |nodes| ==> nodes[i] != nodes[j])
  }

  lemma ExtendsInjective(level: nat, at: Layout, nodes: seq<TreeNode>, below: Layout)
    requires Injective(at) && Extends(level, at, nodes, below)
    requires forall id :: id in at ==> id.level > level
    ensures Injective(below)
  {
    forall id, id' | id in below && id' in below && below[id] == below[id'] ensures id == id' {
      assert id !in at ==> id == NodeId(level, id.index) && below[id] == nodes[id.index];
      assert id' !in at ==> id' == NodeId(level, id'.index) && below[id'] == nodes[id'.index];
    }
  }

  lemma LevelAdded(depth: nat, level: nat, at: Layout, nodes: seq<TreeNode>, below: Layout)
    requires level + 1 < depth && LinkedFrom(depth, level + 1, at)
    requires |nodes| == Pow2(depth - 1 - level) && Extends(level, at, nodes, below)
    requires forall i :: 0 <= i < |nodes| ==> nodes[i].isLeft == (i % 2 == 0)
    requires forall i :: 0 <= i < |nodes| ==>
      NodeId(level + 1, i / 2) in at && nodes[i].parent == at[NodeId(level + 1, i / 2)]
    ensures LinkedFrom(depth, level, below)
  {
    ExtendsInjective(level, at, nodes, below);
    forall id | id in below ensures Hooked(depth, below, id) {
      if id in at {
        assert Hooked(depth, at, id);
      } else {
        assert id == NodeId(level, id.index) && below[id] == nodes[id.index];
        assert nodes[id.index].parent == at[NodeId(level + 1, id.index / 2)];
      }
    }
  }

  /** The inner loop of newTree: one level below the previous one. */
  method NewLevel(level: nat, count: nat, prevlevel: seq<TreeNode>, ghost at: Layout)
    returns (nodes: seq<TreeNode>, ghost below: Layout)
    requires count == 2 * |prevlevel|
    requires forall id :: id in at ==> id.level > level
    ensures |nodes| == count && Extends(level, at, nodes, below)
    ensures forall i :: 0 <= i < count ==> nodes[i].isLeft == (i % 2 == 0)
    ensures forall i :: 0 <= i < count ==> nodes[i].parent == prevlevel[i / 2]
    ensures forall i :: 0 <= i < count ==> fresh(nodes[i]) && nodes[i].state == 0
  {
    nodes, below := [], at;
    var i := 0;
    while i < count
      invariant 0 <= i <= count && |nodes| == i
      invariant Extends(level, at, nodes, below)
      invariant forall j :: 0 <= j < i ==> nodes[j].isLeft == (j % 2 == 0)
      invariant forall j :: 0 <= j < i ==> nodes[j].parent == prevlevel[j / 2]
      invariant forall j :: 0 <= j < i ==> fresh(nodes[j]) && nodes[j].state == 0
    {
      var parent := prevlevel[i / 2];
      var node := new TreeNode(i, parent);
      nodes := nodes + [node];
      below := below[NodeId(level, i) := node];
      i := i + 1;
    }
  }

  lemma RootLinked(depth: nat, n: TreeNode, at: Layout)
    requires depth >= 1 && at == map[NodeId(depth - 1, 0) := n]
    requires n.isLeft && n.parent == null
    ensures LinkedFrom(depth, depth - 1, at)
  {
    assert Pow2(0) == 1;
  }

  /** The nodes of one level, in order. */
  ghost predicate IsLevel(depth: nat, level: nat, at: Layout, nodes: seq<TreeNode>)
    requires level < depth
  {
    && |nodes| == Pow2(depth - 1 - level)
    && forall i :: 0 <= i < |nodes| ==> NodeId(level, i) in at && at[NodeId(level, i)] == nodes[i]
  }

  /** newTree: level by level from the root down to the leaves. */
  method NewTree(c: Conf) returns (t: Tree)
    requires ValidConf(c)
    ensures fresh(t) && t.Valid(c)
    ensures fresh(t.buffer) && forall id :: id in t.at ==> fresh(t.at[id])
    ensures forall id :: id in t.at ==> t.at[id].state == 0
  {
    var n := new TreeNode(0, null);
    var prevlevel := [n];
    ghost var at: Layout := map[NodeId(c.depth - 1, 0) := n];
    var count := 2;
    var level := c.depth - 2;
    RootLinked(c.depth, n, at);
    assert Pow2(0) == 1;
    while level >= 0
      invariant -1 <= level <= c.depth - 2
      invariant count == 2 * |prevlevel|
      invariant LinkedFrom(c.depth, level + 1, at)
      invariant IsLevel(c.depth, level + 1, at, prevlevel)
      invariant forall id :: id in at ==> fresh(at[id]) && at[id].state == 0
    {
      var nodes;
      ghost var below;
      nodes, below := NewLevel(level, count, prevlevel, at);
      LevelAdded(c.depth, level, at, nodes, below);
      at := below;
      prevlevel := nodes;
      count := count * 2;
      level := level - 1;
    }
    var buffer := new byte[c.maxSize](_ => 0);
    t := new Tree(prevlevel, buffer, at);
  }
}
