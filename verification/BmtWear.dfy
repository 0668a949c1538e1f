/**
 How pooled trees wear out: every full chunk adds two to each toggle, so that after 2^30 of them
 the int32 has wrapped, and the hasher hashes segments of the chunk before.
 */
module BmtWear {
  import opened Wrappers

  import opened Bytes
  import opened BmtConf
  import opened BmtReference
  import opened BmtCommit
  import opened BmtMachine
  import opened BmtInvariant
  import opened BmtRuns
  import opened BmtTheorems
  import opened BmtQuiescence

  /** A tree as it lies in the pool. */
  datatype Pooled = Pooled(buffer: bytes, nodes: map<NodeId, Node>)

  /** One use of a tree: Write calls, Hash, and the schedule of the goroutines. */
  datatype Use = Use(span: bytes, acts: seq<Action>)

  const FULL_USES: nat := 0x4000_0000

  ghost predicate TreeFits(c: Conf, t: Pooled) {
    ValidConf(c) && 64 <= c.maxSize == |t.buffer|
  }

  /** All toggles of the tree are in the same state. */
  ghost predicate Uniform(c: Conf, t: Pooled, state: int) {
    && TreeFits(c, t)
    && forall id :: Inner(c, id) ==> id in t.nodes && t.nodes[id].state == state
  }

  ghost function StateAfter(c: Conf, t: Pooled, u: Use): State
    requires TreeFits(c, t)
  {
    Exec(c, Fresh(t.buffer, t.nodes, u.span), u.acts)
  }

  ghost function AfterUse(c: Conf, t: Pooled, u: Use): (r: Pooled)
    requires TreeFits(c, t)
    ensures TreeFits(c, r)
  {
    Pooled(StateAfter(c, t, u).buffer, StateAfter(c, t, u).nodes)
  }

  /** A use that writes a chunk of full size and gets its hash. */
  ghost predicate FullUse(c: Conf, t: Pooled, u: Use)
    requires TreeFits(c, t)
  {
    |DataOf(c, u.acts)| == c.maxSize && Digest(c, StateAfter(c, t, u)).Some?
  }

  ghost predicate FullUses(c: Conf, t: Pooled, uses: seq<Use>)
    requires TreeFits(c, t)
    decreases |uses|
  {
    uses == [] || (FullUse(c, t, uses[0]) && FullUses(c, AfterUse(c, t, uses[0]), uses[1..]))
  }

  ghost function AfterUses(c: Conf, t: Pooled, uses: seq<Use>): (r: Pooled)
    requires TreeFits(c, t)
    ensures TreeFits(c, r)
    decreases |uses|
  {
    if uses == [] then t else AfterUses(c, AfterUse(c, t, uses[0]), uses[1..])
  }

  // ----- one full chunk -----

  lemma {:induction false} LastPath(height: nat, level: nat)
    requires level <= height
    ensures Anc(Pow2(height) - 1, level) == Pow2(height - level) - 1
    decreases level
  {
    if level > 0 {
      LastPath(height, level - 1);
    }
  }

  /** With all sections written every inner node has two children, and both have reported. */
  lemma FullNode(c: Conf, job: Job, st: State, up: History, id: NodeId)
    requires Inv(c, job, st, up) && |job.data| == c.maxSize && st.results != [] && Inner(c, id)
    ensures id in st.nodes && id in job.base
    ensures st.nodes[id].state == AddInt32(AddInt32(job.base[id].state))
    ensures st.nodes[id].right == Ref(c, job, id.level - 1, 2 * id.index + 1)
  {
    var p := Last(c, job);
    SubtreeSizeIsPower(c.depth - 1);
    assert p == Pow2(c.depth - 1) - 1;
    LastPath(c.depth - 1, id.level);
    LastPath(c.depth - 1, id.level - 1);
    assert RootIndex(c, p) == 0;
    assert NodeOk(c, job, p, st.threads, up, st.nodes, id.level, id.index);
    assert id == NodeId(id.level, id.index);
    Settled(c, job, p, st.threads, up, st.nodes, id.level, id.index);
    ChildrenCarried(c, job, p, st.threads, up, st.nodes, id.level, id.index);
    TwiceToggled(job.base[id].state);
  }

  /** The right segments of the inner nodes are those of the given data. */
  ghost predicate RightsOf(c: Conf, t: Pooled, data: bytes)
    requires c.depth >= 1
  {
    forall id :: Inner(c, id) ==> id in t.nodes && t.nodes[id].right == NodeHash(c.hash, data, id.level - 1, 2 * id.index + 1)
  }

  /** A full chunk adds two to every toggle, with the wrap-around of int32, and leaves its hashes behind. */
  lemma FullUseWears(c: Conf, t: Pooled, u: Use, state: int)
    requires Uniform(c, t, state) && Reusable(state) && FullUse(c, t, u)
    ensures Uniform(c, AfterUse(c, t, u), AddInt32(AddInt32(state)))
    ensures RightsOf(c, AfterUse(c, t, u), DataOf(c, u.acts))
  {
    var job := Job(DataOf(c, u.acts), t.nodes);
    var up := AnyRun(c, t.buffer, t.nodes, u.span, u.acts);
    forall id | Inner(c, id)
      ensures
        var nodes := AfterUse(c, t, u).nodes;
        && id in nodes && nodes[id].state == AddInt32(AddInt32(state))
        && nodes[id].right == NodeHash(c.hash, job.data, id.level - 1, 2 * id.index + 1)
    {
      FullNode(c, job, StateAfter(c, t, u), up, id);
    }
  }

  // ----- many chunks -----

  /** The int32 value of a count up to 2^31. */
  function Int32(x: int): int {
    if x > MAX_INT32 then x + 2 * MIN_INT32 else x
  }

  /** Whatever the chunks and the schedules were: after n full ones every toggle stands at 2 n, and after 2^30 at -2^31. */
  lemma {:induction false} TogglesCount(c: Conf, t: Pooled, uses: seq<Use>, n: nat)
    requires Uniform(c, t, Int32(2 * n)) && n + |uses| <= FULL_USES && FullUses(c, t, uses)
    ensures Uniform(c, AfterUses(c, t, uses), Int32(2 * (n + |uses|)))
    ensures uses != [] ==> RightsOf(c, AfterUses(c, t, uses), DataOf(c, uses[|uses| - 1].acts))
    decreases |uses|
  {
    if uses != [] {
      FullUseWears(c, t, uses[0], 2 * n);
      TogglesCount(c, AfterUse(c, t, uses[0]), uses[1..], n + 1);
      assert |uses| > 1 ==> uses[1..][|uses| - 2] == uses[|uses| - 1];
    }
  }

  // ----- such uses exist -----

  /** From every state some schedule lets all goroutines end. */
  lemma {:induction false} SomeScheduleEnds(c: Conf, job: Job, st: State, up: History) returns (runs: seq<Action>)
    requires Inv(c, job, st, up)
    ensures forall i :: 0 <= i < |runs| ==> runs[i].Run?
    ensures AllEnded(Exec(c, st, runs).threads) && Exec(c, st, runs).hashed == st.hashed
    decreases Work(c, st.threads)
  {
    if AllEnded(st.threads) {
      runs := [];
    } else {
      var i: nat :| i < |st.threads| && !st.threads[i].Ended?;
      StepWorks(c, job, st, up, i);
      var up' := RunActKeeps(c, job, st, up, i);
      var rest := SomeScheduleEnds(c, job, Step(c, st, i), up');
      runs := [Run(i)] + rest;
      ExecFirst(c, st, Run(i), rest);
    }
  }

  lemma ExecFirst(c: Conf, st: State, a: Action, rest: seq<Action>)
    requires Fits(c, st)
    ensures Exec(c, st, [a] + rest) == Exec(c, Act(c, st, a), rest)
  {
    assert ([a] + rest)[1..] == rest;
  }

  lemma {:induction false} ExecSplit(c: Conf, st: State, first: seq<Action>, rest: seq<Action>)
    requires Fits(c, st)
    ensures Exec(c, st, first + rest) == Exec(c, Exec(c, st, first), rest)
    decreases |first|
  {
    if first == [] {
      assert first + rest == rest;
    } else {
      assert (first + rest)[1..] == first[1..] + rest;
      ExecSplit(c, Act(c, st, first[0]), first[1..], rest);
    }
  }

  lemma DataWritten(c: Conf, data: bytes, runs: seq<Action>)
    requires |data| <= c.maxSize
    ensures DataOf(c, [CallWrite(data), CallHash] + runs) == data
  {
    var acts := [CallWrite(data), CallHash] + runs;
    var afterWrite := [CallHash] + runs;
    assert acts[1..] == afterWrite && afterWrite[1..] == runs && data[..|data|] == data;
    NothingAfterHash(c, |data|, runs);
    assert Remaining(c, |data|, false, afterWrite) == [];
  }

  /** A tree that is ready for use can hash any chunk of full size. */
  lemma SomeFullUse(c: Conf, t: Pooled, span: bytes, data: bytes) returns (u: Use)
    requires TreeFits(c, t) && ReadyTree(c, t.nodes) && |data| == c.maxSize
    ensures FullUse(c, t, u) && DataOf(c, u.acts) == data
  {
    var calls := [CallWrite(data), CallHash];
    var job := Job(data, t.nodes);
    DataWritten(c, data, []);
    assert calls + [] == calls;
    var up := AnyRun(c, t.buffer, t.nodes, span, calls);
    var called := Exec(c, Fresh(t.buffer, t.nodes, span), calls);
    ExecFirst(c, Fresh(t.buffer, t.nodes, span), CallWrite(data), [CallHash] + []);
    ExecFirst(c, WriteCall(c, Fresh(t.buffer, t.nodes, span), data), CallHash, []);
    assert [CallWrite(data)] + ([CallHash] + []) == calls;
    var runs := SomeScheduleEnds(c, job, called, up);
    u := Use(span, calls + runs);
    ExecSplit(c, Fresh(t.buffer, t.nodes, span), calls, runs);
    DataWritten(c, data, runs);
    HashArrives(c, t.buffer, t.nodes, span, u.acts);
  }

  lemma UniformIsReady(c: Conf, t: Pooled, state: int)
    requires Uniform(c, t, state) && Reusable(state)
    ensures ReadyTree(c, t.nodes)
  {
  }

  /** So a tree can in fact serve that many chunks. */
  lemma {:induction false} SomeFullUses(c: Conf, t: Pooled, span: bytes, data: bytes, n: nat, more: nat) returns (uses: seq<Use>)
    requires Uniform(c, t, Int32(2 * n)) && n + more <= FULL_USES && |data| == c.maxSize
    ensures |uses| == more && FullUses(c, t, uses)
    ensures forall i :: 0 <= i < |uses| ==> DataOf(c, uses[i].acts) == data
    decreases more
  {
    if more == 0 {
      uses := [];
    } else {
      UniformIsReady(c, t, 2 * n);
      var u := SomeFullUse(c, t, span, data);
      FullUseWears(c, t, u, 2 * n);
      var rest := SomeFullUses(c, AfterUse(c, t, u), span, data, n + 1, more - 1);
      uses := [u] + rest;
      assert uses[1..] == rest;
    }
  }

  // ----- the chunk after that -----

  function Repeat(a: Action, n: nat): seq<Action> {
    if n == 0 then [] else [a] + Repeat(a, n - 1)
  }

  /** What the goroutine of the first section carries up the left edge when no toggle stops it. */
  function LoneClimb(c: Conf, nodes: map<NodeId, Node>, s: bytes, level: nat): bytes
    decreases c.depth - level
  {
    if level >= c.depth then s
    else LoneClimb(c, nodes, c.hash(s + NodeAt(nodes, NodeId(level, 0)).right), level + 1)
  }

  /** The goroutine of the first section, on its way up with a hash. */
  function FirstAt(level: nat, s: bytes): Thread {
    Running(level, 0, true, Some(s), false, Write)
  }

  /** In every state but the even ones that are not negative, the first to arrive is not stopped. */
  predicate Worn(state: int) {
    !Active(AddInt32(state))
  }

  lemma WornIff(state: int)
    requires MIN_INT32 <= state <= MAX_INT32
    ensures Worn(state) <==> !Reusable(state)
  {
  }

  ghost function PassOne(c: Conf, st: State): State
    requires Fits(c, st)
  {
    Exec(c, st, Repeat(Run(0), 3))
  }

  /** Passing one worn node takes three steps and does not wait for the right segment. */
  lemma PassesWornNode(c: Conf, st: State, level: nat, s: bytes)
    requires Fits(c, st) && 1 <= level < c.depth && |st.threads| > 0 && st.threads[0] == FirstAt(level, s)
    requires Worn(NodeAt(st.nodes, NodeId(level, 0)).state)
    ensures
      var n := NodeAt(st.nodes, NodeId(level, 0));
      var next := PassOne(c, st);
      && next == st.(nodes := next.nodes, threads := next.threads)
      && |next.threads| == |st.threads| && next.threads[0] == FirstAt(level + 1, c.hash(s + n.right))
      && next.nodes == st.nodes[NodeId(level, 0) := Node(AddInt32(n.state), s, n.right)]
  {
    var st1 := Step(c, st, 0);
    var st2 := Step(c, st1, 0);
    var st3 := Step(c, st2, 0);
    var id := NodeId(level, 0);
    assert st1.nodes[id].state == NodeAt(st.nodes, id).state;
    assert st2.threads[0].pc == Hash;
    ExecFirst(c, st2, Run(0), []);
    ExecFirst(c, st1, Run(0), [Run(0)] + []);
    ExecFirst(c, st, Run(0), [Run(0)] + ([Run(0)] + []));
    assert Repeat(Run(0), 3) == [Run(0)] + ([Run(0)] + ([Run(0)] + []));
    assert st3.nodes == st.nodes[id := Node(AddInt32(NodeAt(st.nodes, id).state), s, NodeAt(st.nodes, id).right)];
  }

  lemma {:induction false} RepeatSplit(a: Action, m: nat, n: nat)
    ensures Repeat(a, m + n) == Repeat(a, m) + Repeat(a, n)
    decreases m
  {
    if m > 0 {
      RepeatSplit(a, m - 1, n);
    }
  }

  lemma {:induction false} LoneClimbElsewhere(c: Conf, nodes: map<NodeId, Node>, id: NodeId, n: Node, s: bytes, level: nat)
    requires id.level < level
    ensures LoneClimb(c, nodes[id := n], s, level) == LoneClimb(c, nodes, s, level)
    decreases c.depth - level
  {
    if level < c.depth {
      LoneClimbElsewhere(c, nodes, id, n, c.hash(s + NodeAt(nodes, NodeId(level, 0)).right), level + 1);
    }
  }

  ghost predicate WornAbove(c: Conf, nodes: map<NodeId, Node>, level: nat) {
    forall k: nat :: level <= k < c.depth ==> Worn(NodeAt(nodes, NodeId(k, 0)).state)
  }

  lemma {:induction false} ClimbsAlone(c: Conf, st: State, level: nat, s: bytes)
    requires Fits(c, st) && 1 <= level <= c.depth && |st.threads| > 0 && st.threads[0] == FirstAt(level, s)
    requires WornAbove(c, st.nodes, level)
    ensures
      var end := Exec(c, st, Repeat(Run(0), 3 * (c.depth - level) + 1));
      && end.results == st.results + [LoneClimb(c, st.nodes, s, level)]
      && end.hashed == st.hashed && end.size == st.size && end.span == st.span
    decreases c.depth - level
  {
    if level == c.depth {
      SendsAlone(c, st, s);
    } else {
      var n := NodeAt(st.nodes, NodeId(level, 0));
      var t := c.hash(s + n.right);
      PassesWornNode(c, st, level, s);
      WornElsewhere(c, st.nodes, level, Node(AddInt32(n.state), s, n.right));
      ClimbsAlone(c, PassOne(c, st), level + 1, t);
      LoneClimbElsewhere(c, st.nodes, NodeId(level, 0), Node(AddInt32(n.state), s, n.right), t, level + 1);
      ClimbSplits(c, st, level);
    }
  }

  lemma ClimbSplits(c: Conf, st: State, level: nat)
    requires Fits(c, st) && level < c.depth
    ensures Exec(c, st, Repeat(Run(0), 3 * (c.depth - level) + 1)) ==
      Exec(c, PassOne(c, st), Repeat(Run(0), 3 * (c.depth - (level + 1)) + 1))
  {
    var n := 3 * (c.depth - (level + 1)) + 1;
    assert 3 * (c.depth - level) + 1 == 3 + n;
    RepeatSplit(Run(0), 3, n);
    ExecSplit(c, st, Repeat(Run(0), 3), Repeat(Run(0), n));
  }

  lemma WornElsewhere(c: Conf, nodes: map<NodeId, Node>, level: nat, n: Node)
    requires WornAbove(c, nodes, level)
    ensures WornAbove(c, nodes[NodeId(level, 0) := n], level + 1)
  {
  }

  lemma SendsAlone(c: Conf, st: State, s: bytes)
    requires Fits(c, st) && 1 <= c.depth && |st.threads| > 0 && st.threads[0] == FirstAt(c.depth, s)
    ensures
      var end := Exec(c, st, Repeat(Run(0), 1));
      && end.results == st.results + [s]
      && end.hashed == st.hashed && end.size == st.size && end.span == st.span
  {
    ExecFirst(c, st, Run(0), []);
    assert Repeat(Run(0), 1) == [Run(0)] + [];
  }

  /** The schedule that lets only the goroutine of the first section run. */
  function LoneSchedule(c: Conf, data: bytes): seq<Action>
    requires c.depth >= 1
  {
    [CallWrite(data)] + ([CallHash] + ([Run(0)] + Repeat(Run(0), 3 * (c.depth - 1) + 1)))
  }

  lemma AtLeastTwoSections(c: Conf)
    requires ValidConf(c) && c.depth >= 2
    ensures c.maxSize >= 128 && c.maxSize % 64 == 0
  {
    SubtreeSizeIsPower(c.depth - 1);
  }

  lemma LoneStart(c: Conf, t: Pooled, span: bytes, data: bytes)
    requires TreeFits(c, t) && c.depth >= 2 && |data| == c.maxSize
    ensures
      var st := Step(c, HashCall(c, WriteCall(c, Fresh(t.buffer, t.nodes, span), data)), 0);
      && st.threads[0] == FirstAt(1, c.hash(data[..64])) && |st.threads| > 0 && Fits(c, st)
      && st.nodes == t.nodes && st.results == [] && st.hashed && st.size == c.maxSize && st.span == span
  {
    AtLeastTwoSections(c);
    var st0 := Fresh(t.buffer, t.nodes, span);
    var st1 := WriteCall(c, st0, data);
    assert st1.buffer == data;
    assert st1.threads[0] == Spawned(0, false);
    var st2 := HashCall(c, st1);
    assert st2.buffer == data && st2.threads[0] == Spawned(0, false);
    assert BufferSection(st2.buffer, 0) == data[..64];
  }

  /** On a worn tree Hash can return a digest that mixes the first section with what the chunk before left behind. */
  lemma WornTreeHashesStaleSegments(c: Conf, t: Pooled, state: int, span: bytes, data: bytes)
    requires Uniform(c, t, state) && Worn(state) && c.depth >= 2 && |data| == c.maxSize
    ensures
      Digest(c, Exec(c, Fresh(t.buffer, t.nodes, span), LoneSchedule(c, data))) ==
      Some(c.hash(span + LoneClimb(c, t.nodes, c.hash(data[..64]), 1)))
  {
    var st0 := Fresh(t.buffer, t.nodes, span);
    var st1 := WriteCall(c, st0, data);
    var st2 := HashCall(c, st1);
    var st3 := Step(c, st2, 0);
    LoneStart(c, t, span, data);
    forall k: nat | 1 <= k < c.depth ensures Worn(NodeAt(st3.nodes, NodeId(k, 0)).state) {
      assert Inner(c, NodeId(k, 0));
    }
    ClimbsAlone(c, st3, 1, c.hash(data[..64]));
    var runs := Repeat(Run(0), 3 * (c.depth - 1) + 1);
    ExecFirst(c, st2, Run(0), runs);
    ExecFirst(c, st1, CallHash, [Run(0)] + runs);
    ExecFirst(c, st0, CallWrite(data), [CallHash] + ([Run(0)] + runs));
  }

  /** What arrives at the root node from the left, on the lone climb. */
  function LoneLeft(c: Conf, nodes: map<NodeId, Node>, s: bytes, level: nat): bytes
    decreases c.depth - level
  {
    if level + 1 >= c.depth then s
    else LoneLeft(c, nodes, c.hash(s + NodeAt(nodes, NodeId(level, 0)).right), level + 1)
  }

  lemma {:induction false} LoneRoot(c: Conf, nodes: map<NodeId, Node>, s: bytes, level: nat)
    requires 1 <= level < c.depth && IsHash(c.hash) && |s| == HASH_SIZE
    ensures |LoneLeft(c, nodes, s, level)| == HASH_SIZE
    ensures LoneClimb(c, nodes, s, level) ==
      c.hash(LoneLeft(c, nodes, s, level) + NodeAt(nodes, NodeId(c.depth - 1, 0)).right)
    decreases c.depth - level
  {
    if level + 1 < c.depth {
      LoneRoot(c, nodes, c.hash(s + NodeAt(nodes, NodeId(level, 0)).right), level + 1);
    } else {
      var t := c.hash(s + NodeAt(nodes, NodeId(level, 0)).right);
      assert LoneClimb(c, nodes, t, level + 1) == t;
    }
  }

  lemma SameTail(a: bytes, b: bytes, x: bytes, y: bytes)
    requires |a| == |x| && a + b == x + y
    ensures b == y
  {
    assert (a + b)[|a|..] == b && (x + y)[|x|..] == y;
  }

  /** Two nodes with different right segments have different hashes, and so have the digests above them, or the base hash collides. */
  lemma DifferentTops(h: HashFn, span: bytes, left: bytes, stale: bytes, ownLeft: bytes, own: bytes)
    requires IsHash(h) && |left| == |ownLeft| && stale != own
    ensures
      var l, r := left + stale, ownLeft + own;
      || h(span + h(l)) != h(span + h(r))
      || Collide(h, span + h(l), span + h(r))
      || Collide(h, l, r)
  {
    if left + stale == ownLeft + own {
      SameTail(left, stale, ownLeft, own);
      assert false;
    }
    if span + h(left + stale) == span + h(ownLeft + own) {
      SameTail(span, h(left + stale), span, h(ownLeft + own));
    }
  }

  /** The right segment of the root node, as the last of the given uses has left it. */
  lemma WornRoot(c: Conf, t: Pooled, uses: seq<Use>)
    requires Uniform(c, t, 0) && |uses| == FULL_USES && FullUses(c, t, uses) && c.depth >= 2
    ensures Uniform(c, AfterUses(c, t, uses), MIN_INT32)
    ensures NodeAt(AfterUses(c, t, uses).nodes, NodeId(c.depth - 1, 0)).right ==
      NodeHash(c.hash, DataOf(c, uses[FULL_USES - 1].acts), c.depth - 2, 1)
  {
    TogglesCount(c, t, uses, 0);
    assert Inner(c, NodeId(c.depth - 1, 0));
  }

  /** The strings hashed at the root, with the stale right segment and with the data's own, collide, or those hashed for the digest. */
  ghost predicate TopsCollide(c: Conf, worn: Pooled, stale: bytes, span: bytes, data: bytes)
    requires TreeFits(c, worn) && c.depth >= 2 && |data| == c.maxSize
  {
    var l := LoneLeft(c, worn.nodes, c.hash(data[..64]), 1) + stale;
    var r := NodeHash(c.hash, data, c.depth - 2, 0) + NodeHash(c.hash, data, c.depth - 2, 1);
    Collide(c.hash, span + c.hash(l), span + c.hash(r)) || Collide(c.hash, l, r)
  }

  /** The digest on a worn tree is not the chunk's own, or the base hash collides at the top. */
  ghost predicate Misleads(c: Conf, worn: Pooled, stale: bytes, span: bytes, data: bytes)
    requires TreeFits(c, worn) && c.depth >= 2 && |data| == c.maxSize
  {
    var digest := Digest(c, Exec(c, Fresh(worn.buffer, worn.nodes, span), LoneSchedule(c, data)));
    digest.Some? && (digest.value != RefDigest(c, span, data) || TopsCollide(c, worn, stale, span, data))
  }

  lemma RootHash(c: Conf, span: bytes, data: bytes)
    requires ValidConf(c) && c.depth >= 2
    ensures RefDigest(c, span, data) ==
      c.hash(span + c.hash(NodeHash(c.hash, data, c.depth - 2, 0) + NodeHash(c.hash, data, c.depth - 2, 1)))
  {
    RefDigestIsRoot(c, span, data);
  }

  lemma WornDigest(c: Conf, worn: Pooled, state: int, stale: bytes, span: bytes, data: bytes)
    requires Uniform(c, worn, state) && Worn(state) && c.depth >= 2 && |data| == c.maxSize
    requires NodeAt(worn.nodes, NodeId(c.depth - 1, 0)).right == stale
    ensures |LoneLeft(c, worn.nodes, c.hash(data[..64]), 1)| == HASH_SIZE
    ensures
      Digest(c, Exec(c, Fresh(worn.buffer, worn.nodes, span), LoneSchedule(c, data))) ==
      Some(c.hash(span + c.hash(LoneLeft(c, worn.nodes, c.hash(data[..64]), 1) + stale)))
  {
    WornTreeHashesStaleSegments(c, worn, state, span, data);
    LoneRoot(c, worn.nodes, c.hash(data[..64]), 1);
  }

  lemma TopsDiffer(c: Conf, worn: Pooled, stale: bytes, span: bytes, data: bytes, digest: bytes, left: bytes, own: bytes)
    requires TreeFits(c, worn) && c.depth >= 2 && |data| == c.maxSize
    requires left == LoneLeft(c, worn.nodes, c.hash(data[..64]), 1) && |left| == HASH_SIZE
    requires own == NodeHash(c.hash, data, c.depth - 2, 1) && stale != own
    requires digest == c.hash(span + c.hash(left + stale))
    ensures digest != RefDigest(c, span, data) || TopsCollide(c, worn, stale, span, data)
  {
    RootHash(c, span, data);
    var ownLeft := NodeHash(c.hash, data, c.depth - 2, 0);
    NodeHashLength(c.hash, data, c.depth - 2, 0);
    DifferentTops(c.hash, span, left, stale, ownLeft, own);
  }

  lemma WornTreeMisleads(c: Conf, worn: Pooled, state: int, stale: bytes, span: bytes, data: bytes)
    requires Uniform(c, worn, state) && Worn(state) && c.depth >= 2 && |data| == c.maxSize
    requires NodeAt(worn.nodes, NodeId(c.depth - 1, 0)).right == stale && stale != NodeHash(c.hash, data, c.depth - 2, 1)
    ensures Misleads(c, worn, stale, span, data)
  {
    var left := LoneLeft(c, worn.nodes, c.hash(data[..64]), 1);
    WornDigest(c, worn, state, stale, span, data);
    TopsDiffer(c, worn, stale, span, data, c.hash(span + c.hash(left + stale)), left,
               NodeHash(c.hash, data, c.depth - 2, 1));
  }

  /**
   The bound on reuse is real, for every depth, every 2^30 chunks of full size and every schedule
   they were hashed under (SomeFullUses: there are such): a further chunk whose right half hashes
   differently from that of the last one can get a digest that is not its own, or the base hash
   has an explicit collision.
   */
  lemma ReuseBeyondBoundFails(c: Conf, t: Pooled, uses: seq<Use>, span: bytes, data: bytes)
    requires Uniform(c, t, 0) && |uses| == FULL_USES && FullUses(c, t, uses) && c.depth >= 2 && |data| == c.maxSize
    requires
      NodeHash(c.hash, DataOf(c, uses[FULL_USES - 1].acts), c.depth - 2, 1) != NodeHash(c.hash, data, c.depth - 2, 1)
    ensures
      Misleads(c, AfterUses(c, t, uses), NodeHash(c.hash, DataOf(c, uses[FULL_USES - 1].acts), c.depth - 2, 1), span, data)
  {
    WornRoot(c, t, uses);
    WornTreeMisleads(c, AfterUses(c, t, uses), MIN_INT32,
                     NodeHash(c.hash, DataOf(c, uses[FULL_USES - 1].acts), c.depth - 2, 1), span, data);
  }

  // ----- exactly when a tree is good -----

  ghost predicate RightFor(c: Conf, t: Pooled, span: bytes, acts: seq<Action>)
    requires TreeFits(c, t)
  {
    var digest := Digest(c, Exec(c, Fresh(t.buffer, t.nodes, span), acts));
    digest.Some? ==> digest.value == RefDigest(c, span, DataOf(c, acts))
  }

  /** Whatever is written and however it is scheduled, the digest is the reference digest. */
  ghost predicate AlwaysRight(c: Conf, t: Pooled)
    requires TreeFits(c, t)
  {
    forall span, acts :: RightFor(c, t, span, acts)
  }

  /** Two data of full size that differ in every byte. */
  function AllZeros(c: Conf): bytes {
    Zeros(c.maxSize)
  }

  function AllOnes(c: Conf): bytes {
    seq(c.maxSize, i => 1)
  }

  /** Of the two, one has another hash in the right half than v, or their right halves collide. */
  lemma OneDiffers(c: Conf, v: bytes)
    requires ValidConf(c) && c.depth >= 2
    ensures
      || NodeHash(c.hash, AllZeros(c), c.depth - 2, 1) != v
      || NodeHash(c.hash, AllOnes(c), c.depth - 2, 1) != v
      || CollideBelow(c.hash, AllZeros(c), AllOnes(c), c.depth - 2, 1)
  {
    var i := FirstBelow(c.depth - 2, 1);
    SubtreeSizeIsPower(c.depth - 1);
    FirstBelowIsPower(c.depth - 2, 1);
    assert Section(AllZeros(c), i)[0] != Section(AllOnes(c), i)[0];
    DifferentHashes(c.hash, AllZeros(c), AllOnes(c), c.depth - 2, 1);
  }

  lemma {:induction false} FirstBelowIsPower(height: nat, index: nat)
    ensures FirstBelow(height, index) == index * Pow2(height)
  {
    if height > 0 {
      FirstBelowIsPower(height - 1, 2 * index);
    }
  }

  lemma LoneData(c: Conf, data: bytes)
    requires TreeSized(c) && |data| == c.maxSize
    ensures DataOf(c, LoneSchedule(c, data)) == data
  {
    var runs := [Run(0)] + Repeat(Run(0), 3 * (c.depth - 1) + 1);
    assert LoneSchedule(c, data) == [CallWrite(data), CallHash] + runs;
    DataWritten(c, data, runs);
  }

  ghost predicate TreeSized(c: Conf) {
    c.depth >= 1 && 64 <= c.maxSize
  }

  lemma GoodIsAlwaysRight(c: Conf, t: Pooled, state: int)
    requires Uniform(c, t, state) && c.depth >= 2 && Reusable(state)
    ensures AlwaysRight(c, t)
  {
    UniformIsReady(c, t, state);
    forall span, acts ensures RightFor(c, t, span, acts) {
      HashIsReference(c, t.buffer, t.nodes, span, acts);
    }
  }

  /** The right segment the last user has left at the root. */
  function StaleTop(c: Conf, t: Pooled): bytes
    requires TreeFits(c, t) && c.depth >= 2
  {
    NodeAt(t.nodes, NodeId(c.depth - 1, 0)).right
  }

  /** One of finitely many pairs of strings that the tree and the two data determine is a collision of the base hash. */
  ghost predicate KnownCollision(c: Conf, t: Pooled)
    requires TreeFits(c, t) && c.depth >= 2
  {
    || CollideBelow(c.hash, AllZeros(c), AllOnes(c), c.depth - 2, 1)
    || TopsCollide(c, t, StaleTop(c, t), Zeros(8), AllZeros(c))
    || TopsCollide(c, t, StaleTop(c, t), Zeros(8), AllOnes(c))
  }

  /**
   A tree whose toggles all stand at one int32 state hashes right under every schedule if and only
   if the state is even and not negative, unless one of the known pairs of strings is a collision.
   */
  lemma AlwaysRightIff(c: Conf, t: Pooled, state: int)
    requires Uniform(c, t, state) && c.depth >= 2 && MIN_INT32 <= state <= MAX_INT32
    ensures Reusable(state) ==> AlwaysRight(c, t)
    ensures AlwaysRight(c, t) ==> Reusable(state) || KnownCollision(c, t)
  {
    WornIff(state);
    if Reusable(state) {
      GoodIsAlwaysRight(c, t, state);
    } else {
      OneDiffers(c, StaleTop(c, t));
      if NodeHash(c.hash, AllZeros(c), c.depth - 2, 1) != StaleTop(c, t) {
        WornIsNotRight(c, t, state, AllZeros(c));
      } else if NodeHash(c.hash, AllOnes(c), c.depth - 2, 1) != StaleTop(c, t) {
        WornIsNotRight(c, t, state, AllOnes(c));
      }
    }
  }

  lemma WornIsNotRight(c: Conf, t: Pooled, state: int, data: bytes)
    requires Uniform(c, t, state) && Worn(state) && c.depth >= 2 && |data| == c.maxSize
    requires NodeHash(c.hash, data, c.depth - 2, 1) != StaleTop(c, t)
    ensures !AlwaysRight(c, t) || TopsCollide(c, t, StaleTop(c, t), Zeros(8), data)
  {
    WornTreeMisleads(c, t, state, StaleTop(c, t), Zeros(8), data);
    LoneData(c, data);
    if AlwaysRight(c, t) {
      assert RightFor(c, t, Zeros(8), LoneSchedule(c, data));
    }
  }
}
