/**
 The hasher as an object: fields, shared buffer and nodes are updated in place, goroutines follow
 parent pointers. Every method is tied to the transition system, so all theorems about runs apply.
 */
module BmtHasher {
  import opened Wrappers

  import opened Bytes
  import opened BmtConf
  import opened BmtReference
  import opened BmtMachine
  import opened BmtTree
  import BmtProof

  /** The local variables of one goroutine. */
  datatype Routine = Routine(
    section: nat,
    n: TreeNode?,
    level: nat,
    isLeft: bool,
    s: Option<bytes>,
    final: bool,
    pc: Pc,
    ended: bool)

  /** A goroutine as the transition system describes it. */
  ghost predicate Matches(c: Conf, at: Layout, r: Routine, t: Thread) {
    && r.ended == t.Ended?
    && r.final == t.final
    && r.level == t.level
    && (t.Running? ==>
          && r.pc == t.pc
          && t.level <= c.depth
          && (t.pc == Leaf <==> t.level == 0)
          && (t.level == c.depth ==> t.pc == Write && r.n == null)
          && (t.pc == Leaf ==> r.section == t.index && NodeId(0, t.index) in at)
          && (t.pc != Leaf ==> r.isLeft == t.fromLeft && r.s == t.s && (!t.final ==> t.s.Some?))
          && (t.pc != Leaf && t.level < c.depth ==>
                var id := NodeId(t.level, t.index);
                id in at && r.n == at[id]))
  }

  ghost predicate AllMatch(c: Conf, at: Layout, rs: seq<Routine>, ts: seq<Thread>) {
    |rs| == |ts| && forall i :: 0 <= i < |ts| ==> Matches(c, at, rs[i], ts[i])
  }

  lemma MatchReplaced(c: Conf, at: Layout, rs: seq<Routine>, ts: seq<Thread>, i: nat, r: Routine, t: Thread)
    requires AllMatch(c, at, rs, ts) && i < |ts| && Matches(c, at, r, t)
    ensures AllMatch(c, at, rs[i := r], ts[i := t])
  {
  }

  /** isLeft = n.isLeft; n = n.parent; level++ */
  function ToParent(r: Routine, s: Option<bytes>): Routine
    requires r.n != null
  {
    r.(isLeft := r.n.isLeft, n := r.n.parent, level := r.level + 1, s := s, pc := Pc.Write)
  }

  lemma ParentMatches(c: Conf, at: Layout, r: Routine, t: Thread, s: Option<bytes>)
    requires Linked(c.depth, at) && Matches(c, at, r, t)
    requires t.Running? && 1 <= t.level < c.depth && (t.final || s.Some?)
    ensures r.n != null && Matches(c, at, ToParent(r, s), Climb(t, s))
  {
    assert Hooked(c.depth, at, NodeId(t.level, t.index));
  }

  class Hasher {
    const conf: Conf
    const bmt: Tree
    var size: nat
    var pos: nat
    var offset: nat
    var span: bytes
    var routines: seq<Routine>
    var result: seq<bytes>
    var hashed: bool
    ghost var threads: seq<Thread>

    ghost predicate Valid()
      reads this
    {
      && ValidConf(conf) && 64 <= conf.maxSize
      && bmt.Valid(conf)
      && size <= conf.maxSize
      && (size > 0 ==> pos == OpenSection(conf, size))
      && AllMatch(conf, bmt.at, routines, threads)
    }

    /** The state of the transition system this object stands for. */
    ghost function Abs(): State
      reads this, bmt.buffer, bmt.at.Values
    {
      State(size, pos, offset, span, bmt.buffer[..], NodesOf(bmt.at), threads, result, hashed)
    }

    /** Pool.Get: a new hasher on a tree some earlier hasher may have left behind. */
    constructor (conf: Conf, bmt: Tree)
      requires ValidConf(conf) && bmt.Valid(conf)
      ensures Valid() && this.conf == conf && this.bmt == bmt
      ensures Abs() == Fresh(bmt.buffer[..], NodesOf(bmt.at), Zeros(8))
    {
      this.conf, this.bmt := conf, bmt;
      size, pos, offset, span := 0, 0, 0, Zeros(8);
      routines, result, hashed := [], [], false;
      threads := [];
      new;
      AtLeastOneSection(conf);
    }

    /** Reset: ready for another chunk once the goroutines of the last one are done. */
    method Reset()
      requires Valid()
      modifies this
      ensures Valid() && Abs() == Fresh(bmt.buffer[..], NodesOf(bmt.at), Zeros(8))
    {
      pos, size, offset, span := 0, 0, 0, Zeros(8);
      routines, result, hashed := [], [], false;
      threads := [];
    }

    method SetHeader(span: bytes)
      requires Valid() && |this.span| == 8
      modifies this`span
      ensures Valid() && Abs() == old(Abs()).(span := CopyInto(old(this.span), 0, span))
    {
      this.span := CopyInto(this.span, 0, span);
    }

    /** copy(h.bmt.buffer[at:], b) for as much of b as fits. */
    method CopyToBuffer(at: nat, b: bytes)
      requires bmt.buffer.Length == conf.maxSize && at <= conf.maxSize
      modifies bmt.buffer
      ensures bmt.buffer[..] == CopyInto(old(bmt.buffer[..]), at, b)
    {
      var buffer := bmt.buffer;
      var l := if |b| <= buffer.Length - at then |b| else buffer.Length - at;
      forall j | 0 <= j < l {
        buffer[at + j] := b[j];
      }
      assert buffer[..] == CopyInto(old(buffer[..]), at, b);
    }

    /** The loop of go statements in Write. */
    method StartSections(from: nat, to: nat)
      requires Valid() && 64 * to <= size
      modifies this`routines, this`threads
      ensures Valid() && threads == old(threads) + SpawnedBetween(from, to)
    {
      var i := from;
      while i < to
        invariant from <= i && (i <= to || i == from)
        invariant Valid()
        invariant threads == old(threads) + SpawnedBetween(from, i)
      {
        SectionInTree(conf, bmt.at, i, size);
        routines := routines + [Routine(i, null, 0, true, None, false, Leaf, false)];
        threads := threads + [Spawned(i, false)];
        i := i + 1;
      }
      assert SpawnedBetween(from, i) == SpawnedBetween(from, to);
    }

    method Write(b: bytes) returns (l: nat)
      requires Valid() && !hashed
      modifies this, bmt.buffer
      ensures Valid() && l == Taken(conf, old(size), b)
      ensures Abs() == WriteCall(conf, old(Abs()), b)
    {
      l := |b|;
      var max := conf.maxSize - size;
      if l > max {
        l := max;
      }
      CopyToBuffer(size, b);
      var from := size / 64;
      offset := size % 64;
      size := size + l;
      var to := size / 64;
      if l == max {
        to := to - 1;
      }
      pos := to;
      StartSections(from, to);
      NodesKept(bmt.at);
    }

    /** Hash up to the select: pads the open section and starts the final goroutine. */
    method BeginHash()
      requires Valid() && !hashed
      modifies this, bmt.buffer
      ensures Valid() && Abs() == HashCall(conf, old(Abs()))
    {
      hashed := true;
      if size == 0 {
        return;
      }
      CopyToBuffer(size, Zeros(64));
      LastInTree(conf, bmt.at, size);
      routines := routines + [Routine(pos, null, 0, true, None, true, Leaf, false)];
      threads := threads + [Spawned(pos, true)];
      NodesKept(bmt.at);
    }

    /** The end of Hash: what it returns, if a result is there to receive. */
    method EndHash() returns (digest: Option<bytes>)
      requires Valid()
      ensures digest == Digest(conf, Abs())
    {
      if !hashed {
        digest := None;
      } else if size == 0 {
        digest := Some(conf.hash(span + conf.zerohashes[conf.depth]));
      } else if result == [] {
        digest := None;
      } else {
        digest := Some(conf.hash(span + result[0]));
      }
    }

    /** A goroutine's local variables change. */
    method Move(i: nat, r: Routine, ghost t: Thread)
      requires Valid() && i < |threads| && Matches(conf, bmt.at, r, t)
      modifies this`routines, this`threads
      ensures Valid() && routines == old(routines)[i := r]
      ensures Abs() == old(Abs()).(threads := old(threads)[i := t])
    {
      MatchReplaced(conf, bmt.at, routines, threads, i, r, t);
      routines := routines[i := r];
      threads := threads[i := t];
      NodesKept(bmt.at);
    }

    /** processSection: hashes the section and turns to the parent of its leaf node. */
    method ProcessSection(i: nat)
      requires Valid() && i < |threads| && threads[i].Running? && threads[i].pc == Leaf
      modifies this
      ensures Valid() && Abs() == LeafStep(conf, old(Abs()), i)
    {
      var r := routines[i];
      ghost var id := NodeId(0, threads[i].index);
      assert Matches(conf, bmt.at, r, threads[i]);
      SectionInBuffer(conf, bmt.at, r.section);
      var n := bmt.leaves[r.section];
      var s := conf.hash(bmt.buffer[64 * r.section..64 * r.section + 64]);
      assert n == bmt.at[id] && Hooked(conf.depth, bmt.at, id);
      assert bmt.buffer[..][64 * r.section..64 * r.section + 64] == bmt.buffer[64 * r.section..64 * r.section + 64];
      Move(i, r.(isLeft := n.isLeft, n := n.parent, level := 1, s := Some(s), pc := Pc.Write), Climb(threads[i], Some(s)));
      NodesKept(bmt.at);
    }

    /** writeNode from the top of its loop up to the toggle. */
    method WriteNode(i: nat)
      requires Valid() && i < |threads| && threads[i].Running? && threads[i].pc == Pc.Write && !threads[i].final
      modifies this, bmt.at.Values
      ensures Valid() && Abs() == Step(conf, old(Abs()), i)
    {
      var r := routines[i];
      ghost var t := threads[i];
      assert Matches(conf, bmt.at, r, t);
      if r.n == null {
        result := result + [r.s.value];
        Move(i, r.(ended := true), Ended(t.level, t.final));
      } else {
        if r.isLeft {
          bmt.SetLeft(r.n, r.s.value, NodeId(t.level, t.index));
        } else {
          bmt.SetRight(r.n, r.s.value, NodeId(t.level, t.index));
        }
        Move(i, r.(pc := Toggle), t.(pc := Toggle));
      }
    }

    /** The assignments of writeFinalNode: a missing right sister becomes a zero subtree. */
    method FillNode(n: TreeNode, isLeft: bool, s: Option<bytes>, zero: bytes, ghost id: NodeId)
      requires Injective(bmt.at) && id in bmt.at && bmt.at[id] == n && (isLeft || s.Some?)
      modifies n`left, n`right
      ensures
        var was := old(NodesOf(bmt.at));
        NodesOf(bmt.at) == was[id :=
          if !isLeft then was[id].(right := s.value)
          else if s.Some? then was[id].(left := s.value, right := zero)
          else was[id].(right := zero)]
    {
      if isLeft {
        bmt.SetRight(n, zero, id);
        if s.Some? {
          bmt.SetLeft(n, s.value, id);
        }
      } else {
        bmt.SetRight(n, s.value, id);
      }
    }

    method WriteFinalSegments(i: nat)
      requires Valid() && i < |threads| && threads[i].Running? && threads[i].pc == Pc.Write
      requires threads[i].level < conf.depth && (threads[i].fromLeft || threads[i].s.Some?)
      modifies this, bmt.at.Values
      ensures Valid() && Abs() == FinalWriteStep(conf, old(Abs()), i)
    {
      var r := routines[i];
      ghost var t := threads[i];
      assert Matches(conf, bmt.at, r, t);
      var pc := if r.isLeft && r.s.Some? then Hash else Toggle;
      FillNode(r.n, r.isLeft, r.s, conf.zerohashes[r.level], NodeId(t.level, t.index));
      Move(i, r.(pc := pc), t.(pc := pc));
    }

    /** writeFinalNode from the top of its loop up to the toggle, or past a node without one. */
    method WriteFinalNode(i: nat)
      requires Valid() && i < |threads| && threads[i].Running? && threads[i].pc == Pc.Write && threads[i].final
      modifies this, bmt.at.Values
      ensures Valid() && Abs() == Step(conf, old(Abs()), i)
    {
      var r := routines[i];
      ghost var t := threads[i];
      assert Matches(conf, bmt.at, r, t);
      if r.n == null {
        if r.s.Some? {
          result := result + [r.s.value];
        }
        Move(i, r.(ended := true), Ended(t.level, t.final));
        NodesKept(bmt.at);
      } else if r.isLeft || r.s.Some? {
        WriteFinalSegments(i);
      } else {
        ParentMatches(conf, bmt.at, r, t, None);
        Move(i, ToParent(r, None), Climb(t, None));
        NodesKept(bmt.at);
      }
    }

    /** n.toggle(): the first caller ends, or climbs on with nil. */
    method ToggleNode(i: nat)
      requires Valid() && i < |threads| && threads[i].Running? && threads[i].pc == Toggle
      modifies this, bmt.at.Values
      ensures Valid() && Abs() == ToggleStep(old(Abs()), i)
    {
      ghost var st := ToggleStep(Abs(), i);
      var r := routines[i];
      ghost var t := threads[i];
      assert Matches(conf, bmt.at, r, t);
      ParentMatches(conf, bmt.at, r, t, if t.final then None else r.s);
      var first := bmt.ToggleAt(r.n, NodeId(t.level, t.index));
      assert Abs() == st.(threads := threads);
      if !first {
        Move(i, r.(pc := Hash), t.(pc := Hash));
      } else if r.final {
        Move(i, ToParent(r, None), Climb(t, None));
      } else {
        Move(i, r.(ended := true), Ended(t.level, false));
      }
    }

    /** The second goroutine at a node hashes both segments and goes on to the parent. */
    method HashNode(i: nat)
      requires Valid() && i < |threads| && threads[i].Running? && threads[i].pc == Hash
      modifies this
      ensures Valid() && Abs() == HashStep(conf, old(Abs()), i)
    {
      var r := routines[i];
      ghost var t := threads[i];
      assert Matches(conf, bmt.at, r, t);
      var s := conf.hash(r.n.left + r.n.right);
      ParentMatches(conf, bmt.at, r, t, Some(s));
      Move(i, ToParent(r, Some(s)), Climb(t, Some(s)));
      NodesKept(bmt.at);
    }

    /** One atomic step of goroutine i, whichever is next. */
    method StepRoutine(i: nat)
      requires Valid() && i < |routines| && !routines[i].ended
      modifies this, bmt.at.Values
      ensures Valid() && Abs() == Step(conf, old(Abs()), i)
    {
      assert Matches(conf, bmt.at, routines[i], threads[i]);
      match routines[i].pc {
        case Leaf => ProcessSection(i);
        case Write => if routines[i].final { WriteFinalNode(i); } else { WriteNode(i); }
        case Toggle => ToggleNode(i);
        case Hash => HashNode(i);
      }
    }

    /** A whole run: the caller's calls and the scheduler's choices in one order. */
    method Drive(acts: seq<Action>)
      requires Valid()
      modifies this, bmt.buffer, bmt.at.Values
      ensures Valid() && Abs() == Exec(conf, old(Abs()), acts)
    {
      var k := 0;
      while k < |acts|
        invariant 0 <= k <= |acts|
        invariant Valid()
        invariant Exec(conf, Abs(), acts[k..]) == Exec(conf, old(Abs()), acts)
      {
        assert acts[k..][0] == acts[k] && acts[k..][1..] == acts[k + 1..];
        match acts[k] {
          case CallWrite(b) =>
            if !hashed {
              var l := Write(b);
            }
          case CallHash =>
            if !hashed {
              BeginHash();
            }
          case Run(i) =>
            if i < |routines| && !routines[i].ended {
              StepRoutine(i);
            }
        }
        k := k + 1;
      }
    }
  }

  // ----- inclusion proofs (proof.go) -----

  /** Go's i / 2, which rounds towards zero. */
  function GoHalf(i: int): int {
    if i >= 0 then i / 2 else -((-i) / 2)
  }

  /** Prover.Proof; None where the original panics. */
  method Prove(h: Hasher, i: int) returns (proof: Option<BmtProof.Proof>)
    requires h.Valid()
    ensures proof.Some? <==> 0 <= i <= 127 && i / 2 < |h.bmt.leaves|
    ensures proof.Some? ==> proof.value == BmtProof.ProofOf(h.conf, h.Abs(), i / 2)
  {
    if i < 0 || i > 127 || i / 2 >= |h.bmt.leaves| {
      return None;
    }
    var k := i / 2;
    var leaf := h.bmt.leaves[k];
    var isLeft := leaf.isLeft;
    var n := leaf.parent;
    var sisters: seq<bytes> := [];
    ghost var level := 1;
    ParentOnPath(h.conf, h.bmt.at, k, 0);
    while n != null
      invariant 1 <= level <= h.conf.depth
      invariant OnPath(h.conf, h.bmt.at, k, level, n)
      invariant isLeft == BmtProof.LeftChild(k, level - 1)
      invariant sisters == BmtProof.Sisters(h.Abs().nodes, k, level - 1)
      decreases h.conf.depth - level
    {
      ParentOnPath(h.conf, h.bmt.at, k, level);
      sisters := sisters + [n.GetSister(isLeft)];
      isLeft := n.isLeft;
      n := n.parent;
      level := level + 1;
    }
    SectionInBuffer(h.conf, h.bmt.at, k);
    var section := h.bmt.buffer[64 * k..64 * k + 64];
    assert h.bmt.buffer[..][64 * k..64 * k + 64] == section;
    proof := Some(BmtProof.Proof(section, sisters, h.span));
  }

  /** Prover.Verify; None where the original runs off the tree and panics. */
  method Verify(h: Hasher, i: int, proof: BmtProof.Proof) returns (digest: Option<bytes>)
    requires h.Valid()
    ensures digest.Some? <==> 0 <= GoHalf(i) < |h.bmt.leaves| && |proof.sisters| < h.conf.depth
    ensures digest.Some? ==> digest.value == BmtProof.Verified(h.conf, GoHalf(i), proof)
  {
    var k := GoHalf(i);
    if k < 0 || k >= |h.bmt.leaves| {
      return None;
    }
    var leaf := h.bmt.leaves[k];
    var isLeft := leaf.isLeft;
    var root := h.conf.hash(proof.section);
    var n := leaf.parent;
    ParentOnPath(h.conf, h.bmt.at, k, 0);
    var j := 0;
    while j < |proof.sisters|
      invariant 0 <= j <= |proof.sisters| && j < h.conf.depth
      invariant OnPath(h.conf, h.bmt.at, k, j + 1, n)
      invariant isLeft == BmtProof.LeftChild(k, j)
      invariant root == BmtProof.Climbed(h.conf.hash, k, proof.section, proof.sisters, j)
    {
      if n == null {
        return None;
      }
      ParentOnPath(h.conf, h.bmt.at, k, j + 1);
      root := if isLeft then h.conf.hash(root + proof.sisters[j]) else h.conf.hash(proof.sisters[j] + root);
      isLeft := n.isLeft;
      n := n.parent;
      j := j + 1;
    }
    digest := Some(h.conf.hash(proof.span + root));
  }

  /** n is the node of section k's path on this level, nil above the root. */
  ghost predicate OnPath(c: Conf, at: Layout, k: nat, level: nat, n: TreeNode?) {
    && level <= c.depth
    && (level < c.depth ==> NodeId(level, Anc(k, level)) in at && n == at[NodeId(level, Anc(k, level))])
    && (level == c.depth ==> n == null)
  }

  lemma ParentOnPath(c: Conf, at: Layout, k: nat, level: nat)
    requires Linked(c.depth, at) && level < c.depth && k < Pow2(c.depth - 1)
    ensures
      var id := NodeId(level, Anc(k, level));
      && id in at
      && at[id].isLeft == BmtProof.LeftChild(k, level)
      && OnPath(c, at, k, level + 1, at[id].parent)
  {
    var id := NodeId(level, Anc(k, level));
    AncBound(k, level, c.depth - 1);
    assert InTree(c.depth, id);
    assert Hooked(c.depth, at, id);
  }

  twostate lemma NodesKept(at: Layout)
    requires forall id :: id in at ==> unchanged(at[id])
    ensures NodesOf(at) == old(NodesOf(at))
  {
  }

  lemma SectionInTree(c: Conf, at: Layout, i: nat, size: nat)
    requires ValidConf(c) && Linked(c.depth, at)
    requires 64 * i + 64 <= size <= c.maxSize
    ensures NodeId(0, i) in at
  {
    SubtreeSizeIsPower(c.depth - 1);
    assert InTree(c.depth, NodeId(0, i));
  }

  lemma LastInTree(c: Conf, at: Layout, size: nat)
    requires ValidConf(c) && Linked(c.depth, at)
    requires 0 < size <= c.maxSize && 64 <= c.maxSize
    ensures NodeId(0, OpenSection(c, size)) in at
  {
    SubtreeSizeIsPower(c.depth - 1);
    assert InTree(c.depth, NodeId(0, OpenSection(c, size)));
  }

  lemma SectionInBuffer(c: Conf, at: Layout, i: nat)
    requires ValidConf(c) && Linked(c.depth, at) && (NodeId(0, i) in at || i < Pow2(c.depth - 1))
    ensures i < Pow2(c.depth - 1) && 64 * i + 64 <= c.maxSize
  {
    SubtreeSizeIsPower(c.depth - 1);
    assert NodeId(0, i) in at ==> InTree(c.depth, NodeId(0, i));
  }
}
