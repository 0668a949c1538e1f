/** What the hash of a subtree commits to: equal hashes mean equal sections, or a collision of the base hash. */
module BmtCommit {
  import opened Bytes
  import opened BmtReference

  /** The string hashed at a node of the tree. */
  function NodeInput(h: HashFn, data: bytes, height: nat, index: nat): bytes {
    if height == 0 then Section(data, index)
    else NodeHash(h, data, height - 1, 2 * index) + NodeHash(h, data, height - 1, 2 * index + 1)
  }

  predicate NodesCollide(h: HashFn, a: bytes, b: bytes, height: nat, index: nat) {
    NodeInput(h, a, height, index) != NodeInput(h, b, height, index)
    && h(NodeInput(h, a, height, index)) == h(NodeInput(h, b, height, index))
  }

  /** The two trees collide at one of the nodes below (height, index). */
  predicate CollideBelow(h: HashFn, a: bytes, b: bytes, height: nat, index: nat) {
    NodesCollide(h, a, b, height, index)
    || (height > 0 && (CollideBelow(h, a, b, height - 1, 2 * index) || CollideBelow(h, a, b, height - 1, 2 * index + 1)))
  }

  /** Both data agree on all sections below (height, index). */
  predicate AgreeBelow(a: bytes, b: bytes, height: nat, index: nat) {
    if height == 0 then Section(a, index) == Section(b, index)
    else AgreeBelow(a, b, height - 1, 2 * index) && AgreeBelow(a, b, height - 1, 2 * index + 1)
  }

  lemma HalvesApart(al: bytes, ar: bytes, bl: bytes, br: bytes)
    requires |al| == |bl| && al + ar == bl + br
    ensures al == bl && ar == br
  {
    assert (al + ar)[..|al|] == al && (bl + br)[..|al|] == bl;
    assert (al + ar)[|al|..] == ar && (bl + br)[|al|..] == br;
  }

  lemma {:induction false} SameHashSameData(h: HashFn, a: bytes, b: bytes, height: nat, index: nat)
    requires IsHash(h) && NodeHash(h, a, height, index) == NodeHash(h, b, height, index)
    ensures AgreeBelow(a, b, height, index) || CollideBelow(h, a, b, height, index)
  {
    if height > 0 && !NodesCollide(h, a, b, height, index) {
      var al, ar := NodeHash(h, a, height - 1, 2 * index), NodeHash(h, a, height - 1, 2 * index + 1);
      var bl, br := NodeHash(h, b, height - 1, 2 * index), NodeHash(h, b, height - 1, 2 * index + 1);
      NodeHashLength(h, a, height - 1, 2 * index);
      NodeHashLength(h, b, height - 1, 2 * index);
      HalvesApart(al, ar, bl, br);
      SameHashSameData(h, a, b, height - 1, 2 * index);
      SameHashSameData(h, a, b, height - 1, 2 * index + 1);
    }
  }

  lemma {:induction false} AgreeOnSection(a: bytes, b: bytes, height: nat, index: nat, i: nat)
    requires AgreeBelow(a, b, height, index) && Anc(i, height) == index
    ensures Section(a, i) == Section(b, i)
    decreases height
  {
    if height > 0 {
      assert Anc(i, height - 1) == 2 * index || Anc(i, height - 1) == 2 * index + 1;
      AgreeOnSection(a, b, height - 1, Anc(i, height - 1), i);
    }
  }

  /** The first section below (height, index). */
  function FirstBelow(height: nat, index: nat): nat {
    if height == 0 then index else FirstBelow(height - 1, 2 * index)
  }

  lemma {:induction false} AgreeOnFirst(a: bytes, b: bytes, height: nat, index: nat)
    requires AgreeBelow(a, b, height, index)
    ensures Section(a, FirstBelow(height, index)) == Section(b, FirstBelow(height, index))
  {
    if height > 0 {
      AgreeOnFirst(a, b, height - 1, 2 * index);
    }
  }

  /** Data that differ in the first section below a node have different hashes there, or their trees collide below it. */
  lemma DifferentHashes(h: HashFn, a: bytes, b: bytes, height: nat, index: nat)
    requires IsHash(h)
    requires Section(a, FirstBelow(height, index)) != Section(b, FirstBelow(height, index))
    ensures NodeHash(h, a, height, index) != NodeHash(h, b, height, index) || CollideBelow(h, a, b, height, index)
  {
    if NodeHash(h, a, height, index) == NodeHash(h, b, height, index) {
      SameHashSameData(h, a, b, height, index);
      if AgreeBelow(a, b, height, index) {
        AgreeOnFirst(a, b, height, index);
      }
    }
  }
}
