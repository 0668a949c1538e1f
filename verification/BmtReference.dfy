/** The reference hasher (package bmt/reference) and the hash of every subtree of the BMT. */
module BmtReference {
  import opened Bytes
  import opened BmtConf

  /** RefHasher.hash: recurses on both halves until one section is left. */
  function RefRoot(h: HashFn, d: bytes, height: nat): bytes
    requires |d| == SubtreeSize(height)
  {
    if height == 0 then
      h(d)
    else
      var half := SubtreeSize(height - 1);
      h(RefRoot(h, d[..half], height - 1) + RefRoot(h, d[half..], height - 1))
  }

  /** The first maxSize bytes of data, zero-padded to maxSize. */
  function Padded(data: bytes, maxSize: nat): (d: bytes)
    ensures |d| == maxSize
    ensures forall i :: 0 <= i < maxSize ==> d[i] == if i < |data| then data[i] else 0
  {
    CopyInto(Zeros(maxSize), 0, data)
  }

  /** RefHasher.Hash followed by the span prefix: what a BMT hash is defined to be. */
  function RefDigest(c: Conf, span: bytes, data: bytes): bytes
    requires c.depth >= 1 && c.maxSize == SubtreeSize(c.depth - 1)
  {
    c.hash(span + RefRoot(c.hash, Padded(data, c.maxSize), c.depth - 1))
  }

  /** Section i of the data, reading zeros behind its end. */
  function Section(data: bytes, i: nat): (s: bytes)
    ensures |s| == SECTION_SIZE
  {
    seq(SECTION_SIZE, (j: nat) => if 64 * i + j < |data| then data[64 * i + j] else 0)
  }

  /** The hash of the subtree of the given height with the given index among its equals. */
  function NodeHash(h: HashFn, data: bytes, height: nat, index: nat): bytes {
    if height == 0 then
      h(Section(data, index))
    else
      h(NodeHash(h, data, height - 1, 2 * index) + NodeHash(h, data, height - 1, 2 * index + 1))
  }

  lemma {:induction false} NodeHashLength(h: HashFn, data: bytes, height: nat, index: nat)
    requires IsHash(h)
    ensures |NodeHash(h, data, height, index)| == HASH_SIZE
  {
  }

  /** The i-th ancestor of a section, as an index on its level. */
  function Anc(i: nat, level: nat): nat {
    if level == 0 then i else Anc(i, level - 1) / 2
  }

  lemma {:induction false} AncMonotone(i: nat, j: nat, level: nat)
    requires i <= j
    ensures Anc(i, level) <= Anc(j, level)
  {
    if level > 0 {
      AncMonotone(i, j, level - 1);
    }
  }

  lemma {:induction false} AncBound(i: nat, level: nat, depth: nat)
    requires level <= depth && i < Pow2(depth)
    ensures Anc(i, level) < Pow2(depth - level)
  {
    if level > 0 {
      AncBound(i, level - 1, depth);
    }
  }

  /** A subtree starting behind the last written section hashes to the entry of the zero table. */
  lemma {:induction false} ZeroSubtree(h: HashFn, data: bytes, last: nat, height: nat, index: nat)
    requires |data| <= 64 * last + 64
    requires index > Anc(last, height)
    ensures NodeHash(h, data, height, index) == ZeroHash(h, height + 1)
  {
    if height == 0 {
      assert Section(data, index) == Zeros(HASH_SIZE) + Zeros(HASH_SIZE);
      assert ZeroHash(h, 0) == Zeros(HASH_SIZE);
    } else {
      ZeroSubtree(h, data, last, height - 1, 2 * index);
      ZeroSubtree(h, data, last, height - 1, 2 * index + 1);
    }
  }

  /** An all-empty BMT hashes to the last entry of the table. */
  lemma {:induction false} EmptyTree(h: HashFn, height: nat, index: nat)
    ensures NodeHash(h, [], height, index) == ZeroHash(h, height + 1)
  {
    if height == 0 {
      assert Section([], index) == Zeros(HASH_SIZE) + Zeros(HASH_SIZE);
      assert ZeroHash(h, 0) == Zeros(HASH_SIZE);
    } else {
      EmptyTree(h, height - 1, 2 * index);
      EmptyTree(h, height - 1, 2 * index + 1);
    }
  }

  /** The data behind offset off, as far as d goes, reading zeros behind its end. */
  ghost predicate Window(data: bytes, off: nat, d: bytes) {
    forall j :: 0 <= j < |d| ==> d[j] == if off + j < |data| then data[off + j] else 0
  }

  lemma HalfOffsets(index: nat, half: nat)
    ensures index * (2 * half) == (2 * index) * half
    ensures index * (2 * half) + half == (2 * index + 1) * half
  {
  }

  /** The slice of the padded data below node (height, index) hashes to NodeHash. */
  lemma {:induction false} RefRootIsNodeHash(h: HashFn, data: bytes, d: bytes, height: nat, index: nat, off: nat)
    requires |d| == SubtreeSize(height)
    requires off == index * |d|
    requires Window(data, off, d)
    ensures RefRoot(h, d, height) == NodeHash(h, data, height, index)
  {
    if height == 0 {
      assert d == Section(data, index);
    } else {
      var half := SubtreeSize(height - 1);
      HalfOffsets(index, half);
      RefRootIsNodeHash(h, data, d[..half], height - 1, 2 * index, off);
      assert Window(data, off + half, d[half..]) by {
        assert forall j :: 0 <= j < half ==> d[half..][j] == d[half + j];
      }
      RefRootIsNodeHash(h, data, d[half..], height - 1, 2 * index + 1, off + half);
    }
  }

  /** The reference digest in terms of the root of the tree. */
  lemma RefDigestIsRoot(c: Conf, span: bytes, data: bytes)
    requires c.depth >= 1 && c.maxSize == SubtreeSize(c.depth - 1)
    ensures RefDigest(c, span, data) == c.hash(span + NodeHash(c.hash, data, c.depth - 1, 0))
  {
    var d := Padded(data, c.maxSize);
    assert 0 == 0 * |d|;
    assert Window(data, 0, d);
    RefRootIsNodeHash(c.hash, data, d, c.depth - 1, 0, 0);
  }
}
