/** The configuration of the Binary Merkle Tree: its shape and the table of zero-subtree hashes. */
module BmtConf {
  import opened Bytes

  /** A section is two segments of the size of a hash; section i starts at byte 64 * i. */
  const SECTION_SIZE: nat := 64

  /** The bytes below a node of the given height. */
  function SubtreeSize(height: nat): nat {
    if height == 0 then SECTION_SIZE else 2 * SubtreeSize(height - 1)
  }

  function Pow2(n: nat): (r: nat)
    ensures r >= 1
  {
    if n == 0 then 1 else 2 * Pow2(n - 1)
  }

  /** Entry i of the zero table: the root of an all-zero subtree over 2^i segments. */
  function ZeroHash(h: HashFn, i: nat): bytes {
    if i == 0 then Zeros(HASH_SIZE) else h(ZeroHash(h, i - 1) + ZeroHash(h, i - 1))
  }

  datatype Conf = Conf(
    hash: HashFn,
    segmentCount: int,
    capacity: int,
    depth: nat,
    maxSize: nat,
    zerohashes: seq<bytes>)

  ghost predicate ValidConf(c: Conf) {
    && IsHash(c.hash)
    && c.depth >= 1
    && c.maxSize == SubtreeSize(c.depth - 1)
    && |c.zerohashes| == c.depth + 1
    && forall i {:trigger c.zerohashes[i]} :: 0 <= i <= c.depth ==> c.zerohashes[i] == ZeroHash(c.hash, i)
  }

  /** Rounds the segment count up to a power of two; the depth is its exponent. */
  method SizeToParams(n: int) returns (c: int, d: nat)
    ensures d >= 1 && c == Pow2(d)
    ensures n <= c
    ensures c == 2 || c < 2 * n
  {
    c, d := 2, 0;
    while c < n
      invariant c == Pow2(d + 1)
      invariant c == 2 || c < 2 * n
      decreases n - c
    {
      d := d + 1;
      c := c * 2;
    }
    d := d + 1;
  }

  lemma {:induction false} SubtreeSizeIsPower(height: nat)
    ensures SubtreeSize(height) == 64 * Pow2(height)
  {
    if height > 0 {
      SubtreeSizeIsPower(height - 1);
    }
  }

  lemma AtLeastOneSection(c: Conf)
    requires ValidConf(c)
    ensures 64 <= c.maxSize
  {
    SubtreeSizeIsPower(c.depth - 1);
  }

  lemma NextZeroHash(h: HashFn, i: nat)
    requires i >= 1
    ensures ZeroHash(h, i) == h(ZeroHash(h, i - 1) + ZeroHash(h, i - 1))
  {
  }

  /** The hashes of all-zero subtrees, one per height. */
  method ZeroHashes(hash: HashFn, depth: nat) returns (zerohashes: seq<bytes>)
    requires IsHash(hash)
    ensures |zerohashes| == depth + 1
    ensures forall i {:trigger zerohashes[i]} :: 0 <= i <= depth ==> zerohashes[i] == ZeroHash(hash, i)
  {
    var zeros := Zeros(HASH_SIZE);
    zerohashes := [zeros];
    var i := 1;
    while i < depth + 1
      invariant 1 <= i <= depth + 1
      invariant |zerohashes| == i
      invariant forall j {:trigger zerohashes[j]} :: 0 <= j < i ==> zerohashes[j] == ZeroHash(hash, j)
      invariant zeros == ZeroHash(hash, i - 1)
    {
      NextZeroHash(hash, i);
      zeros := hash(zeros + zeros);
      zerohashes := zerohashes + [zeros];
      i := i + 1;
    }
  }

  method NewConf(hash: HashFn, segmentCount: int, capacity: int) returns (conf: Conf)
    requires IsHash(hash)
    ensures ValidConf(conf)
    ensures conf.hash == hash && conf.segmentCount == segmentCount && conf.capacity == capacity
    ensures segmentCount * 32 <= conf.maxSize
    ensures conf.depth == 1 || conf.maxSize < segmentCount * 64
  {
    var count, depth := SizeToParams(segmentCount);
    var zerohashes := ZeroHashes(hash, depth);
    SubtreeSizeIsPower(depth - 1);
    assert count == 2 * Pow2(depth - 1);
    conf := Conf(hash, segmentCount, capacity, depth, count * 32, zerohashes);
  }
}
