/** Byte strings and the base hash, shared by the components that hash. */
module Bytes {
  type byte = bv8
  type bytes = seq<byte>

  /** The base hash (Keccak256 in production) is an arbitrary function on byte strings. */
  type HashFn = bytes -> bytes

  /** Digest size of the base hash, which is also the segment size. */
  const HASH_SIZE: nat := 32

  ghost predicate IsHash(h: HashFn) {
    forall x: bytes :: |h(x)| == HASH_SIZE
  }

  predicate Collide(h: HashFn, a: bytes, b: bytes) {
    a != b && h(a) == h(b)
  }

  function Zeros(n: nat): (z: bytes)
    ensures |z| == n && forall i :: 0 <= i < n ==> z[i] == 0
  {
    seq(n, i => 0)
  }

  /** The content of dst after Go's copy(dst[at:], src). */
  function CopyInto(dst: bytes, at: nat, src: bytes): (r: bytes)
    requires at <= |dst|
    ensures |r| == |dst|
    ensures forall i :: 0 <= i < |dst| ==>
      r[i] == if at <= i < at + |src| then src[i - at] else dst[i]
  {
    var l := if |src| <= |dst| - at then |src| else |dst| - at;
    dst[..at] + src[..l] + dst[at + l..]
  }
}
