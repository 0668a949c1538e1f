/** Counter-mode encryption of chunks (pkg/encryption/encryption.go). */
module Encryption {
  import opened Wrappers

  import opened Bytes
  import opened Endian

  // ----- the transformation under any key stream -----

  function Xor(data: bytes, mask: bytes): (r: bytes)
    requires |data| <= |mask|
    ensures |r| == |data|
  {
    seq(|data|, j requires 0 <= j < |data| => data[j] ^ mask[j])
  }

  /** One mask for every segment, long enough for segments of k bytes. */
  ghost predicate KeyStream(seg: nat -> bytes, k: nat) {
    k > 0 && forall i :: |seg(i)| >= k
  }

  /** The mask of the p-th byte, counted from the start of segment i. */
  ghost function MaskAt(seg: nat -> bytes, k: nat, i: nat, p: nat): byte
    requires KeyStream(seg, k)
    decreases p
  {
    if p < k then seg(i)[p] else MaskAt(seg, k, i + 1, p - k)
  }

  /** The data under the masks from index i on. */
  ghost function Transform(seg: nat -> bytes, k: nat, i: nat, data: bytes): (r: bytes)
    requires KeyStream(seg, k)
    ensures |r| == |data|
  {
    seq(|data|, p requires 0 <= p < |data| => data[p] ^ MaskAt(seg, k, i, p))
  }

  /** How far the counter moves over n bytes. */
  function Segments(k: nat, n: nat): nat
    requires k > 0
  {
    if n == 0 then 0 else if n <= k then 1 else Segments(k, n - k) + 1
  }

  /** Applied twice from the same counter index, the transformation cancels out. */
  lemma TransformTwice(seg: nat -> bytes, k: nat, i: nat, data: bytes)
    requires KeyStream(seg, k)
    ensures Transform(seg, k, i, Transform(seg, k, i, data)) == data
  {
    var r := Transform(seg, k, i, Transform(seg, k, i, data));
    forall p | 0 <= p < |data| ensures r[p] == data[p] {
      var m := MaskAt(seg, k, i, p);
      assert (data[p] ^ m) ^ m == data[p];
    }
  }

  /** With any padding behind it, the data comes back as the prefix of the decryption. */
  lemma PaddedRoundTrip(seg: nat -> bytes, k: nat, i: nat, data: bytes, padding: bytes)
    requires KeyStream(seg, k)
    ensures Transform(seg, k, i, Transform(seg, k, i, data) + padding)[..|data|] == data
  {
    var out := Transform(seg, k, i, data) + padding;
    var twice := Transform(seg, k, i, Transform(seg, k, i, data));
    TransformTwice(seg, k, i, data);
    forall p | 0 <= p < |data| ensures Transform(seg, k, i, out)[p] == data[p] {
      assert out[p] == Transform(seg, k, i, data)[p];
      assert Transform(seg, k, i, out)[p] == twice[p];
    }
  }

  // ----- single segments -----

  /** The masks of segment j, and of what follows it, are those of the index moved on by j. */
  lemma {:induction false} MaskShift(seg: nat -> bytes, k: nat, i: nat, j: nat, p: nat)
    requires KeyStream(seg, k)
    ensures MaskAt(seg, k, i, j * k + p) == MaskAt(seg, k, i + j, p)
    decreases j
  {
    if j > 0 {
      assert j * k == (j - 1) * k + k;
      MaskShift(seg, k, i + 1, j - 1, p);
    }
  }

  ghost predicate AlignedAt(seg: nat -> bytes, k: nat, start: nat, i: nat, index: nat, p: nat)
    requires KeyStream(seg, k)
  {
    MaskAt(seg, k, start, i + p) == MaskAt(seg, k, index, p)
  }

  /** The byte at i begins the segment that the counter index stands for. */
  ghost predicate Aligned(seg: nat -> bytes, k: nat, start: nat, i: nat, index: nat)
    requires KeyStream(seg, k)
  {
    forall p: nat :: AlignedAt(seg, k, start, i, index, p)
  }

  lemma AlignedNext(seg: nat -> bytes, k: nat, start: nat, i: nat, index: nat)
    requires KeyStream(seg, k) && Aligned(seg, k, start, i, index)
    ensures Aligned(seg, k, start, i + k, index + 1)
  {
    var next, moved := i + k, index + 1;
    forall p: nat ensures AlignedAt(seg, k, start, next, moved, p) {
      assert AlignedAt(seg, k, start, i, index, k + p);
    }
  }

  /** The end of segment j, which begins at j * k. */
  function End(k: nat, j: nat, length: nat): nat {
    if j * k + k <= length then j * k + k else length
  }

  /** Segment j of a transformation depends on its own mask only. */
  lemma SegmentAlone(seg: nat -> bytes, k: nat, i: nat, data: bytes, j: nat)
    requires KeyStream(seg, k) && j * k <= |data|
    ensures Transform(seg, k, i, data)[j * k..End(k, j, |data|)] == Xor(data[j * k..End(k, j, |data|)], seg(i + j))
  {
    var from, to := j * k, End(k, j, |data|);
    forall p | 0 <= p < to - from
      ensures Transform(seg, k, i, data)[from..to][p] == Xor(data[from..to], seg(i + j))[p]
    {
      MaskShift(seg, k, i, j, p);
    }
  }

  lemma XorTwice(data: bytes, mask: bytes)
    requires |data| <= |mask|
    ensures Xor(Xor(data, mask), mask) == data
  {
    var r := Xor(Xor(data, mask), mask);
    forall j | 0 <= j < |data| ensures r[j] == data[j] {
      assert (data[j] ^ mask[j]) ^ mask[j] == data[j];
    }
  }

  /** Masking segment j of the ciphertext alone recovers segment j of the data. */
  lemma SelectiveDisclosure(seg: nat -> bytes, k: nat, i: nat, data: bytes, j: nat)
    requires KeyStream(seg, k) && j * k <= |data|
    ensures Xor(Transform(seg, k, i, data)[j * k..End(k, j, |data|)], seg(i + j)) == data[j * k..End(k, j, |data|)]
  {
    SegmentAlone(seg, k, i, data, j);
    XorTwice(data[j * k..End(k, j, |data|)], seg(i + j));
  }

  // ----- runs without padding -----

  /** The ciphertexts of a run of Encrypt calls on one object. */
  ghost function EncryptAll(seg: nat -> bytes, k: nat, i: nat, messages: seq<bytes>): seq<bytes>
    requires KeyStream(seg, k)
    decreases |messages|
  {
    if messages == [] then []
    else [Transform(seg, k, i, messages[0])] + EncryptAll(seg, k, i + Segments(k, |messages[0]|), messages[1..])
  }

  /** Without padding, the same run of Decrypt calls gives all messages back: the counters stay in step. */
  lemma {:induction false} RunRoundTrip(seg: nat -> bytes, k: nat, i: nat, messages: seq<bytes>)
    requires KeyStream(seg, k)
    ensures EncryptAll(seg, k, i, EncryptAll(seg, k, i, messages)) == messages
    decreases |messages|
  {
    if messages != [] {
      var sent := EncryptAll(seg, k, i, messages);
      TransformTwice(seg, k, i, messages[0]);
      assert sent[1..] == EncryptAll(seg, k, i + Segments(k, |messages[0]|), messages[1..]);
      RunRoundTrip(seg, k, i + Segments(k, |messages[0]|), messages[1..]);
      assert messages == [messages[0]] + messages[1..];
    }
  }

  // ----- the key stream of an encryption -----

  /** What an encryption is built with, apart from the padding. */
  datatype Cipher = Cipher(h: HashFn, key: bytes, initCtr: nat)
  {
    /** A segment is as long as the key, and no longer than a digest. */
    ghost predicate Valid() {
      IsHash(h) && 0 < |key| <= HASH_SIZE
    }

    /** The key of segment i: the key hashed with the 32-bit counter, hashed once more. */
    function SegmentKey(i: nat): bytes {
      h(h(key + LittleEndian((i + initCtr) % 0x1_0000_0000, 4)))
    }
  }

  /** seg gives the segment keys of the cipher. */
  ghost predicate Stream(c: Cipher, seg: nat -> bytes) {
    c.Valid() && KeyStream(seg, |c.key|) && forall i {:trigger c.SegmentKey(i)} :: c.SegmentKey(i) == seg(i)
  }

  ghost function StreamOf(c: Cipher): (seg: nat -> bytes)
    requires c.Valid()
    ensures Stream(c, seg)
  {
    (i: nat) => c.SegmentKey(i)
  }

  // ----- no segment key twice -----

  /** The key and the counter of segment i: its four bytes, the lowest first, are (i + initCtr) mod 2^32. */
  predicate IsCounter(c: Cipher, i: nat, ctr: bytes) {
    |ctr| == 4 && ValueOf(ctr, 4) == (i + c.initCtr) % 0x1_0000_0000
  }

  function Counter(c: Cipher, i: nat): (ctr: bytes)
    ensures IsCounter(c, i, ctr)
  {
    assert Weight(4) == 0x1_0000_0000;
    LittleEndianSays((i + c.initCtr) % 0x1_0000_0000, 4);
    LittleEndian((i + c.initCtr) % 0x1_0000_0000, 4)
  }

  /** Four bytes are all the counter there is. */
  lemma CounterIsUnique(c: Cipher, i: nat, ctr: bytes)
    requires IsCounter(c, i, ctr)
    ensures ctr == Counter(c, i)
  {
    SameValue(ctr, Counter(c, i), 4);
    assert ctr[..4] == ctr && Counter(c, i)[..4] == Counter(c, i);
  }

  lemma ModApart(i: nat, j: nat, from: nat, m: nat)
    requires m > 0 && i % m != j % m
    ensures (i + from) % m != (j + from) % m
  {
    if (i + from) % m == (j + from) % m {
      var p, q := (i + from) / m, (j + from) / m;
      assert i - j == m * (p - q) by {
        assert i + from == m * p + (i + from) % m;
        assert j + from == m * q + (j + from) % m;
      }
      SameRemainder(i, j, p - q, m);
    }
  }

  lemma SameRemainder(i: nat, j: nat, k: int, m: nat)
    requires m > 0 && i - j == m * k
    ensures i % m == j % m
  {
    var r, s := i % m, j % m;
    assert i == m * (i / m) + r && j == m * (j / m) + s;
    assert r - s == m * (k - i / m + j / m);
    NoMultiple(r - s, k - i / m + j / m, m);
  }

  /** The two pairs of strings that would have to collide for two segments to share a key. */
  predicate CountersCollide(c: Cipher, i: nat, j: nat) {
    var a, b := c.key + Counter(c, i), c.key + Counter(c, j);
    Collide(c.h, a, b) || Collide(c.h, c.h(a), c.h(b))
  }

  /** Two segments whose indexes differ modulo 2^32 have different keys, or one of the two pairs is a collision. */
  lemma KeysDiffer(c: Cipher, i: nat, j: nat)
    requires i % 0x1_0000_0000 != j % 0x1_0000_0000
    ensures c.SegmentKey(i) != c.SegmentKey(j) || CountersCollide(c, i, j)
  {
    var a, b := c.key + Counter(c, i), c.key + Counter(c, j);
    ModApart(i, j, c.initCtr, 0x1_0000_0000);
    assert Counter(c, i) != Counter(c, j);
    assert a[|c.key|..] == Counter(c, i);
    assert b[|c.key|..] == Counter(c, j);
    assert c.SegmentKey(i) == c.h(c.h(a)) && c.SegmentKey(j) == c.h(c.h(b));
  }

  /**
   Segment j of a ciphertext is segment j of the data under the hash of the hash of the key and the
   four counter bytes, whatever string those are called.
   */
  lemma CiphertextIs(c: Cipher, start: nat, data: bytes, j: nat, ctr: bytes)
    requires c.Valid() && j * |c.key| <= |data| && IsCounter(c, start + j, ctr)
    ensures
      var from, to := j * |c.key|, End(|c.key|, j, |data|);
      Transform(StreamOf(c), |c.key|, start, data)[from..to] == Xor(data[from..to], c.h(c.h(c.key + ctr)))
  {
    var seg := StreamOf(c);
    SegmentAlone(seg, |c.key|, start, data, j);
    CounterIsUnique(c, start + j, ctr);
    assert seg(start + j) == c.SegmentKey(start + j);
  }

  lemma SameByteMask(d: byte, x: byte, y: byte)
    ensures d ^ x == d ^ y ==> x == y
  {
  }

  lemma SameMask(data: bytes, x: bytes, y: bytes)
    requires |data| <= |x| && |data| <= |y| && Xor(data, x) == Xor(data, y)
    ensures x[..|data|] == y[..|data|]
  {
    forall p | 0 <= p < |data| ensures x[p] == y[p] {
      assert Xor(data, x)[p] == Xor(data, y)[p];
      SameByteMask(data[p], x[p], y[p]);
    }
  }

  /**
   Under a key of 32 bytes, two equal full segments of data encrypt to different ciphertexts wherever
   they stand, also in different messages, unless their indexes agree modulo 2^32 or one of two named
   pairs of strings is a collision of the hash.
   */
  lemma EqualSegmentsDiffer(c: Cipher, start: nat, data: bytes, i: nat, other: nat, more: bytes, j: nat)
    requires c.Valid() && |c.key| == 32
    requires i * 32 + 32 <= |data| && j * 32 + 32 <= |more|
    requires data[i * 32..i * 32 + 32] == more[j * 32..j * 32 + 32]
    requires (start + i) % 0x1_0000_0000 != (other + j) % 0x1_0000_0000
    ensures
      var x := Transform(StreamOf(c), 32, start, data)[i * 32..i * 32 + 32];
      var y := Transform(StreamOf(c), 32, other, more)[j * 32..j * 32 + 32];
      x != y || CountersCollide(c, start + i, other + j)
  {
    var seg := StreamOf(c);
    SegmentAlone(seg, 32, start, data, i);
    SegmentAlone(seg, 32, other, more, j);
    KeysDiffer(c, start + i, other + j);
    var kx, ky := c.SegmentKey(start + i), c.SegmentKey(other + j);
    assert kx == seg(start + i) && ky == seg(other + j);
    if Xor(data[i * 32..i * 32 + 32], kx) == Xor(more[j * 32..j * 32 + 32], ky) {
      SameMask(data[i * 32..i * 32 + 32], kx, ky);
      assert kx[..32] == kx && ky[..32] == ky;
    }
  }

  // ----- the object -----

  class Encrypter {
    const c: Cipher
    const padding: int
    var index: nat

    constructor (c: Cipher, padding: int)
      ensures this.c == c && this.padding == padding && index == 0
    {
      this.c, this.padding := c, padding;
      index := 0;
    }

    /** Only safe once an operation is complete; the object can then be used for other data. */
    method Reset()
      modifies this
      ensures index == 0
    {
      index := 0;
    }

    /** Fills out[from..to] with random bytes. */
    method Pad(out: array<byte>, from: nat, to: nat, random: nat -> byte)
      requires from <= to <= out.Length
      modifies out
      ensures forall j :: 0 <= j < out.Length && !(from <= j < to) ==> out[j] == old(out[j])
    {
      var total := from;
      while total < to
        invariant from <= total <= to
        invariant forall j :: 0 <= j < out.Length && !(from <= j < to) ==> out[j] == old(out[j])
      {
        out[total] := random(total);
        total := total + 1;
      }
    }

    /** Transforms one segment into out[from..to], and pads what the input does not fill; a segment may be as long as a digest. */
    method Transcrypt(i: nat, input: bytes, out: array<byte>, from: nat, to: nat, random: nat -> byte)
      requires IsHash(c.h) && from + |input| <= to <= out.Length && |input| <= HASH_SIZE
      modifies out
      ensures out[from..from + |input|] == Xor(input, c.SegmentKey(i))
      ensures c.SegmentKey(i) == c.h(c.h(c.key + Counter(c, i)))
      ensures forall j :: 0 <= j < out.Length && !(from <= j < to) ==> out[j] == old(out[j])
    {
      var ctrHash := c.h(c.key + LittleEndian((i + c.initCtr) % 0x1_0000_0000, 4));
      var segmentKey := c.h(ctrHash);
      assert segmentKey == c.SegmentKey(i);
      for j := 0 to |input|
        invariant forall l :: 0 <= l < j ==> out[from + l] == input[l] ^ segmentKey[l]
        invariant forall l :: 0 <= l < out.Length && !(from <= l < to) ==> out[l] == old(out[l])
      {
        out[from + j] := input[j] ^ segmentKey[j];
      }
      Pad(out, from + |input|, to, random);
    }

    /** The body of the loop of transform: the segment at i, after which the counter moves on. */
    method TransformSegment(input: bytes, i: nat, out: array<byte>, random: nat -> byte, ghost seg: nat -> bytes,
                            ghost start: nat, ghost whole: bytes)
      returns (l: nat)
      requires Stream(c, seg) && i < |input| <= out.Length && Aligned(seg, |c.key|, start, i, index)
      requires whole == Transform(seg, |c.key|, start, input)
      modifies this`index, out
      ensures l == if |c.key| < |input| - i then |c.key| else |input| - i
      ensures forall p :: i <= p < i + l ==> out[p] == whole[p]
      ensures forall p :: 0 <= p < i ==> out[p] == old(out[p])
      ensures index == old(index) + 1 && Aligned(seg, |c.key|, start, i + |c.key|, index)
    {
      ghost var k := |c.key|;
      l := if |c.key| < |input| - i then |c.key| else |input| - i;
      Transcrypt(index, input[i..i + l], out, i, i + l, random);
      assert c.SegmentKey(index) == seg(index);
      SegmentOfWhole(seg, k, start, i, index, input, l, whole);
      forall p | i <= p < i + l ensures out[p] == whole[p] {
        assert out[p] == out[i..i + l][p - i];
        assert whole[p] == whole[i..i + l][p - i];
      }
      AlignedNext(seg, k, start, i, index);
      index := index + 1;
    }

    /** transform: the input segment by segment, then the padding. */
    method TransformInto(input: bytes, out: array<byte>, random: nat -> byte, ghost seg: nat -> bytes)
      requires Stream(c, seg) && |input| <= out.Length
      modifies this`index, out
      ensures out[..|input|] == Transform(seg, |c.key|, old(index), input)
      ensures index == old(index) + Segments(|c.key|, |input|)
    {
      var i := 0;
      ghost var k, start, whole := |c.key|, index, Transform(seg, |c.key|, index, input);
      while i < |input|
        invariant i <= |input| && (i < |input| ==> Aligned(seg, k, start, i, index))
        invariant forall p :: 0 <= p < i ==> out[p] == whole[p]
        invariant start + Segments(k, |input|) == index + Segments(k, |input| - i)
      {
        var l := TransformSegment(input, i, out, random, seg, start, whole);
        i := i + l;
      }
      Pad(out, |input|, out.Length, random);
    }

    /** Refuses data longer than a fixed padding. */
    method Encrypt(data: bytes, random: nat -> byte) returns (out: Option<bytes>)
      requires c.Valid()
      modifies this`index
      ensures out.None? <==> 0 < padding < |data|
      ensures out.Some? ==>
        && |out.value| == (if padding > 0 then padding else |data|)
        && out.value[..|data|] == Transform(StreamOf(c), |c.key|, old(index), data)
        && index == old(index) + Segments(|c.key|, |data|)
      ensures out.None? ==> index == old(index)
    {
      var outLength := |data|;
      if padding > 0 {
        if |data| > padding {
          return None;
        }
        outLength := padding;
      }
      var buffer := new byte[outLength];
      TransformInto(data, buffer, random, StreamOf(c));
      assert buffer[..][..|data|] == buffer[..|data|];
      return Some(buffer[..]);
    }

    /** With a padding, accepts data of exactly that length. */
    method Decrypt(data: bytes) returns (out: Option<bytes>)
      requires c.Valid()
      modifies this`index
      ensures out.None? <==> padding > 0 && |data| != padding
      ensures out.Some? ==>
        && out.value == Transform(StreamOf(c), |c.key|, old(index), data)
        && index == old(index) + Segments(|c.key|, |data|)
      ensures out.None? ==> index == old(index)
    {
      if padding > 0 && |data| != padding {
        return None;
      }
      var buffer := new byte[|data|];
      TransformInto(data, buffer, j => 0, StreamOf(c));
      assert buffer[..] == buffer[..|data|];
      return Some(buffer[..]);
    }
  }

  lemma SegmentOfWhole(seg: nat -> bytes, k: nat, start: nat, i: nat, index: nat, input: bytes, l: nat, whole: bytes)
    requires KeyStream(seg, k) && Aligned(seg, k, start, i, index) && l <= k && i + l <= |input|
    requires whole == Transform(seg, k, start, input)
    ensures whole[i..i + l] == Xor(input[i..i + l], seg(index))
  {
    var piece := Xor(input[i..i + l], seg(index));
    forall q | 0 <= q < l ensures whole[i..i + l][q] == piece[q] {
      assert AlignedAt(seg, k, start, i, index, q);
    }
  }

  /** Two objects with the same key and padding: what one encrypts the other decrypts, whatever the padding bytes are. */
  method SendAndReceive(sender: Encrypter, receiver: Encrypter, data: bytes,
                        random: nat -> byte) returns (got: Option<bytes>)
    requires sender != receiver && sender.c == receiver.c && sender.c.Valid() && sender.padding == receiver.padding
    requires sender.index == receiver.index
    modifies sender, receiver
    ensures got.None? <==> 0 < sender.padding < |data|
    ensures got.Some? ==> |got.value| >= |data| && got.value[..|data|] == data
    ensures got.Some? && sender.padding <= 0 ==> got.value == data && sender.index == receiver.index
  {
    ghost var i := sender.index;
    var sent := sender.Encrypt(data, random);
    if sent.None? {
      return None;
    }
    got := receiver.Decrypt(sent.value);
    ghost var out, seg := sent.value, StreamOf(sender.c);
    assert out == Transform(seg, |sender.c.key|, i, data) + out[|data|..];
    PaddedRoundTrip(seg, |sender.c.key|, i, data, out[|data|..]);
  }
}
