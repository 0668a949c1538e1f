/** Numbers as bytes, the lowest byte first (encoding/binary). */
module Endian {
  import opened Bytes

  /** What byte i of a number counts: 256^i. */
  function Weight(i: nat): nat {
    if i == 0 then 1 else 256 * Weight(i - 1)
  }

  lemma {:induction false} WeightGrows(i: nat, j: nat)
    requires i <= j
    ensures Weight(i) <= Weight(j)
  {
    if i < j {
      WeightGrows(i, j - 1);
    }
  }

  /** binary.LittleEndian.PutUint32 and PutUint64: the lowest byte first. */
  function LittleEndian(n: nat, width: nat): (b: bytes)
    ensures |b| == width
  {
    if width == 0 then [] else [(n % 256) as byte] + LittleEndian(n / 256, width - 1)
  }

  function ByteValue(b: byte): nat {
    b as nat
  }

  /** What the first k bytes say. */
  function ValueOf(b: bytes, k: nat): nat
    requires k <= |b|
  {
    if k == 0 then 0 else ValueOf(b, k - 1) + ByteValue(b[k - 1]) * Weight(k - 1)
  }

  lemma ByteSays(n: nat)
    requires n < 256
    ensures ByteValue(n as byte) == n
  {
  }

  lemma Regroup(first: nat, value: nat, digit: nat, weight: nat)
    ensures first + 256 * value + digit * (256 * weight) == first + 256 * (value + digit * weight)
  {
  }

  /** Moved up by one byte, everything counts 256 times as much. */
  lemma {:induction false} ValueShifts(first: byte, rest: bytes, k: nat)
    requires k <= |rest|
    ensures ValueOf([first] + rest, k + 1) == ByteValue(first) + 256 * ValueOf(rest, k)
    decreases k
  {
    var b := [first] + rest;
    if k == 0 {
      assert b[0] == first;
      assert ValueOf(b, 0) == 0;
    } else {
      ValueShifts(first, rest, k - 1);
      assert b[k] == rest[k - 1];
      Regroup(ByteValue(first), ValueOf(rest, k - 1), ByteValue(rest[k - 1]), Weight(k - 1));
    }
  }

  /** The bytes of a number that fits say that number. */
  lemma {:induction false} LittleEndianSays(n: nat, width: nat)
    requires n < Weight(width)
    ensures ValueOf(LittleEndian(n, width), width) == n
    decreases width
  {
    if width > 0 {
      LittleEndianSays(n / 256, width - 1);
      ValueShifts((n % 256) as byte, LittleEndian(n / 256, width - 1), width - 1);
      ByteSays(n % 256);
    }
  }

  lemma LittleEndianInjective(m: nat, n: nat, width: nat)
    requires m < Weight(width) && n < Weight(width) && LittleEndian(m, width) == LittleEndian(n, width)
    ensures m == n
  {
    LittleEndianSays(m, width);
    LittleEndianSays(n, width);
  }

  lemma {:induction false} ValueFits(b: bytes, k: nat)
    requires k <= |b|
    ensures ValueOf(b, k) < Weight(k)
  {
    if k > 0 {
      ValueFits(b, k - 1);
      assert ByteValue(b[k - 1]) <= 255;
      assert ByteValue(b[k - 1]) * Weight(k - 1) <= 255 * Weight(k - 1);
    }
  }

  lemma Multiples(m: nat, k: int)
    ensures k >= 1 ==> m * k >= m
    ensures k <= -1 ==> m * k <= -(m as int)
  {
    if k >= 1 {
      assert m * k == m + m * (k - 1);
    } else if k <= -1 {
      assert m * k == m * (k + 1) - m;
    }
  }

  /** Numbers closer than m that differ by a multiple of m are the same. */
  lemma NoMultiple(d: int, k: int, m: int)
    requires m > 0 && d == m * k && -m < d < m
    ensures d == 0 && k == 0
  {
    Multiples(m, k);
  }

  lemma TopDigit(v: nat, w: nat, d: nat, e: nat, weight: nat)
    requires v < weight && w < weight && v + d * weight == w + e * weight
    ensures d == e && v == w
  {
    var k := e - d;
    assert weight * k == e * weight - d * weight;
    NoMultiple(v - w, k, weight);
  }

  lemma SameByte(a: byte, b: byte)
    requires ByteValue(a) == ByteValue(b)
    ensures a == b
  {
  }

  /** Bytes that say the same are the same. */
  lemma {:induction false} SameValue(a: bytes, b: bytes, k: nat)
    requires k <= |a| && k <= |b| && ValueOf(a, k) == ValueOf(b, k)
    ensures a[..k] == b[..k]
  {
    if k > 0 {
      ValueFits(a, k - 1);
      ValueFits(b, k - 1);
      TopDigit(ValueOf(a, k - 1), ValueOf(b, k - 1), ByteValue(a[k - 1]), ByteValue(b[k - 1]), Weight(k - 1));
      SameByte(a[k - 1], b[k - 1]);
      SameValue(a, b, k - 1);
      assert a[..k] == a[..k - 1] + [a[k - 1]] && b[..k] == b[..k - 1] + [b[k - 1]];
    }
  }
}
