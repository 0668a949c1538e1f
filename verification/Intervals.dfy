/** The interval set of pkg/intervalstore: adding a range to a sorted list in one pass. */
module Intervals {
  const MAX: nat := 0xFFFF_FFFF_FFFF_FFFF

  type uint64 = x: int | 0 <= x <= MAX

  datatype Range = Range(lo: uint64, hi: uint64)

  /** x + 1 in uint64. */
  function Inc(x: uint64): uint64 {
    if x == MAX then 0 else x + 1
  }

  function Lower(x: uint64, y: uint64): uint64 { if x <= y then x else y }

  function Upper(x: uint64, y: uint64): uint64 { if x <= y then y else x }

  // ----- normal form and meaning -----

  /** Sorted, disjoint and non-adjacent ranges, none below start. */
  predicate Normal(start: uint64, r: seq<Range>) {
    && (forall i :: 0 <= i < |r| ==> start <= r[i].lo <= r[i].hi)
    && (forall i, j :: 0 <= i < j < |r| ==> r[i].hi + 1 < r[j].lo)
  }

  predicate Within(x: int, range: Range) {
    range.lo <= x <= range.hi
  }

  predicate Covered(r: seq<Range>, x: int) {
    exists i :: 0 <= i < |r| && Within(x, r[i])
  }

  // ----- add -----

  /** The variables of the loop in add: the growing range, and the first and last list entry it touches. */
  datatype Scan = Scan(start: uint64, end: uint64, minStartJ: int, maxEndJ: int, at: nat)

  predicate StartsAt(range: Range, start: uint64, endCheck: uint64) {
    (start <= range.lo && endCheck >= range.lo) || (start <= Inc(range.hi) && endCheck >= range.hi)
  }

  predicate EndsAt(range: Range, start: uint64, endCheck: uint64) {
    (start <= range.hi && endCheck >= range.hi) || (start <= range.lo && endCheck >= range.lo)
  }

  /** The loop body for the j-th range, up to its break. */
  function Visit(range: Range, sc: Scan, endCheck: uint64, j: nat): Scan {
    var started :=
      if sc.minStartJ < 0 && StartsAt(range, sc.start, endCheck) then
        sc.(start := Lower(range.lo, sc.start), minStartJ := j)
      else sc;
    if EndsAt(range, started.start, endCheck) then
      started.(end := Upper(range.hi, started.end), maxEndJ := j)
    else started
  }

  function ScanFrom(r: seq<Range>, sc: Scan, endCheck: uint64, j: nat): (res: Scan)
    requires j <= |r| && sc.minStartJ < |r| && sc.maxEndJ < |r|
    ensures j <= res.at <= |r| && res.minStartJ < |r| && res.maxEndJ < |r|
    decreases |r| - j
  {
    if j == |r| then sc.(at := j)
    else
      var next := Visit(r[j], sc, endCheck, j);
      if Inc(next.end) <= r[j].lo then next.(at := j) else ScanFrom(r, next, endCheck, j + 1)
  }

  /** What add does with the list once the loop is over. */
  function Splice(r: seq<Range>, sc: Scan): seq<Range>
    requires sc.at <= |r| && sc.minStartJ < |r| && sc.maxEndJ < |r|
  {
    if sc.minStartJ < 0 && sc.maxEndJ < 0 then
      r[..sc.at] + [Range(sc.start, sc.end)] + r[sc.at..]
    else
      var a := if sc.minStartJ >= 0 then r[sc.minStartJ := r[sc.minStartJ].(lo := sc.start)] else r;
      var b := if sc.maxEndJ >= 0 then a[sc.maxEndJ := a[sc.maxEndJ].(hi := sc.end)] else a;
      if sc.minStartJ >= 0 && sc.maxEndJ >= 0 && sc.minStartJ != sc.maxEndJ then
        var d := b[sc.maxEndJ := b[sc.maxEndJ].(lo := sc.start)];
        d[..sc.minStartJ] + d[sc.maxEndJ..]
      else b
  }

  function FirstScan(start: uint64, end: uint64): Scan {
    Scan(start, end, -1, -1, 0)
  }

  function EndCheck(end: uint64): uint64 {
    if end == MAX then end else end + 1
  }

  /** The list after add, for every input. */
  function AddTo(iStart: uint64, r: seq<Range>, start: uint64, end: uint64): seq<Range> {
    if end < iStart then r
    else Splice(r, ScanFrom(r, FirstScan(Upper(start, iStart), end), EndCheck(end), 0))
  }

  // ----- the merge that add stands for -----

  /** How many ranges lie before a range that begins at start, with a gap between. */
  function LeftOf(r: seq<Range>, start: uint64): (p: nat)
    ensures p <= |r|
    ensures forall i :: 0 <= i < p ==> r[i].hi + 1 < start
    ensures p < |r| ==> r[p].hi + 1 >= start
  {
    if r == [] || r[0].hi + 1 >= start then 0 else LeftOf(r[1..], start) + 1
  }

  /** How many ranges do not lie after a range that ends at end, with a gap between. */
  function NotRightOf(r: seq<Range>, end: uint64): (q: nat)
    ensures q <= |r|
    ensures forall i :: 0 <= i < q ==> r[i].lo <= end + 1
    ensures q < |r| ==> r[q].lo > end + 1
  {
    if r == [] || r[0].lo > end + 1 then 0 else NotRightOf(r[1..], end) + 1
  }

  /** The ranges before, one hull of the new range and all it touches, the ranges after. */
  function Merged(r: seq<Range>, start: uint64, end: uint64): seq<Range> {
    var p, q := LeftOf(r, start), NotRightOf(r, end);
    if p >= q then r[..p] + [Range(start, end)] + r[p..]
    else r[..p] + [Range(Lower(r[p].lo, start), Upper(r[q - 1].hi, end))] + r[q..]
  }

  lemma LeftBeforeRight(iStart: uint64, r: seq<Range>, start: uint64, end: uint64)
    requires Normal(iStart, r) && start <= end
    ensures LeftOf(r, start) <= NotRightOf(r, end)
  {
    var p, q := LeftOf(r, start), NotRightOf(r, end);
    if q < |r| {
      assert r[q].lo <= r[q].hi;
      assert !(r[q].hi + 1 < start);
    }
  }

  lemma NormalParts(iStart: uint64, r: seq<Range>, p: nat, q: nat)
    requires Normal(iStart, r) && p <= q <= |r|
    ensures Normal(iStart, r[..p]) && Normal(iStart, r[p..q]) && Normal(iStart, r[q..])
  {
  }

  /** Putting a range with gaps on both sides between two normal lists. */
  lemma NormalAround(iStart: uint64, a: seq<Range>, x: Range, c: seq<Range>)
    requires Normal(iStart, a) && Normal(iStart, c) && iStart <= x.lo <= x.hi
    requires forall i :: 0 <= i < |a| ==> a[i].hi + 1 < x.lo
    requires forall i :: 0 <= i < |c| ==> x.hi + 1 < c[i].lo
    ensures Normal(iStart, a + [x] + c)
  {
    var m := a + [x] + c;
    forall i, j | 0 <= i < j < |m| ensures m[i].hi + 1 < m[j].lo {
      if j < |a| {
        assert a[i].hi + 1 < a[j].lo;
      } else if i > |a| {
        assert c[i - |a| - 1].hi + 1 < c[j - |a| - 1].lo;
      } else if i < |a| < j {
        assert a[i].hi + 1 < x.lo && x.hi + 1 < c[j - |a| - 1].lo;
      }
    }
  }

  /** The hull of the new range and the q - p ranges it touches. */
  function Hull(r: seq<Range>, start: uint64, end: uint64, p: nat, q: nat): Range
    requires p < q <= |r|
  {
    Range(Lower(r[p].lo, start), Upper(r[q - 1].hi, end))
  }

  lemma LeftIsApart(iStart: uint64, r: seq<Range>, start: uint64, p: nat, i: nat)
    requires Normal(iStart, r) && p == LeftOf(r, start) && i < p
    ensures r[i].hi + 1 < start && (p < |r| ==> r[i].hi + 1 < r[p].lo)
  {
  }

  lemma RightIsApart(iStart: uint64, r: seq<Range>, end: uint64, q: nat, i: nat)
    requires Normal(iStart, r) && q == NotRightOf(r, end) && q <= i < |r|
    ensures r[i].lo > end + 1 && (q > 0 ==> r[i].lo > r[q - 1].hi + 1)
  {
    if i > q {
      assert r[q].hi + 1 < r[i].lo;
    }
  }

  lemma MergedIsNormal(iStart: uint64, r: seq<Range>, start: uint64, end: uint64)
    requires Normal(iStart, r) && iStart <= start <= end
    ensures Normal(iStart, Merged(r, start, end))
  {
    var p, q := LeftOf(r, start), NotRightOf(r, end);
    LeftBeforeRight(iStart, r, start, end);
    NormalParts(iStart, r, p, q);
    forall i | 0 <= i < |r[..p]| ensures r[..p][i].hi + 1 < start && (p < q ==> r[..p][i].hi + 1 < r[p].lo) {
      LeftIsApart(iStart, r, start, p, i);
    }
    forall i | 0 <= i < |r[q..]| ensures end + 1 < r[q..][i].lo && (p < q ==> r[q - 1].hi + 1 < r[q..][i].lo) {
      RightIsApart(iStart, r, end, q, q + i);
    }
    NormalAround(iStart, r[..p], if p < q then Hull(r, start, end, p, q) else Range(start, end), r[q..]);
  }

  lemma CoveredConcat(a: seq<Range>, b: seq<Range>, x: int)
    ensures Covered(a + b, x) <==> Covered(a, x) || Covered(b, x)
  {
    if Covered(a, x) {
      var i :| 0 <= i < |a| && Within(x, a[i]);
      assert Within(x, (a + b)[i]);
    }
    if Covered(b, x) {
      var i :| 0 <= i < |b| && Within(x, b[i]);
      assert Within(x, (a + b)[|a| + i]);
    }
    if Covered(a + b, x) {
      var i :| 0 <= i < |a + b| && Within(x, (a + b)[i]);
      if i < |a| {
        assert Within(x, a[i]);
      } else {
        assert Within(x, b[i - |a|]);
      }
    }
  }

  lemma CoveredOne(range: Range, x: int)
    ensures Covered([range], x) <==> Within(x, range)
  {
    if Within(x, range) {
      assert Within(x, [range][0]);
    }
  }

  /** The hull adds nothing to the new range and the ranges it touches. */
  lemma HullCovers(iStart: uint64, r: seq<Range>, start: uint64, end: uint64, p: nat, q: nat, x: int)
    requires Normal(iStart, r) && p < q <= |r| && r[p].hi + 1 >= start && r[q - 1].lo <= end + 1
    ensures Within(x, Hull(r, start, end, p, q)) <== Covered(r[p..q], x) || start <= x <= end
    ensures start <= end && Within(x, Hull(r, start, end, p, q)) ==> Covered(r[p..q], x) || start <= x <= end
  {
    var mid := r[p..q];
    if Covered(mid, x) {
      var i :| 0 <= i < |mid| && Within(x, mid[i]);
      HullHolds(iStart, r, p, q, p + i);
    }
    if start <= end && Within(x, Hull(r, start, end, p, q)) && !(start <= x <= end) {
      if x < start {
        assert Within(x, mid[0]);
      } else {
        assert Within(x, mid[q - 1 - p]);
      }
    }
  }

  lemma HullHolds(iStart: uint64, r: seq<Range>, p: nat, q: nat, i: nat)
    requires Normal(iStart, r) && p <= i < q <= |r|
    ensures r[p].lo <= r[i].lo && r[i].hi <= r[q - 1].hi
  {
    if p < i {
      assert r[p].hi + 1 < r[i].lo;
    }
    if i < q - 1 {
      assert r[i].hi + 1 < r[q - 1].lo;
    }
  }

  lemma CoveredThree(a: seq<Range>, m: seq<Range>, c: seq<Range>, x: int)
    ensures Covered(a + m + c, x) <==> Covered(a, x) || Covered(m, x) || Covered(c, x)
  {
    CoveredConcat(a + m, c, x);
    CoveredConcat(a, m, x);
  }

  lemma ThreeParts(r: seq<Range>, p: nat, q: nat)
    requires p <= q <= |r|
    ensures r == r[..p] + r[p..q] + r[q..]
  {
  }

  /** Merging covers the old points and the new range, and nothing else. */
  lemma MergedCovers(iStart: uint64, r: seq<Range>, start: uint64, end: uint64, x: int)
    requires Normal(iStart, r) && start <= end
    ensures Covered(Merged(r, start, end), x) <==> Covered(r, x) || start <= x <= end
  {
    LeftBeforeRight(iStart, r, start, end);
    var p, q := LeftOf(r, start), NotRightOf(r, end);
    var mid := if p < q then Hull(r, start, end, p, q) else Range(start, end);
    CoveredThree(r[..p], [mid], r[q..], x);
    CoveredOne(mid, x);
    ThreeParts(r, p, q);
    CoveredThree(r[..p], r[p..q], r[q..], x);
    if p < q {
      HullCovers(iStart, r, start, end, p, q, x);
    }
  }

  /** Normal lists are determined by the points they cover. */
  lemma {:induction false} NormalIsUnique(start: uint64, a: seq<Range>, b: seq<Range>)
    requires Normal(start, a) && Normal(start, b)
    requires forall x :: Covered(a, x) <==> Covered(b, x)
    ensures a == b
  {
    if a != [] && b != [] {
      FirstRange(start, a, b);
      FirstRange(start, b, a);
      TailsCoverAlike(start, a, b);
      NormalIsUnique(start, a[1..], b[1..]);
      assert a == [a[0]] + a[1..];
      assert b == [b[0]] + b[1..];
    } else if a != [] {
      CoversItsFirst(a);
    } else if b != [] {
      CoversItsFirst(b);
    }
  }

  lemma CoversItsFirst(a: seq<Range>)
    requires a != [] && a[0].lo <= a[0].hi
    ensures Covered(a, a[0].lo)
  {
    assert Within(a[0].lo, a[0]);
  }

  lemma TailsCoverAlike(start: uint64, a: seq<Range>, b: seq<Range>)
    requires Normal(start, a) && Normal(start, b) && a != [] && b != [] && a[0] == b[0]
    requires forall x :: Covered(a, x) <==> Covered(b, x)
    ensures forall x :: Covered(a[1..], x) <==> Covered(b[1..], x)
  {
    forall x ensures Covered(a[1..], x) <==> Covered(b[1..], x) {
      CoveredTail(start, a, x);
      CoveredTail(start, b, x);
    }
  }

  lemma CoveredTail(start: uint64, a: seq<Range>, x: int)
    requires Normal(start, a) && a != []
    ensures Covered(a[1..], x) <==> Covered(a, x) && x > a[0].hi
  {
    if Covered(a[1..], x) {
      var i :| 0 <= i < |a[1..]| && Within(x, a[1..][i]);
      assert Within(x, a[i + 1]);
    }
    if Covered(a, x) && x > a[0].hi {
      var i :| 0 <= i < |a| && Within(x, a[i]);
      assert Within(x, a[1..][i - 1]);
    }
  }

  lemma BeyondFirst(start: uint64, b: seq<Range>)
    requires Normal(start, b) && b != []
    ensures !Covered(b, b[0].hi + 1)
  {
    forall i | 0 <= i < |b| ensures !Within(b[0].hi + 1, b[i]) {
      if i > 0 {
        assert b[0].hi + 1 < b[i].lo;
      }
    }
  }

  /** The first range runs from the least covered point to just before the next gap. */
  lemma FirstRange(start: uint64, a: seq<Range>, b: seq<Range>)
    requires Normal(start, a) && Normal(start, b) && a != [] && b != []
    requires forall x :: Covered(a, x) <==> Covered(b, x)
    ensures b[0].lo <= a[0].lo && (a[0].lo == b[0].lo ==> a[0].hi <= b[0].hi)
  {
    assert Within(a[0].lo, a[0]);
    assert Covered(b, a[0].lo);
    BeyondFirst(start, b);
    assert !Covered(a, b[0].hi + 1);
    assert !Within(b[0].hi + 1, a[0]);
  }
}
