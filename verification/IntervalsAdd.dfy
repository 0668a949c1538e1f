/** The one-pass loop of add is the merge, exactly where it can be. */
module IntervalsAdd {
  import opened Intervals

  /** The new range lies strictly inside the old one: neither test of the loop notices. */
  predicate Inside(range: Range, start: uint64, end: uint64) {
    range.lo < start && end + 1 < range.hi
  }

  /**
   When add yields a normal list. At the top of uint64 the break test wraps around, and the loop
   looks at the first range only.
   */
  predicate Mergeable(iStart: uint64, r: seq<Range>, start: uint64, end: uint64) {
    var s := Upper(start, iStart);
    || end < iStart
    || (end < MAX && forall i :: 0 <= i < |r| ==> !Inside(r[i], s, end))
    || (end == MAX && (|r| == 0 || (|r| == 1 && s <= r[0].hi + 1)))
  }

  // ----- the scan -----

  lemma {:induction false} ScanSkipsLeft(iStart: uint64, r: seq<Range>, s: uint64, e: uint64, j: nat)
    requires Normal(iStart, r) && s <= e < MAX && j <= LeftOf(r, s)
    ensures ScanFrom(r, FirstScan(s, e), e + 1, j) == ScanFrom(r, FirstScan(s, e), e + 1, LeftOf(r, s))
    decreases LeftOf(r, s) - j
  {
    if j < LeftOf(r, s) {
      assert r[j].hi + 1 < s;
      ScanSkipsLeft(iStart, r, s, e, j + 1);
    }
  }

  /** The scan once it has merged the ranges from the p-th to just before the j-th. */
  function Grown(r: seq<Range>, s: uint64, e: uint64, p: nat, j: nat): Scan
    requires p < j <= |r|
  {
    Scan(Lower(r[p].lo, s), Upper(r[j - 1].hi, e), p, j - 1, 0)
  }

  /** The ranges from the q-th on lie beyond the new range, the others do not. */
  predicate EndsBefore(r: seq<Range>, e: uint64, q: nat) {
    && q <= |r|
    && (q > 0 ==> r[q - 1].lo <= e + 1)
    && (q < |r| ==> r[q].lo > e + 1)
  }

  lemma GrowsByOne(iStart: uint64, r: seq<Range>, s: uint64, e: uint64, p: nat, j: nat, q: nat)
    requires Normal(iStart, r) && s <= e < MAX && p < j < q && EndsBefore(r, e, q)
    ensures Visit(r[j], Grown(r, s, e, p, j), e + 1, j) == Grown(r, s, e, p, j + 1)
  {
    HullHolds(iStart, r, j, q, j);
    HullHolds(iStart, r, p, q, j);
    assert r[p].hi + 1 < r[j].lo;
    assert r[j].lo <= r[q - 1].lo;
    assert r[j - 1].hi + 1 < r[j].lo;
  }

  lemma GrowsNoMore(iStart: uint64, r: seq<Range>, s: uint64, e: uint64, p: nat, q: nat)
    requires Normal(iStart, r) && s <= e < MAX && p < q < |r| && EndsBefore(r, e, q)
    ensures Visit(r[q], Grown(r, s, e, p, q), e + 1, q) == Grown(r, s, e, p, q)
    ensures Inc(Upper(r[q - 1].hi, e)) <= r[q].lo
  {
    assert r[q - 1].hi + 1 < r[q].lo && r[q].lo > e + 1;
  }

  lemma {:induction false} ScanGrows(iStart: uint64, r: seq<Range>, s: uint64, e: uint64, p: nat, j: nat, q: nat)
    requires Normal(iStart, r) && s <= e < MAX && p < j <= q && EndsBefore(r, e, q)
    ensures ScanFrom(r, Grown(r, s, e, p, j), e + 1, j).(at := 0) == Grown(r, s, e, p, q)
    decreases |r| - j
  {
    if j < q {
      GrowsByOne(iStart, r, s, e, p, j, q);
      if Inc(Upper(r[j].hi, e)) > r[j].lo {
        ScanGrows(iStart, r, s, e, p, j + 1, q);
      } else {
        TopIsLast(iStart, r, j);
      }
    } else if q < |r| {
      GrowsNoMore(iStart, r, s, e, p, q);
    }
  }

  lemma TopIsLast(iStart: uint64, r: seq<Range>, j: nat)
    requires Normal(iStart, r) && j < |r|
    ensures r[j].hi == MAX ==> j == |r| - 1
  {
    if j + 1 < |r| {
      assert r[j].hi + 1 < r[j + 1].lo;
    }
  }

  lemma SpliceHull(r: seq<Range>, s: uint64, e: uint64, p: nat, q: nat, sc: Scan)
    requires p < q <= |r| && sc.at <= |r| && sc.(at := 0) == Grown(r, s, e, p, q)
    ensures Splice(r, sc) == r[..p] + [Hull(r, s, e, p, q)] + r[q..]
  {
  }

  /** The first range that can be touched is touched: the scan grows from there. */
  lemma ScanTouches(iStart: uint64, r: seq<Range>, s: uint64, e: uint64, p: nat)
    requires Normal(iStart, r) && s <= e < MAX && p == LeftOf(r, s) < NotRightOf(r, e)
    requires !Inside(r[p], s, e) && r[p].hi < MAX
    ensures ScanFrom(r, FirstScan(s, e), e + 1, p).(at := 0) == Grown(r, s, e, p, NotRightOf(r, e))
  {
    assert r[p].lo <= r[p].hi;
    assert Visit(r[p], FirstScan(s, e), e + 1, p) == Grown(r, s, e, p, p + 1);
    ScanGrows(iStart, r, s, e, p, p + 1, NotRightOf(r, e));
  }

  /** The last range reaches the top, so inc wraps in the tests; nothing is lost by it. */
  lemma TopVisit(r: seq<Range>, s: uint64, e: uint64, p: nat)
    requires p < |r| && r[p].lo <= r[p].hi == MAX && s <= e < MAX && r[p].lo <= e + 1
    requires !Inside(r[p], s, e)
    ensures
      var sc := Visit(r[p], FirstScan(s, e), e + 1, p);
      && sc.end == MAX && sc.maxEndJ == p
      && if s <= r[p].lo then sc.start == s && sc.minStartJ == p else sc.minStartJ < 0
  {
  }

  lemma ScanTouchesTop(iStart: uint64, r: seq<Range>, s: uint64, e: uint64, p: nat)
    requires Normal(iStart, r) && s <= e < MAX && p == |r| - 1 && r[p].lo <= e + 1
    requires !Inside(r[p], s, e) && r[p].hi == MAX
    ensures Splice(r, ScanFrom(r, FirstScan(s, e), e + 1, p)) == r[..p] + [Hull(r, s, e, p, p + 1)] + r[p + 1..]
  {
    assert r[p].lo <= r[p].hi;
    TopVisit(r, s, e, p);
    var sc := Visit(r[p], FirstScan(s, e), e + 1, p);
    if s <= r[p].lo {
      SpliceHull(r, s, e, p, p + 1, sc.(at := p));
    } else {
      assert r[p := r[p].(hi := MAX)] == r;
    }
  }

  lemma ScanMerges(iStart: uint64, r: seq<Range>, s: uint64, e: uint64)
    requires Normal(iStart, r) && iStart <= s <= e < MAX
    requires forall i :: 0 <= i < |r| ==> !Inside(r[i], s, e)
    ensures AddTo(iStart, r, s, e) == Merged(r, s, e)
  {
    var p, q := LeftOf(r, s), NotRightOf(r, e);
    LeftBeforeRight(iStart, r, s, e);
    ScanSkipsLeft(iStart, r, s, e, 0);
    if p == q {
      ScanMisses(iStart, r, s, e, p);
    } else if r[p].hi < MAX {
      ScanTouches(iStart, r, s, e, p);
      SpliceHull(r, s, e, p, q, ScanFrom(r, FirstScan(s, e), e + 1, p));
    } else {
      TopIsLast(iStart, r, p);
      ScanTouchesTop(iStart, r, s, e, p);
    }
  }

  /** Nothing is touched from the k-th range on: the new range goes in there. */
  lemma ScanMisses(iStart: uint64, r: seq<Range>, s: uint64, e: uint64, k: nat)
    requires Normal(iStart, r) && s <= e < MAX && k <= |r| && (k < |r| ==> r[k].lo > e + 1)
    ensures ScanFrom(r, FirstScan(s, e), e + 1, k) == FirstScan(s, e).(at := k)
  {
    if k < |r| {
      assert r[k].lo <= r[k].hi;
      assert Visit(r[k], FirstScan(s, e), e + 1, k) == FirstScan(s, e);
    }
  }

  lemma ScanPassesInside(iStart: uint64, r: seq<Range>, s: uint64, e: uint64, k: nat)
    requires Normal(iStart, r) && iStart <= s <= e < MAX && k < |r| && Inside(r[k], s, e)
    ensures AddTo(iStart, r, s, e) == r[..k + 1] + [Range(s, e)] + r[k + 1..]
  {
    InsideIsFirst(iStart, r, s, e, k);
    ScanSkipsLeft(iStart, r, s, e, 0);
    assert Visit(r[k], FirstScan(s, e), e + 1, k) == FirstScan(s, e);
    if k + 1 < |r| {
      assert r[k].hi + 1 < r[k + 1].lo;
    }
    ScanMisses(iStart, r, s, e, k + 1);
  }

  lemma InsideIsFirst(iStart: uint64, r: seq<Range>, s: uint64, e: uint64, k: nat)
    requires Normal(iStart, r) && s <= e && k < |r| && Inside(r[k], s, e)
    ensures LeftOf(r, s) == k
  {
    var p := LeftOf(r, s);
    assert forall i :: 0 <= i < k ==> r[i].hi + 1 < r[k].lo;
  }

  lemma ScanAtTop(iStart: uint64, r: seq<Range>, s: uint64)
    requires Normal(iStart, r) && iStart <= s
    ensures AddTo(iStart, r, s, MAX) ==
      if |r| == 0 then [Range(s, MAX)]
      else if s <= r[0].hi + 1 then [Range(Lower(r[0].lo, s), MAX)] + r[1..]
      else [Range(s, MAX)] + r
  {
    if |r| > 0 {
      var sc := Visit(r[0], FirstScan(s, MAX), MAX, 0);
      assert r[0].lo <= r[0].hi;
      assert Inc(sc.end) == 0;
      assert ScanFrom(r, FirstScan(s, MAX), MAX, 0) == sc.(at := 0);
      if s <= r[0].hi + 1 {
        assert sc.end == MAX && sc.maxEndJ == 0;
        assert sc.minStartJ < 0 ==> r[0].lo < s && r[0].hi == MAX;
      } else {
        assert sc == FirstScan(s, MAX);
      }
    }
  }

  // ----- what add means -----

  /** Whatever the input, the list denotes exactly the old points and the new range, cut off at start. */
  lemma AddIsUnion(iStart: uint64, r: seq<Range>, start: uint64, end: uint64, x: int)
    requires Normal(iStart, r) && start <= end
    ensures Covered(AddTo(iStart, r, start, end), x) <==> Covered(r, x) || Upper(start, iStart) <= x <= end
  {
    var s := Upper(start, iStart);
    if end >= iStart {
      assert AddTo(iStart, r, start, end) == AddTo(iStart, r, s, end);
      if end < MAX {
        if k :| 0 <= k < |r| && Inside(r[k], s, end) {
          ScanPassesInside(iStart, r, s, end, k);
          InsertedCovers(r, Range(s, end), k + 1, x);
          if s <= x <= end {
            assert Within(x, r[k]);
          }
        } else {
          ScanMerges(iStart, r, s, end);
          MergedCovers(iStart, r, s, end, x);
        }
      } else {
        ScanAtTop(iStart, r, s);
        TopCovers(iStart, r, s, x);
      }
    }
  }

  lemma InsertedCovers(r: seq<Range>, range: Range, k: nat, x: int)
    requires k <= |r|
    ensures Covered(r[..k] + [range] + r[k..], x) <==> Covered(r, x) || Within(x, range)
  {
    CoveredThree(r[..k], [range], r[k..], x);
    CoveredOne(range, x);
    assert r == r[..k] + r[k..];
    CoveredConcat(r[..k], r[k..], x);
  }

  lemma TopCovers(iStart: uint64, r: seq<Range>, s: uint64, x: int)
    requires Normal(iStart, r) && iStart <= s
    ensures Covered(AddTo(iStart, r, s, MAX), x) <==> Covered(r, x) || s <= x <= MAX
  {
    ScanAtTop(iStart, r, s);
    if |r| == 0 {
      CoveredOne(Range(s, MAX), x);
    } else if s <= r[0].hi + 1 {
      var first := Range(Lower(r[0].lo, s), MAX);
      CoveredOne(first, x);
      CoveredOne(r[0], x);
      CoveredConcat([first], r[1..], x);
      assert r == [r[0]] + r[1..];
      CoveredConcat([r[0]], r[1..], x);
      TopHull(r[0], s, x);
    } else {
      CoveredOne(Range(s, MAX), x);
      CoveredConcat([Range(s, MAX)], r, x);
    }
  }

  lemma TopHull(range: Range, s: uint64, x: int)
    requires s <= range.hi + 1
    ensures Within(x, Range(Lower(range.lo, s), MAX)) <==> Within(x, range) || s <= x <= MAX
  {
  }

  /** The list stays normal if and only if the new range can be merged, and then it is the merge. */
  lemma AddIsMergeIff(iStart: uint64, r: seq<Range>, start: uint64, end: uint64)
    requires Normal(iStart, r) && start <= end
    ensures Normal(iStart, AddTo(iStart, r, start, end)) <==> Mergeable(iStart, r, start, end)
    ensures Mergeable(iStart, r, start, end) && end >= iStart ==>
      AddTo(iStart, r, start, end) == Merged(r, Upper(start, iStart), end)
  {
    var s := Upper(start, iStart);
    if end >= iStart {
      assert AddTo(iStart, r, start, end) == AddTo(iStart, r, s, end);
      if end < MAX {
        if k :| 0 <= k < |r| && Inside(r[k], s, end) {
          ScanPassesInside(iStart, r, s, end, k);
          var m := AddTo(iStart, r, s, end);
          assert m[k] == r[k] && m[k + 1] == Range(s, end);
          assert !Normal(iStart, m);
        } else {
          ScanMerges(iStart, r, s, end);
          MergedIsNormal(iStart, r, s, end);
        }
      } else {
        AddAtTopIff(iStart, r, s);
      }
    }
  }

  lemma AddAtTopIff(iStart: uint64, r: seq<Range>, s: uint64)
    requires Normal(iStart, r) && iStart <= s
    ensures Normal(iStart, AddTo(iStart, r, s, MAX)) <==> |r| == 0 || (|r| == 1 && s <= r[0].hi + 1)
    ensures |r| == 0 || (|r| == 1 && s <= r[0].hi + 1) ==> AddTo(iStart, r, s, MAX) == Merged(r, s, MAX)
  {
    ScanAtTop(iStart, r, s);
    var m := AddTo(iStart, r, s, MAX);
    if |r| == 0 {
    } else if s <= r[0].hi + 1 {
      if |r| > 1 {
        assert m[0].hi == MAX && m[1] == r[1];
        assert r[1].lo <= MAX;
        assert !(m[0].hi + 1 < m[1].lo);
      } else {
        assert r[1..] == [];
        assert r[0].lo <= MAX + 1;
        LeftBeforeRight(iStart, r, s, MAX);
      }
    } else {
      assert m[0].hi == MAX && m[1] == r[0];
      assert !(m[0].hi + 1 < m[1].lo);
    }
  }

  // ----- lists that add leaves out of order -----

  lemma AddToEmpty(iStart: uint64, start: uint64, end: uint64)
    requires iStart <= start <= end
    ensures AddTo(iStart, [], start, end) == [Range(start, end)]
  {
  }

  /** Adding [1, 10] and then [3, 5], which lies inside it. */
  lemma InnerRangeStays()
    ensures
      var once := AddTo(1, [], 1, 10);
      && once == [Range(1, 10)] && AddTo(1, once, 3, 5) == [Range(1, 10), Range(3, 5)]
      && !Normal(1, AddTo(1, once, 3, 5))
  {
    AddToEmpty(1, 1, 10);
    var once := [Range(1, 10)];
    assert Inside(once[0], 3, 5);
    ScanPassesInside(1, once, 3, 5, 0);
    AddIsMergeIff(1, once, 3, 5);
  }

  /** Adding [1, 2] and then everything from 5 on: the new range is put in front. */
  lemma TopRangeGoesFirst()
    ensures
      var once := AddTo(1, [], 1, 2);
      && once == [Range(1, 2)] && AddTo(1, once, 5, MAX) == [Range(5, MAX), Range(1, 2)]
      && !Normal(1, AddTo(1, once, 5, MAX))
  {
    AddToEmpty(1, 1, 2);
    ScanAtTop(1, [Range(1, 2)], 5);
    AddIsMergeIff(1, [Range(1, 2)], 5, MAX);
  }

  /** Adding in the other order gives a normal list of two ranges that ends at the top. */
  lemma TopRangeFirst()
    ensures AddTo(1, AddTo(1, [], 5, MAX), 1, 2) == [Range(1, 2), Range(5, MAX)]
    ensures Normal(1, [Range(1, 2), Range(5, MAX)])
  {
    AddToEmpty(1, 5, MAX);
    var once := [Range(5, MAX)];
    AddIsMergeIff(1, once, 1, 2);
    assert LeftOf(once, 1) == 0 && NotRightOf(once, 2) == 0;
  }
}
