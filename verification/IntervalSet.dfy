/** The Intervals object (intervals.go), updated in place. */
module IntervalSet {
  import opened Intervals
  import opened IntervalsAdd
  import opened IntervalsSync
  import opened IntervalsCodec

  class IntervalStore {
    var start: uint64
    var ranges: seq<Range>

    ghost predicate Valid()
      reads this
    {
      Normal(start, ranges)
    }

    constructor (start: uint64)
      ensures this.start == start && ranges == [] && Valid()
    {
      this.start := start;
      ranges := [];
    }

    /** The body of the loop of add, up to its break. */
    method VisitRange(range: Range, sc: Scan, endCheck: uint64, j: nat) returns (next: Scan)
      ensures next == Visit(range, sc, endCheck, j)
    {
      next := sc;
      if next.minStartJ < 0 {
        if (next.start <= range.lo && endCheck >= range.lo) || (next.start <= Inc(range.hi) && endCheck >= range.hi) {
          if range.lo < next.start {
            next := next.(start := range.lo);
          }
          next := next.(minStartJ := j);
        }
      }
      if (next.start <= range.hi && endCheck >= range.hi) || (next.start <= range.lo && endCheck >= range.lo) {
        if range.hi > next.end {
          next := next.(end := range.hi);
        }
        next := next.(maxEndJ := j);
      }
    }

    /** The loop of add: how far the new range grows, and the first and last entry it touches. */
    method ScanRanges(from: uint64, to: uint64) returns (sc: Scan)
      ensures sc == ScanFrom(ranges, FirstScan(from, to), EndCheck(to), 0)
    {
      sc := FirstScan(from, to);
      var endCheck := if to == MAX then to else to + 1;
      var j := 0;
      ghost var result := ScanFrom(ranges, sc, endCheck, 0);
      while j < |ranges|
        invariant j <= |ranges| && sc.minStartJ < |ranges| && sc.maxEndJ < |ranges|
        invariant result == ScanFrom(ranges, sc, endCheck, j)
      {
        sc := VisitRange(ranges[j], sc, endCheck, j);
        if Inc(sc.end) <= ranges[j].lo {
          break;
        }
        j := j + 1;
      }
      sc := sc.(at := j);
    }

    /** add: one pass over the sorted ranges, which are then edited in place. */
    method Add(from: uint64, to: uint64)
      modifies this`ranges
      ensures ranges == AddTo(start, old(ranges), from, to)
      ensures old(Valid()) && from <= to ==> (Valid() <==> Mergeable(start, old(ranges), from, to))
    {
      if Normal(start, ranges) && from <= to {
        AddIsMergeIff(start, ranges, from, to);
      }
      var first := from;
      if first < start {
        first := start;
      }
      if to < start {
        return;
      }
      var sc := ScanRanges(first, to);
      SpliceRanges(sc);
    }

    method SpliceRanges(sc: Scan)
      requires sc.at <= |ranges| && sc.minStartJ < |ranges| && sc.maxEndJ < |ranges|
      modifies this`ranges
      ensures ranges == Splice(old(ranges), sc)
    {
      if sc.minStartJ < 0 && sc.maxEndJ < 0 {
        ranges := ranges[..sc.at] + ([Range(sc.start, sc.end)] + ranges[sc.at..]);
        return;
      }
      if sc.minStartJ >= 0 {
        ranges := ranges[sc.minStartJ := ranges[sc.minStartJ].(lo := sc.start)];
      }
      if sc.maxEndJ >= 0 {
        ranges := ranges[sc.maxEndJ := ranges[sc.maxEndJ].(hi := sc.end)];
      }
      if sc.minStartJ >= 0 && sc.maxEndJ >= 0 && sc.minStartJ != sc.maxEndJ {
        ranges := ranges[sc.maxEndJ := ranges[sc.maxEndJ].(lo := sc.start)];
        ranges := ranges[..sc.minStartJ] + ranges[sc.maxEndJ..];
      }
    }

    /** Next, with its deferred adjustment to the ceiling. */
    method NextGap(ceiling: uint64) returns (gap: Gap)
      ensures gap == Next(start, ranges, ceiling)
      ensures Valid() ==> (Right(start, ranges, ceiling, gap) <==> HasGap(start, ranges))
    {
      if Normal(start, ranges) {
        NextIsRightIff(start, ranges, ceiling);
      }
      var l := |ranges|;
      if l == 0 {
        gap := Gap(start, 0, false);
      } else if ranges[0].lo != start {
        gap := Gap(start, Dec(ranges[0].lo), false);
      } else if l == 1 {
        gap := Gap(Inc(ranges[0].hi), 0, false);
      } else {
        gap := Gap(Inc(ranges[0].hi), Dec(ranges[1].lo), false);
      }
      if ceiling > 0 {
        var hitStart, hitEnd := false, false;
        if gap.start > ceiling {
          gap := gap.(start := ceiling);
          hitStart := true;
        }
        if gap.end == 0 || gap.end > ceiling {
          gap := gap.(end := ceiling);
          hitEnd := true;
        }
        gap := gap.(empty := hitStart && hitEnd);
      }
    }

    method LastPoint() returns (end: uint64)
      ensures end == Last(ranges)
      ensures Valid() ==> forall x :: Covered(ranges, x) ==> x <= end && Covered(ranges, end)
    {
      forall x | Normal(start, ranges) && Covered(ranges, x) ensures x <= Last(ranges) && Covered(ranges, Last(ranges)) {
        LastIsGreatest(start, ranges, x);
      }
      var l := |ranges|;
      if l == 0 {
        return 0;
      }
      return ranges[l - 1].hi;
    }

    method MarshalBinary() returns (data: string)
      ensures data == Encode(start, ranges)
    {
      var d := [Format(start)];
      for j := 0 to |ranges|
        invariant d == [Format(start)] + Texts(ranges)[..j]
      {
        var r := ranges[j];
        d := d + [Format(r.lo) + "," + Format(r.hi)];
      }
      assert Texts(ranges)[..|ranges|] == Texts(ranges);
      data := Join(d, ';');
    }

    /** Meant for a fresh object: text without ranges leaves those of the object alone. */
    method UnmarshalBinary(data: string) returns (ok: bool)
      modifies this
      ensures Decoded(start, ranges, ok) == Decode(old(ranges), data)
    {
      var d := Split(data, ';');
      var first := Parse(d[0]);
      start := first.value;
      if !first.ok {
        return false;
      }
      if |d| == 1 {
        return true;
      }
      ranges := [];
      for j := 1 to |d|
        invariant start == first.value
        invariant Decode(old(ranges), data) == DecodeFrom(start, ranges, d, j)
      {
        var comma := IndexOf(d[j], ',');
        if comma == |d[j]| {
          return false;
        }
        var lo := Parse(d[j][..comma]);
        if !lo.ok {
          return false;
        }
        var hi := Parse(d[j][comma + 1..]);
        if !hi.ok {
          return false;
        }
        Add(lo.value, hi.value);
      }
      return true;
    }
  }

  /** Writing a set out and reading it into a fresh object. */
  method SaveAndLoad(i: IntervalStore) returns (copy: IntervalStore, ok: bool)
    requires i.Valid()
    ensures ok && fresh(copy) && copy.start == i.start
    ensures forall x :: Covered(copy.ranges, x) <==> Covered(i.ranges, x)
    ensures copy.ranges == i.ranges <==> Readable(i.ranges)
  {
    RoundTrip(i.start, i.ranges);
    var data := i.MarshalBinary();
    copy := new IntervalStore(0);
    ok := copy.UnmarshalBinary(data);
  }
}
