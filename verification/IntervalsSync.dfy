/** The first gap that Next reports, and the loop that fills gap after gap. */
module IntervalsSync {
  import opened Intervals
  import opened IntervalsAdd

  /** x - 1 in uint64. */
  function Dec(x: uint64): uint64 {
    if x == 0 then MAX else x - 1
  }

  datatype Gap = Gap(start: uint64, end: uint64, empty: bool)

  function RawNext(iStart: uint64, r: seq<Range>): Gap {
    if |r| == 0 then Gap(iStart, 0, false)
    else if r[0].lo != iStart then Gap(iStart, Dec(r[0].lo), false)
    else if |r| == 1 then Gap(Inc(r[0].hi), 0, false)
    else Gap(Inc(r[0].hi), Dec(r[1].lo), false)
  }

  /** Next: the raw gap cut off at the ceiling, if there is one. */
  function Next(iStart: uint64, r: seq<Range>, ceiling: uint64): Gap {
    var g := RawNext(iStart, r);
    if ceiling == 0 then g
    else
      var hitStart := g.start > ceiling;
      var hitEnd := g.end == 0 || g.end > ceiling;
      Gap(if hitStart then ceiling else g.start, if hitEnd then ceiling else g.end, hitStart && hitEnd)
  }

  function Last(r: seq<Range>): uint64 {
    if |r| == 0 then 0 else r[|r| - 1].hi
  }

  // ----- what Next promises -----

  ghost predicate AllCovered(r: seq<Range>, from: int, to: int) {
    forall x :: from <= x < to ==> Covered(r, x)
  }

  ghost predicate NoneCovered(r: seq<Range>, from: int, to: int) {
    forall x :: from <= x <= to ==> !Covered(r, x)
  }

  /**
   A gap is right when nothing below it is missing and it runs up to the next covered point (or
   the ceiling, or for ever when end is 0); it is empty only when nothing up to the ceiling is missing.
   */
  ghost predicate Right(iStart: uint64, r: seq<Range>, ceiling: uint64, g: Gap) {
    if g.empty then
      ceiling > 0 && AllCovered(r, iStart, ceiling + 1)
    else
      && iStart <= g.start && AllCovered(r, iStart, g.start)
      && if ceiling == 0 && g.end == 0 then
           NoneCovered(r, g.start, MAX)
         else
           && g.start <= g.end && NoneCovered(r, g.start, g.end)
           && (ceiling > 0 ==> g.end <= ceiling)
           && (g.end == ceiling || Covered(r, g.end + 1))
  }

  /** Where the encoding of gaps has room: 0 as an end means no limit, and there is a gap to report. */
  predicate HasGap(iStart: uint64, r: seq<Range>) {
    && !(iStart == 0 && |r| > 0 && r[0].lo == 1)
    && !(|r| == 1 && r[0].lo == iStart && r[0].hi == MAX)
  }

  lemma BelowFirst(iStart: uint64, r: seq<Range>, x: int)
    requires Normal(iStart, r) && (|r| > 0 ==> x < r[0].lo)
    ensures !Covered(r, x)
  {
    forall i | 0 <= i < |r| ensures !Within(x, r[i]) {
      if i > 0 {
        assert r[0].hi + 1 < r[i].lo;
      }
    }
  }

  lemma BetweenFirstTwo(iStart: uint64, r: seq<Range>, x: int)
    requires Normal(iStart, r) && |r| > 0 && r[0].hi < x && (|r| > 1 ==> x < r[1].lo)
    ensures !Covered(r, x)
  {
    forall i | 0 <= i < |r| ensures !Within(x, r[i]) {
      if i > 1 {
        assert r[1].hi + 1 < r[i].lo;
      }
    }
  }

  /** The raw answer in a state that has room for it. */
  lemma RawNextIsRight(iStart: uint64, r: seq<Range>)
    requires Normal(iStart, r) && HasGap(iStart, r)
    ensures
      var g := RawNext(iStart, r);
      && iStart <= g.start && AllCovered(r, iStart, g.start)
      && (if g.end == 0 then NoneCovered(r, g.start, MAX)
          else g.start <= g.end && NoneCovered(r, g.start, g.end) && Covered(r, g.end + 1))
  {
    var g := RawNext(iStart, r);
    if |r| == 0 {
    } else if r[0].lo != iStart {
      forall x | g.start <= x <= g.end ensures !Covered(r, x) {
        BelowFirst(iStart, r, x);
      }
      assert Within(g.end + 1, r[0]);
    } else {
      TopIsLast(iStart, r, 0);
      forall x | iStart <= x < g.start ensures Covered(r, x) {
        assert Within(x, r[0]);
      }
      forall x | g.start <= x && (|r| > 1 ==> x <= g.end) ensures !Covered(r, x) {
        BetweenFirstTwo(iStart, r, x);
      }
      if |r| > 1 {
        assert r[0].hi + 1 < r[1].lo;
        assert Within(g.end + 1, r[1]);
      }
    }
  }

  /** Next reports the first gap if and only if its answer has room for it. */
  lemma NextIsRightIff(iStart: uint64, r: seq<Range>, ceiling: uint64)
    requires Normal(iStart, r)
    ensures Right(iStart, r, ceiling, Next(iStart, r, ceiling)) <==> HasGap(iStart, r)
  {
    var g := Next(iStart, r, ceiling);
    if HasGap(iStart, r) {
      RawNextIsRight(iStart, r);
    } else if iStart == 0 && |r| > 0 && r[0].lo == 1 {
      assert g == Gap(0, ceiling, false);
      assert Within(1, r[0]);
      assert Covered(r, 1);
    } else {
      assert g == Gap(0, ceiling, false);
      assert Within(iStart, r[0]);
      assert Covered(r, iStart);
    }
  }

  /** From 0 on with [1, 2] stored: the gap [0, 0] is reported as [0, 5], which holds the covered points 1 and 2. */
  lemma NextMisreportsZero()
    ensures
      var r := AddTo(0, [], 1, 2);
      && r == [Range(1, 2)] && Next(0, r, 5) == Gap(0, 5, false)
      && Covered(r, 1) && !Right(0, r, 5, Next(0, r, 5))
  {
    AddToEmpty(0, 1, 2);
    NextIsRightIff(0, [Range(1, 2)], 5);
    assert Within(1, [Range(1, 2)][0]);
  }

  /** Last is the greatest covered point. */
  lemma LastIsGreatest(iStart: uint64, r: seq<Range>, x: int)
    requires Normal(iStart, r) && Covered(r, x)
    ensures Covered(r, Last(r)) && x <= Last(r)
  {
    var i :| 0 <= i < |r| && Within(x, r[i]);
    HullHolds(iStart, r, 0, |r|, i);
    assert Within(Last(r), r[|r| - 1]);
  }

  // ----- filling gaps -----

  /** A list a sync can work on: its points stay below the top of uint64. */
  predicate Syncable(iStart: uint64, r: seq<Range>) {
    && Normal(iStart, r)
    && (forall i :: 0 <= i < |r| ==> r[i].hi < MAX)
    && !(iStart == 0 && |r| > 0 && r[0].lo == 1)
  }

  /** A range that begins at an uncovered point never lies inside another one. */
  lemma UncoveredStartMerges(iStart: uint64, r: seq<Range>, start: uint64, end: uint64)
    requires Normal(iStart, r) && iStart <= start <= end < MAX && !Covered(r, start)
    ensures Mergeable(iStart, r, start, end)
  {
    forall i | 0 <= i < |r| ensures !Inside(r[i], start, end) {
      assert !Within(start, r[i]);
    }
  }

  lemma MergeKeepsSyncable(iStart: uint64, r: seq<Range>, start: uint64, end: uint64)
    requires Syncable(iStart, r) && iStart <= start <= end < MAX
    requires !Covered(r, start) && (iStart == 0 ==> Covered(r, 0) || start == 0)
    ensures Syncable(iStart, AddTo(iStart, r, start, end))
  {
    UncoveredStartMerges(iStart, r, start, end);
    AddIsMergeIff(iStart, r, start, end);
    var m := AddTo(iStart, r, start, end);
    forall i | 0 <= i < |m| ensures m[i].hi < MAX {
      if m[i].hi == MAX {
        assert Within(MAX, m[i]);
      }
      AddIsUnion(iStart, r, start, end, MAX);
      assert !Covered(r, MAX);
      assert !Within(MAX, m[i]);
    }
    if iStart == 0 {
      AddIsUnion(iStart, r, start, end, 0);
      assert Covered(m, 0);
      if |m| > 0 {
        BelowFirst0(m);
      }
    }
  }

  lemma BelowFirst0(m: seq<Range>)
    requires Normal(0, m) && |m| > 0 && Covered(m, 0)
    ensures m[0].lo == 0
  {
    var i :| 0 <= i < |m| && Within(0, m[i]);
    HullHolds(0, m, 0, |m|, i);
  }

  /** How far a round of take + 1 points goes into a gap. */
  function Top(g: Gap, take: nat): uint64 {
    if g.start + take < g.end then g.start + take else g.end
  }

  /** One round: take the next gap and add a non-empty prefix of it. */
  function Round(iStart: uint64, r: seq<Range>, ceiling: uint64, take: nat): seq<Range> {
    var g := Next(iStart, r, ceiling);
    if g.empty then r else AddTo(iStart, r, g.start, Top(g, take))
  }

  function Rounds(iStart: uint64, r: seq<Range>, ceiling: uint64, takes: seq<nat>): seq<Range>
    decreases |takes|
  {
    if takes == [] then r else Rounds(iStart, Round(iStart, r, ceiling, takes[0]), ceiling, takes[1..])
  }

  lemma NextGap(iStart: uint64, r: seq<Range>, ceiling: uint64, take: nat)
    requires Syncable(iStart, r) && 0 < ceiling < MAX && !Next(iStart, r, ceiling).empty
    ensures
      var g := Next(iStart, r, ceiling);
      && iStart <= g.start <= Top(g, take) <= g.end <= ceiling
      && NoneCovered(r, g.start, g.end) && AllCovered(r, iStart, g.start)
      && !Covered(r, g.start)
  {
    NextIsRightIff(iStart, r, ceiling);
  }

  ghost predicate Adds(r: seq<Range>, after: seq<Range>, from: int, to: int) {
    forall x :: Covered(after, x) <==> Covered(r, x) || from <= x <= to
  }

  lemma AddAdds(iStart: uint64, r: seq<Range>, start: uint64, end: uint64)
    requires Normal(iStart, r) && iStart <= start <= end
    ensures Adds(r, AddTo(iStart, r, start, end), start, end)
  {
    forall x ensures Covered(AddTo(iStart, r, start, end), x) <==> Covered(r, x) || start <= x <= end {
      AddIsUnion(iStart, r, start, end, x);
    }
  }

  lemma RoundAdds(iStart: uint64, r: seq<Range>, ceiling: uint64, take: nat)
    requires Syncable(iStart, r) && 0 < ceiling < MAX && !Next(iStart, r, ceiling).empty
    ensures
      var g := Next(iStart, r, ceiling);
      && iStart <= g.start <= Top(g, take) <= g.end <= ceiling
      && NoneCovered(r, g.start, g.end) && AllCovered(r, iStart, g.start)
      && Syncable(iStart, Round(iStart, r, ceiling, take))
      && Adds(r, Round(iStart, r, ceiling, take), g.start, Top(g, take))
  {
    NextGap(iStart, r, ceiling, take);
    var g := Next(iStart, r, ceiling);
    if iStart == 0 && g.start > 0 {
      assert Covered(r, 0);
    }
    MergeKeepsSyncable(iStart, r, g.start, Top(g, take));
    AddAdds(iStart, r, g.start, Top(g, take));
  }

  /**
   The sync loop can go on for ever: whatever prefixes of the gaps are filled, the list stays
   normal, no covered point is lost, and the next gap is always the first one there is.
   */
  lemma {:induction false} SyncKeeps(iStart: uint64, r: seq<Range>, ceiling: uint64, takes: seq<nat>)
    requires Syncable(iStart, r) && 0 < ceiling < MAX
    ensures
      var after := Rounds(iStart, r, ceiling, takes);
      && Syncable(iStart, after)
      && Right(iStart, after, ceiling, Next(iStart, after, ceiling))
      && forall x :: Covered(r, x) ==> Covered(after, x)
    decreases |takes|
  {
    if takes == [] {
      NextIsRightIff(iStart, r, ceiling);
    } else {
      if !Next(iStart, r, ceiling).empty {
        RoundAdds(iStart, r, ceiling, takes[0]);
      }
      SyncKeeps(iStart, Round(iStart, r, ceiling, takes[0]), ceiling, takes[1..]);
    }
  }

  /** Every round fills at least one point, so ceiling + 1 - start of them are enough for any prefixes. */
  lemma {:induction false} SyncEnds(iStart: uint64, r: seq<Range>, ceiling: uint64, takes: seq<nat>)
    requires Syncable(iStart, r) && 0 < ceiling < MAX
    requires Next(iStart, r, ceiling).empty || |takes| > ceiling - Next(iStart, r, ceiling).start
    ensures AllCovered(Rounds(iStart, r, ceiling, takes), iStart, ceiling + 1)
    ensures Next(iStart, Rounds(iStart, r, ceiling, takes), ceiling).empty
    decreases |takes|
  {
    NextIsRightIff(iStart, r, ceiling);
    var g := Next(iStart, r, ceiling);
    if takes != [] {
      var next := Round(iStart, r, ceiling, takes[0]);
      if !g.empty {
        RoundAdds(iStart, r, ceiling, takes[0]);
        NextIsRightIff(iStart, next, ceiling);
        var h := Next(iStart, next, ceiling);
        assert !h.empty ==> !Covered(next, h.start);
        assert Covered(next, g.start);
      }
      SyncEnds(iStart, next, ceiling, takes[1..]);
    }
  }

  // ----- the loop of the puller -----

  /** nextPeerInterval asks without a limit and takes the start of the gap only. */
  function NextStart(iStart: uint64, r: seq<Range>): uint64 {
    Next(iStart, r, 0).start
  }

  /** histSyncWorker: from the next start to wherever the peer's answer ends, until the start is past the cursor. */
  function Pulls(iStart: uint64, r: seq<Range>, cursor: uint64, tops: seq<uint64>): seq<Range>
    decreases |tops|
  {
    if tops == [] || NextStart(iStart, r) > cursor then r
    else Pulls(iStart, AddTo(iStart, r, NextStart(iStart, r), tops[0]), cursor, tops[1..])
  }

  /** Every answer reaches its start and stays below the top of uint64, and that is all that is known of it. */
  predicate Answers(iStart: uint64, r: seq<Range>, cursor: uint64, tops: seq<uint64>)
    decreases |tops|
  {
    tops != [] && NextStart(iStart, r) <= cursor ==>
      && NextStart(iStart, r) <= tops[0] < MAX
      && Answers(iStart, AddTo(iStart, r, NextStart(iStart, r), tops[0]), cursor, tops[1..])
  }

  lemma PullAdds(iStart: uint64, r: seq<Range>, top: uint64)
    requires Syncable(iStart, r) && NextStart(iStart, r) <= top < MAX
    ensures
      var start := NextStart(iStart, r);
      var next := AddTo(iStart, r, start, top);
      && iStart <= start && AllCovered(r, iStart, start) && !Covered(r, start)
      && Syncable(iStart, next) && Adds(r, next, start, top)
      && NextStart(iStart, next) > top
  {
    var start := NextStart(iStart, r);
    var next := AddTo(iStart, r, start, top);
    NextIsRightIff(iStart, r, 0);
    if iStart == 0 && start > 0 {
      assert Covered(r, 0);
    }
    MergeKeepsSyncable(iStart, r, start, top);
    AddAdds(iStart, r, start, top);
    NextIsRightIff(iStart, next, 0);
    assert !Covered(next, NextStart(iStart, next));
  }

  /**
   The loop with any answers, also ones that run past the end of the gap or past the cursor: the
   list stays normal and can be synced on, the next start is always the first point missing, and
   no covered point is lost.
   */
  lemma {:induction false} PullsKeep(iStart: uint64, r: seq<Range>, cursor: uint64, tops: seq<uint64>)
    requires Syncable(iStart, r) && Answers(iStart, r, cursor, tops)
    ensures
      var after := Pulls(iStart, r, cursor, tops);
      && Syncable(iStart, after) && Right(iStart, after, 0, Next(iStart, after, 0))
      && AllCovered(after, iStart, NextStart(iStart, after)) && !Covered(after, NextStart(iStart, after))
      && forall x :: Covered(r, x) ==> Covered(after, x)
    decreases |tops|
  {
    NextIsRightIff(iStart, r, 0);
    if tops != [] && NextStart(iStart, r) <= cursor {
      PullAdds(iStart, r, tops[0]);
      PullsKeep(iStart, AddTo(iStart, r, NextStart(iStart, r), tops[0]), cursor, tops[1..]);
    }
  }

  /** Every answer fills at least its start, so cursor + 1 - start answers end the loop, with everything up to the cursor covered. */
  lemma {:induction false} PullsEnd(iStart: uint64, r: seq<Range>, cursor: uint64, tops: seq<uint64>)
    requires Syncable(iStart, r) && Answers(iStart, r, cursor, tops)
    requires |tops| >= cursor + 1 - NextStart(iStart, r)
    ensures
      var after := Pulls(iStart, r, cursor, tops);
      NextStart(iStart, after) > cursor && AllCovered(after, iStart, cursor + 1)
    decreases |tops|
  {
    NextIsRightIff(iStart, r, 0);
    if NextStart(iStart, r) <= cursor {
      PullAdds(iStart, r, tops[0]);
      PullsEnd(iStart, AddTo(iStart, r, NextStart(iStart, r), tops[0]), cursor, tops[1..]);
    }
  }

  // ----- whole gaps -----

  /** How many whole gaps there are at most. */
  function GapsLeft(iStart: uint64, r: seq<Range>): nat {
    if |r| > 0 && r[0].lo == iStart then |r| else |r| + 1
  }

  lemma MergedAt(r: seq<Range>, start: uint64, end: uint64, q: nat)
    requires 0 < q <= |r| && r[0].hi + 1 >= start
    requires forall i :: 0 <= i < q ==> r[i].lo <= end + 1
    requires q < |r| ==> r[q].lo > end + 1
    ensures Merged(r, start, end) == [Hull(r, start, end, 0, q)] + r[q..]
  {
    var p, q' := LeftOf(r, start), NotRightOf(r, end);
    assert p == 0;
    assert q' == q;
    assert r[..0] == [];
  }

  lemma FillFirst(iStart: uint64, r: seq<Range>)
    requires Normal(iStart, r) && |r| > 0 && iStart < r[0].lo
    ensures Merged(r, iStart, r[0].lo - 1) == [Range(iStart, r[0].hi)] + r[1..]
  {
    assert r[0].lo <= r[0].hi;
    assert |r| > 1 ==> r[0].hi + 1 < r[1].lo;
    MergedAt(r, iStart, r[0].lo - 1, 1);
  }

  lemma FillSecond(iStart: uint64, r: seq<Range>)
    requires Normal(iStart, r) && |r| > 1 && r[0].hi + 1 < r[1].lo
    ensures Merged(r, r[0].hi + 1, r[1].lo - 1) == [Range(r[0].lo, r[1].hi)] + r[2..]
  {
    assert r[0].lo <= r[0].hi && r[1].lo <= r[1].hi;
    assert |r| > 2 ==> r[1].hi + 1 < r[2].lo;
    MergedAt(r, r[0].hi + 1, r[1].lo - 1, 2);
  }

  /** Filling a whole gap below the ceiling leaves one gap less. */
  lemma WholeGapCounts(iStart: uint64, r: seq<Range>, ceiling: uint64)
    requires Syncable(iStart, r) && 0 < ceiling < MAX && !Next(iStart, r, ceiling).empty
    ensures
      var next := Round(iStart, r, ceiling, MAX);
      Next(iStart, next, ceiling).empty || GapsLeft(iStart, next) < GapsLeft(iStart, r)
  {
    var next := Round(iStart, r, ceiling, MAX);
    var g := Next(iStart, r, ceiling);
    RoundAdds(iStart, r, ceiling, MAX);
    if g.end == ceiling {
      NextIsRightIff(iStart, next, ceiling);
      var h := Next(iStart, next, ceiling);
      assert !h.empty ==> !Covered(next, h.start);
    } else {
      UncoveredStartMerges(iStart, r, g.start, g.end);
      AddIsMergeIff(iStart, r, g.start, g.end);
      if r[0].lo != iStart {
        FillFirst(iStart, r);
      } else {
        assert |r| > 1 && r[0].hi + 1 < r[1].lo;
        FillSecond(iStart, r);
      }
    }
  }

  function WholeRounds(iStart: uint64, r: seq<Range>, ceiling: uint64, n: nat): seq<Range>
    decreases n
  {
    if n == 0 then r else WholeRounds(iStart, Round(iStart, r, ceiling, MAX), ceiling, n - 1)
  }

  lemma {:induction false} WholeRoundsFill(iStart: uint64, r: seq<Range>, ceiling: uint64, n: nat)
    requires Syncable(iStart, r) && 0 < ceiling < MAX
    requires Next(iStart, r, ceiling).empty || n >= GapsLeft(iStart, r)
    ensures Next(iStart, WholeRounds(iStart, r, ceiling, n), ceiling).empty
    ensures AllCovered(WholeRounds(iStart, r, ceiling, n), iStart, ceiling + 1)
    decreases n
  {
    NextIsRightIff(iStart, r, ceiling);
    if n > 0 {
      if !Next(iStart, r, ceiling).empty {
        RoundAdds(iStart, r, ceiling, MAX);
        WholeGapCounts(iStart, r, ceiling);
      }
      WholeRoundsFill(iStart, Round(iStart, r, ceiling, MAX), ceiling, n - 1);
    }
  }

  /** Filling whole gaps covers everything up to the ceiling in at most one round per range and one more. */
  lemma SyncInFewRounds(iStart: uint64, r: seq<Range>, ceiling: uint64)
    requires Syncable(iStart, r) && 0 < ceiling < MAX
    ensures
      var after := WholeRounds(iStart, r, ceiling, |r| + 1);
      AllCovered(after, iStart, ceiling + 1) && Next(iStart, after, ceiling).empty
  {
    WholeRoundsFill(iStart, r, ceiling, |r| + 1);
  }
}
