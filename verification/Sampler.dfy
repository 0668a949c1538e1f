/** The assembly of the reserve sample (pkg/localstore/sampler.go). */
module Sampler {
  /** Transformed addresses are 32-byte digests; bytes.Compare orders them like the big-endian numbers they spell. */
  type Digest = nat

  const SAMPLE_SIZE: nat := 16

  predicate Le(a: Digest, b: Digest) { a < b }

  // ----- what a sample is -----

  predicate Sorted(s: seq<Digest>) {
    forall i, j :: 0 <= i < j < |s| ==> s[i] <= s[j]
  }

  function InsertSorted(s: seq<Digest>, x: Digest): (r: seq<Digest>)
    ensures |r| == |s| + 1
  {
    if s == [] || Le(x, s[0]) then [x] + s else [s[0]] + InsertSorted(s[1..], x)
  }

  /** The delivered items in ascending order, duplicates kept. */
  function Sort(items: seq<Digest>): (r: seq<Digest>)
    ensures |r| == |items|
  {
    if items == [] then [] else InsertSorted(Sort(items[..|items| - 1]), items[|items| - 1])
  }

  function Take(s: seq<Digest>): seq<Digest> {
    if |s| <= SAMPLE_SIZE then s else s[..SAMPLE_SIZE]
  }

  function SampleOf(items: seq<Digest>): seq<Digest> {
    Take(Sort(items))
  }

  lemma {:induction false} InsertSortedItems(s: seq<Digest>, x: Digest)
    ensures multiset(InsertSorted(s, x)) == multiset(s) + multiset{x}
  {
    if s != [] && !Le(x, s[0]) {
      InsertSortedItems(s[1..], x);
      assert s == [s[0]] + s[1..];
    }
  }

  lemma {:induction false} InsertSortedKeeps(s: seq<Digest>, x: Digest)
    requires Sorted(s)
    ensures Sorted(InsertSorted(s, x))
  {
    if s != [] && !Le(x, s[0]) {
      var rest := InsertSorted(s[1..], x);
      InsertSortedKeeps(s[1..], x);
      InsertSortedItems(s[1..], x);
      forall j | 0 <= j < |rest| ensures s[0] <= rest[j] {
        ItemsFrom(s[1..], x, rest, j);
      }
    }
  }

  lemma ItemsFrom(s: seq<Digest>, x: Digest, all: seq<Digest>, j: nat)
    requires multiset(all) == multiset(s) + multiset{x} && j < |all|
    ensures all[j] == x || all[j] in s
  {
    assert all[j] in multiset(all);
    assert all[j] in multiset(s) || all[j] in multiset{x};
  }

  lemma {:induction false} SortIsSorting(items: seq<Digest>)
    ensures Sorted(Sort(items)) && multiset(Sort(items)) == multiset(items)
  {
    if items != [] {
      var init := items[..|items| - 1];
      SortIsSorting(init);
      InsertSortedKeeps(Sort(init), items[|items| - 1]);
      InsertSortedItems(Sort(init), items[|items| - 1]);
      assert items == init + [items[|items| - 1]];
    }
  }

  lemma LeastFirst(s: seq<Digest>, x: Digest)
    requires Sorted(s) && x in multiset(s)
    ensures s != [] && s[0] <= x
  {
    assert x in s;
  }

  lemma TailItems(s: seq<Digest>)
    requires s != []
    ensures multiset(s) == multiset{s[0]} + multiset(s[1..])
  {
    assert s == [s[0]] + s[1..];
  }

  lemma SameTails(a: multiset<Digest>, s: multiset<Digest>, t: multiset<Digest>, x: Digest)
    requires a == multiset{x} + s && a == multiset{x} + t
    ensures s == t
  {
    assert s == a - multiset{x} == t;
  }

  lemma SameHead(s: seq<Digest>, t: seq<Digest>)
    requires Sorted(s) && Sorted(t) && multiset(s) == multiset(t) && s != []
    ensures t != [] && s[0] == t[0]
  {
    TailItems(s);
    LeastFirst(t, s[0]);
    TailItems(t);
    LeastFirst(s, t[0]);
  }

  /** Two sorted sequences of the same items are the same sequence. */
  lemma {:induction false} SortedIsUnique(s: seq<Digest>, t: seq<Digest>)
    requires Sorted(s) && Sorted(t) && multiset(s) == multiset(t)
    ensures s == t
  {
    if s != [] {
      SameHead(s, t);
      TailItems(s);
      TailItems(t);
      SameTails(multiset(s), multiset(s[1..]), multiset(t[1..]), s[0]);
      SortedIsUnique(s[1..], t[1..]);
      assert s == [s[0]] + s[1..];
      assert t == [t[0]] + t[1..];
    } else if t != [] {
      SameHead(t, s);
    }
  }

  /** The order in which the workers deliver makes no difference. */
  lemma SampleIgnoresOrder(items: seq<Digest>, other: seq<Digest>)
    requires multiset(items) == multiset(other)
    ensures SampleOf(items) == SampleOf(other)
  {
    SortIsSorting(items);
    SortIsSorting(other);
    SortedIsUnique(Sort(items), Sort(other));
  }

  lemma SplitSorted(all: seq<Digest>, n: nat)
    requires Sorted(all) && n <= |all|
    ensures Sorted(all[..n])
    ensures multiset(all) == multiset(all[..n]) + multiset(all[n..])
    ensures forall x, y :: x in all[..n] && y in all[n..] ==> x <= y
  {
    assert all == all[..n] + all[n..];
    forall x, y | x in all[..n] && y in all[n..] ensures x <= y {
      var i :| 0 <= i < n && all[..n][i] == x;
      var j :| 0 <= j < |all| - n && all[n..][j] == y;
      assert all[i] == x && all[n + j] == y;
    }
  }

  /** The sample and what was left out: sorted, together all the items, and nothing left out is smaller. */
  lemma SampleIsSmallest(items: seq<Digest>)
    ensures
      var sample := SampleOf(items);
      && |sample| == (if |items| < 16 then |items| else 16)
      && Sorted(sample)
      && exists rest: seq<Digest> ::
           && multiset(items) == multiset(sample) + multiset(rest)
           && forall x, y :: x in sample && y in rest ==> x <= y
  {
    SortIsSorting(items);
    var all := Sort(items);
    var n := |SampleOf(items)|;
    SplitSorted(all, n);
    assert SampleOf(items) == all[..n];
    var rest := all[n..];
    assert multiset(items) == multiset(SampleOf(items)) + multiset(rest);
  }

  // ----- the assembly loop -----

  /** Where insert puts an item: before the first one greater than it. */
  lemma {:induction false} InsertSortedAt(s: seq<Digest>, x: Digest, i: nat)
    requires i <= |s| && (forall j :: 0 <= j < i ==> !Le(x, s[j])) && (i < |s| ==> Le(x, s[i]))
    ensures InsertSorted(s, x) == s[..i] + [x] + s[i..]
    decreases i
  {
    if i > 0 {
      InsertSortedAt(s[1..], x, i - 1);
      assert s[..i] == [s[0]] + s[1..][..i - 1];
      assert s[1..][i - 1..] == s[i..];
    }
  }

  /** Inserting into the sample is inserting into the whole and taking the sample again. */
  lemma {:induction false} TakeInsert(s: seq<Digest>, x: Digest, n: nat)
    requires n <= |s|
    ensures InsertSorted(s, x)[..n] == InsertSorted(s[..n], x)[..n]
  {
    if n > 0 && !Le(x, s[0]) {
      TakeInsert(s[1..], x, n - 1);
      assert s[..n][1..] == s[1..][..n - 1];
      assert InsertSorted(s, x)[..n] == [s[0]] + InsertSorted(s[1..], x)[..n - 1];
      assert InsertSorted(s[..n], x)[..n] == [s[0]] + InsertSorted(s[..n][1..], x)[..n - 1];
    } else if n > 0 {
      assert ([x] + s)[..n] == ([x] + s[..n])[..n];
    }
  }

  lemma SampleNext(items: seq<Digest>, x: Digest)
    ensures SampleOf(items + [x]) == Take(InsertSorted(SampleOf(items), x))
  {
    var more := items + [x];
    assert more[..|more| - 1] == items;
    var all := Sort(items);
    if |all| > SAMPLE_SIZE {
      TakeInsert(all, x, SAMPLE_SIZE);
    } else if |all| == SAMPLE_SIZE {
      assert SampleOf(items) == all;
    }
  }

  /** An item no smaller than the last one of a full sample changes nothing. */
  lemma FullSampleSkips(s: seq<Digest>, x: Digest)
    requires |s| == SAMPLE_SIZE && Sorted(s) && !Le(x, s[|s| - 1])
    ensures Take(InsertSorted(s, x)) == s
  {
    InsertSortedAt(s, x, |s|);
  }

  class Assembler {
    var sampleItems: seq<Digest>

    constructor ()
      ensures sampleItems == []
    {
      sampleItems := [];
    }

    /** The closure insert of ReserveSample. */
    method Insert(item: Digest)
      requires |sampleItems| <= SAMPLE_SIZE
      modifies this
      ensures sampleItems == Take(InsertSorted(old(sampleItems), item))
    {
      var added := false;
      ghost var s := sampleItems;
      for i := 0 to |sampleItems|
        invariant !added && sampleItems == s
        invariant forall j :: 0 <= j < i ==> !Le(item, s[j])
      {
        if Le(item, sampleItems[i]) {
          InsertSortedAt(s, item, i);
          sampleItems := sampleItems[..i + 1] + sampleItems[i..];
          sampleItems := sampleItems[i := item];
          assert sampleItems == s[..i] + [item] + s[i..];
          added := true;
          break;
        }
      }
      if !added {
        InsertSortedAt(s, item, |s|);
      }
      if |sampleItems| > SAMPLE_SIZE {
        sampleItems := sampleItems[..SAMPLE_SIZE];
      }
      if |sampleItems| < SAMPLE_SIZE && !added {
        sampleItems := sampleItems + [item];
      }
    }

    /** The loop that receives what the workers deliver. */
    method Assemble(delivered: seq<Digest>)
      requires sampleItems == []
      modifies this
      ensures sampleItems == SampleOf(delivered)
    {
      for i := 0 to |delivered|
        invariant sampleItems == SampleOf(delivered[..i])
      {
        var item := delivered[i];
        assert delivered[..i + 1] == delivered[..i] + [item];
        SampleNext(delivered[..i], item);
        SampleIsSmallest(delivered[..i]);
        var currentMax := 0;
        if |sampleItems| > 0 {
          currentMax := sampleItems[|sampleItems| - 1];
        }
        if Le(item, currentMax) || |sampleItems| < SAMPLE_SIZE {
          Insert(item);
        } else {
          FullSampleSkips(sampleItems, item);
        }
      }
      assert delivered[..|delivered|] == delivered;
    }
  }
}
