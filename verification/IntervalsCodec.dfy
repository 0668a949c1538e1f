/** The text form of an interval set: base-36 numbers, ranges split by commas, entries by semicolons. */
module IntervalsCodec {
  import opened Intervals
  import opened IntervalsAdd
  import opened IntervalsSync

  // ----- base 36 -----

  const BASE: nat := 36

  function Digit(d: nat): char
    requires d < BASE
  {
    if d < 10 then ('0' as int + d) as char else ('a' as int + d - 10) as char
  }

  /** strconv.FormatUint(v, 36) */
  function Format(v: nat): string {
    if v < BASE then [Digit(v)] else Format(v / BASE) + [Digit(v % BASE)]
  }

  /** The value of a digit; letters count in both cases, anything else is BASE. */
  function DigitValue(c: char): nat {
    if '0' <= c <= '9' then c as int - '0' as int
    else if 'a' <= c <= 'z' then c as int - 'a' as int + 10
    else if 'A' <= c <= 'Z' then c as int - 'A' as int + 10
    else BASE
  }

  /** What strconv.ParseUint returns: with an error, 0 for bad syntax and the maximum when out of range. */
  datatype Parsed = Parsed(value: uint64, ok: bool)

  function ParseFrom(s: string, n: uint64): Parsed {
    if s == "" then Parsed(n, true)
    else
      var d := DigitValue(s[0]);
      if d == BASE then Parsed(0, false)
      else if n * BASE + d > MAX then Parsed(MAX, false)
      else ParseFrom(s[1..], n * BASE + d)
  }

  /** strconv.ParseUint(s, 36, 64) */
  function Parse(s: string): Parsed {
    if s == "" then Parsed(0, false) else ParseFrom(s, 0)
  }

  lemma DigitRoundTrip(d: nat)
    requires d < BASE
    ensures DigitValue(Digit(d)) == d && Digit(d) != ';' && Digit(d) != ','
  {
  }

  lemma ParseDigit(n: uint64, d: nat, rest: string)
    requires d < BASE && n * BASE + d <= MAX
    ensures ParseFrom([Digit(d)] + rest, n) == ParseFrom(rest, n * BASE + d)
  {
    DigitRoundTrip(d);
    assert ([Digit(d)] + rest)[1..] == rest;
  }

  lemma {:induction false} ParseFormatThen(v: uint64, rest: string)
    ensures ParseFrom(Format(v) + rest, 0) == ParseFrom(rest, v)
    decreases v
  {
    if v < BASE {
      ParseDigit(0, v, rest);
    } else {
      var tail := [Digit(v % BASE)] + rest;
      ParseFormatThen(v / BASE, tail);
      ParseDigit(v / BASE, v % BASE, rest);
      assert Format(v) + rest == Format(v / BASE) + tail;
    }
  }

  lemma ParseFormat(v: uint64)
    ensures Parse(Format(v)) == Parsed(v, true)
  {
    ParseFormatThen(v, "");
    assert Format(v) + "" == Format(v);
  }

  const DIGITS: string := "0123456789abcdefghijklmnopqrstuvwxyz"

  /** What the digits say, the last one counting ones and each one before it 36 times as much. */
  ghost predicate Says(s: string, v: nat)
    decreases |s|
  {
    && s != ""
    && exists d: nat :: d < |DIGITS| && s[|s| - 1] == DIGITS[d] && v % 36 == d &&
                        if |s| == 1 then v == d else v > d && Says(s[..|s| - 1], v / 36)
  }

  lemma DigitIs(d: nat)
    requires d < BASE
    ensures Digit(d) == DIGITS[d]
  {
  }

  /** The text of a number is its numeral to the base 36, without leading zeros. */
  lemma {:induction false} FormatSays(v: nat)
    ensures Says(Format(v), v)
    ensures |Format(v)| > 1 ==> Format(v)[0] != '0'
    decreases v
  {
    DigitIs(v % BASE);
    if v >= BASE {
      FormatSays(v / BASE);
      assert Format(v)[..|Format(v)| - 1] == Format(v / BASE);
      FirstDigit(v / BASE);
    }
  }

  lemma FirstDigit(v: nat)
    requires v > 0 && (|Format(v)| > 1 ==> Format(v)[0] != '0')
    ensures Format(v)[0] != '0'
  {
  }

  predicate IsDigit(c: char) {
    '0' <= c <= '9' || 'a' <= c <= 'z' || 'A' <= c <= 'Z'
  }

  lemma DigitIff(c: char)
    ensures IsDigit(c) <==> DigitValue(c) != BASE
    ensures DigitValue(c) <= BASE
  {
  }

  /** Nothing but digits of either case. */
  predicate AllDigits(s: string) {
    forall i :: 0 <= i < |s| ==> IsDigit(s[i])
  }

  lemma AllDigitsCons(s: string)
    requires s != ""
    ensures AllDigits(s) <==> IsDigit(s[0]) && AllDigits(s[1..])
  {
    assert s == [s[0]] + s[1..];
  }

  /** What a text of digits says, the last digit counting ones. */
  function Numeral(s: string): nat {
    if s == "" then 0 else Numeral(s[..|s| - 1]) * 36 + DigitValue(s[|s| - 1])
  }

  lemma {:induction false} NumeralGrows(p: string, s: string)
    ensures Numeral(p + s) >= Numeral(p)
    decreases |s|
  {
    if s == "" {
      assert p + s == p;
    } else {
      NumeralGrows(p, s[..|s| - 1]);
      assert (p + s)[..|p + s| - 1] == p + s[..|s| - 1];
    }
  }

  lemma NextNumeral(p: string, d: char)
    ensures Numeral(p + [d]) == Numeral(p) * 36 + DigitValue(d)
  {
    assert (p + [d])[..|p|] == p;
  }

  /** Reading on after a text of digits. */
  lemma {:induction false} ParseRest(p: string, s: string)
    requires Numeral(p) <= MAX
    ensures
      var r := ParseFrom(s, Numeral(p));
      && (r.ok <==> AllDigits(s) && Numeral(p + s) <= MAX)
      && (r.ok ==> r.value == Numeral(p + s))
    decreases |s|
  {
    if s == "" {
      assert p + s == p;
    } else {
      var next := p + [s[0]];
      NextNumeral(p, s[0]);
      assert next + s[1..] == p + s;
      NumeralGrows(next, s[1..]);
      AllDigitsCons(s);
      DigitIff(s[0]);
      if IsDigit(s[0]) && Numeral(next) <= MAX {
        ParseRest(next, s[1..]);
      }
    }
  }

  /** A text is read if and only if it is a numeral to the base 36 that fits 64 bits, as the number it says. */
  lemma ParseIff(s: string)
    ensures Parse(s).ok <==> s != "" && AllDigits(s) && Numeral(s) <= MAX
    ensures Parse(s).ok ==> Parse(s).value == Numeral(s)
  {
    ParseRest("", s);
    assert "" + s == s;
  }

  lemma {:induction false} FormatHasNo(v: nat, c: char)
    requires c == ';' || c == ','
    ensures c !in Format(v)
    decreases v
  {
    DigitRoundTrip(v % BASE);
    if v >= BASE {
      FormatHasNo(v / BASE, c);
    }
  }

  // ----- splitting and joining -----

  /** bytes.Join */
  function Join(parts: seq<string>, sep: char): string
    requires parts != []
  {
    if |parts| == 1 then parts[0] else parts[0] + [sep] + Join(parts[1..], sep)
  }

  /** The position of the first separator, or the length. */
  function IndexOf(s: string, sep: char): (i: nat)
    ensures i <= |s| && sep !in s[..i] && (i < |s| ==> s[i] == sep)
  {
    if s == "" || s[0] == sep then 0 else IndexOf(s[1..], sep) + 1
  }

  /** bytes.Split */
  function Split(s: string, sep: char): (parts: seq<string>)
    ensures parts != []
    decreases |s|
  {
    var i := IndexOf(s, sep);
    if i == |s| then [s] else [s[..i]] + Split(s[i + 1..], sep)
  }

  lemma {:induction false} IndexAfter(a: string, sep: char, rest: string)
    requires sep !in a
    ensures IndexOf(a + [sep] + rest, sep) == |a|
  {
    var s := a + [sep] + rest;
    if a != "" {
      IndexAfter(a[1..], sep, rest);
      assert s[1..] == a[1..] + [sep] + rest;
    }
  }

  lemma {:induction false} IndexNowhere(a: string, sep: char)
    requires sep !in a
    ensures IndexOf(a, sep) == |a|
  {
    if a != "" {
      IndexNowhere(a[1..], sep);
    }
  }

  lemma SplitFirst(a: string, sep: char, rest: string)
    requires sep !in a
    ensures Split(a + [sep] + rest, sep) == [a] + Split(rest, sep)
  {
    var s := a + [sep] + rest;
    IndexAfter(a, sep, rest);
    assert s[..|a|] == a;
    assert s[|a| + 1..] == rest;
  }

  lemma {:induction false} SplitJoin(parts: seq<string>, sep: char)
    requires parts != [] && forall i :: 0 <= i < |parts| ==> sep !in parts[i]
    ensures Split(Join(parts, sep), sep) == parts
  {
    if |parts| == 1 {
      IndexNowhere(parts[0], sep);
    } else {
      SplitFirst(parts[0], sep, Join(parts[1..], sep));
      SplitJoin(parts[1..], sep);
      assert parts == [parts[0]] + parts[1..];
    }
  }

  // ----- the codec -----

  function RangeText(range: Range): string {
    Format(range.lo) + "," + Format(range.hi)
  }

  function Texts(r: seq<Range>): seq<string> {
    seq(|r|, i requires 0 <= i < |r| => RangeText(r[i]))
  }

  function Encode(iStart: uint64, r: seq<Range>): string {
    Join([Format(iStart)] + Texts(r), ';')
  }

  /** The text of a set is the start, and for each range a semicolon, its two ends and a comma between them. */
  lemma EncodeIs(iStart: uint64, r: seq<Range>, last: Range)
    ensures Encode(iStart, []) == Format(iStart)
    ensures Encode(iStart, r + [last]) == Encode(iStart, r) + ";" + Format(last.lo) + "," + Format(last.hi)
  {
    assert [Format(iStart)] + Texts([]) == [Format(iStart)];
    assert [Format(iStart)] + Texts(r + [last]) == ([Format(iStart)] + Texts(r)) + [RangeText(last)];
    JoinAppend([Format(iStart)] + Texts(r), ';', RangeText(last));
  }

  lemma {:induction false} JoinAppend(parts: seq<string>, sep: char, last: string)
    requires parts != []
    ensures Join(parts + [last], sep) == Join(parts, sep) + [sep] + last
  {
    if |parts| == 1 {
      assert (parts + [last])[1..] == [last];
    } else {
      JoinAppend(parts[1..], sep, last);
      assert (parts + [last])[1..] == parts[1..] + [last];
    }
  }

  /** The fields UnmarshalBinary leaves behind, and whether it returned without an error. */
  datatype Decoded = Decoded(start: uint64, ranges: seq<Range>, ok: bool)

  /** The ranges from the j-th entry on, added one after the other. */
  function DecodeFrom(iStart: uint64, acc: seq<Range>, d: seq<string>, j: nat): Decoded
    decreases |d| - j
  {
    if j >= |d| then Decoded(iStart, acc, true)
    else
      var comma := IndexOf(d[j], ',');
      if comma == |d[j]| then Decoded(iStart, acc, false)
      else
        var lo, hi := Parse(d[j][..comma]), Parse(d[j][comma + 1..]);
        if !lo.ok || !hi.ok then Decoded(iStart, acc, false)
        else DecodeFrom(iStart, AddTo(iStart, acc, lo.value, hi.value), d, j + 1)
  }

  function Decode(before: seq<Range>, data: string): Decoded {
    var d := Split(data, ';');
    var iStart := Parse(d[0]);
    if !iStart.ok then Decoded(iStart.value, before, false)
    else if |d| == 1 then Decoded(iStart.value, before, true)
    else DecodeFrom(iStart.value, [], d, 1)
  }

  /** An entry is two numerals with a comma between them. */
  predicate IsEntry(s: string) {
    var comma := IndexOf(s, ',');
    comma < |s| && Parse(s[..comma]).ok && Parse(s[comma + 1..]).ok
  }

  lemma {:induction false} DecodeFromIff(iStart: uint64, acc: seq<Range>, d: seq<string>, j: nat)
    ensures DecodeFrom(iStart, acc, d, j).ok <==> forall i :: j <= i < |d| ==> IsEntry(d[i])
    ensures DecodeFrom(iStart, acc, d, j).start == iStart
    decreases |d| - j
  {
    if j < |d| && IsEntry(d[j]) {
      var comma := IndexOf(d[j], ',');
      DecodeFromIff(iStart, AddTo(iStart, acc, Parse(d[j][..comma]).value, Parse(d[j][comma + 1..]).value), d, j + 1);
    }
  }

  /** A text is accepted if and only if its first part is a numeral and every other one an entry. */
  lemma DecodeIff(before: seq<Range>, data: string)
    ensures
      var d := Split(data, ';');
      Decode(before, data).ok <==> Parse(d[0]).ok && forall i :: 1 <= i < |d| ==> IsEntry(d[i])
  {
    var d := Split(data, ';');
    if Parse(d[0]).ok && |d| > 1 {
      DecodeFromIff(Parse(d[0]).value, [], d, 1);
    }
  }

  lemma RangeTextParts(range: Range)
    ensures
      var s := RangeText(range);
      var comma := IndexOf(s, ',');
      && comma < |s|
      && Parse(s[..comma]) == Parsed(range.lo, true) && Parse(s[comma + 1..]) == Parsed(range.hi, true)
      && ';' !in s
  {
    FormatHasNo(range.lo, ',');
    FormatHasNo(range.lo, ';');
    FormatHasNo(range.hi, ';');
    IndexAfter(Format(range.lo), ',', Format(range.hi));
    var s := RangeText(range);
    assert s[..|Format(range.lo)|] == Format(range.lo);
    assert s[|Format(range.lo)| + 1..] == Format(range.hi);
    ParseFormat(range.lo);
    ParseFormat(range.hi);
  }

  lemma EncodeSplits(iStart: uint64, r: seq<Range>)
    ensures Split(Encode(iStart, r), ';') == [Format(iStart)] + Texts(r)
  {
    var parts := [Format(iStart)] + Texts(r);
    forall i | 0 <= i < |parts| ensures ';' !in parts[i] {
      if i == 0 {
        FormatHasNo(iStart, ';');
      } else {
        RangeTextParts(r[i - 1]);
      }
    }
    SplitJoin(parts, ';');
  }

  /** A normal list is given back when its ranges are added in order, unless a later one reaches the top. */
  predicate Readable(r: seq<Range>) {
    |r| <= 1 || Last(r) < MAX
  }

  /** Adding the k-th range to those before it appends it. */
  predicate Appends(iStart: uint64, r: seq<Range>, k: nat)
    requires k < |r|
  {
    AddTo(iStart, r[..k], r[k].lo, r[k].hi) == r[..k + 1]
  }

  lemma AddNext(iStart: uint64, r: seq<Range>, j: nat)
    requires Normal(iStart, r) && j < |r| && (j == 0 || r[j].hi < MAX)
    ensures Appends(iStart, r, j)
  {
    NormalParts(iStart, r, j, j);
    AddIsMergeIff(iStart, r[..j], r[j].lo, r[j].hi);
    forall i | 0 <= i < j ensures r[i].hi + 1 < r[j].lo {
    }
    assert LeftOf(r[..j], r[j].lo) == j;
  }

  lemma AddsInOrder(iStart: uint64, r: seq<Range>, n: nat)
    requires Normal(iStart, r) && n <= |r| && (n <= 1 || r[n - 1].hi < MAX)
    ensures forall k :: 0 <= k < n ==> Appends(iStart, r, k)
  {
    forall k | 0 <= k < n ensures Appends(iStart, r, k) {
      if k + 1 < n {
        BelowTop(iStart, r, k);
      }
      AddNext(iStart, r, k);
    }
  }

  lemma BelowTop(iStart: uint64, r: seq<Range>, j: nat)
    requires Normal(iStart, r) && j + 1 < |r|
    ensures r[j].hi < MAX
  {
    assert r[j].hi + 1 < r[j + 1].lo;
  }

  /** The entries after the first are the texts of the ranges. */
  predicate Spells(d: seq<string>, r: seq<Range>) {
    |d| == |r| + 1 && forall i :: 0 <= i < |r| ==> d[i + 1] == RangeText(r[i])
  }

  lemma DecodeOne(iStart: uint64, r: seq<Range>, d: seq<string>, j: nat, acc: seq<Range>)
    requires Spells(d, r) && j < |r|
    ensures DecodeFrom(iStart, acc, d, j + 1) == DecodeFrom(iStart, AddTo(iStart, acc, r[j].lo, r[j].hi), d, j + 2)
  {
    assert d[j + 1] == RangeText(r[j]);
    RangeTextParts(r[j]);
  }

  /** Decoding the texts of the ranges from the j-th on, up to the n-th. */
  lemma {:induction false} DecodeRanges(iStart: uint64, r: seq<Range>, d: seq<string>, j: nat, n: nat, acc: seq<Range>)
    requires Spells(d, r) && j <= n <= |r| && acc == r[..j]
    requires forall k :: 0 <= k < n ==> Appends(iStart, r, k)
    ensures DecodeFrom(iStart, acc, d, j + 1) == DecodeFrom(iStart, r[..n], d, n + 1)
    decreases n - j
  {
    if j < n {
      DecodeOne(iStart, r, d, j, acc);
      assert Appends(iStart, r, j);
      DecodeRanges(iStart, r, d, j + 1, n, AddTo(iStart, acc, r[j].lo, r[j].hi));
    }
  }

  lemma AddTop(iStart: uint64, r: seq<Range>, init: seq<Range>, last: Range)
    requires Normal(iStart, r) && |r| > 1 && r == init + [last] && last.hi == MAX
    ensures !Normal(iStart, AddTo(iStart, init, last.lo, MAX))
    ensures forall x :: Covered(AddTo(iStart, init, last.lo, MAX), x) <==> Covered(r, x)
  {
    NormalParts(iStart, r, |init|, |init|);
    assert r[..|init|] == init;
    assert r[|init|] == last && init[0] == r[0];
    AddIsMergeIff(iStart, init, last.lo, MAX);
    forall x ensures Covered(AddTo(iStart, init, last.lo, MAX), x) <==> Covered(r, x) {
      AddIsUnion(iStart, init, last.lo, MAX, x);
      CoveredConcat(init, [last], x);
      CoveredOne(last, x);
    }
  }

  lemma DecodeLast(iStart: uint64, r: seq<Range>, d: seq<string>, init: seq<Range>)
    requires Spells(d, r) && |r| > 0 && init == r[..|r| - 1]
    requires forall k :: 0 <= k < |r| - 1 ==> Appends(iStart, r, k)
    ensures DecodeFrom(iStart, [], d, 1) == Decoded(iStart, AddTo(iStart, init, r[|r| - 1].lo, r[|r| - 1].hi), true)
  {
    DecodeRanges(iStart, r, d, 0, |r| - 1, []);
    DecodeOne(iStart, r, d, |r| - 1, init);
  }

  /** The last range of a longer list reaches the top: add looks at the first range only, and the list is no longer normal. */
  lemma DecodeTop(iStart: uint64, r: seq<Range>, d: seq<string>)
    requires Normal(iStart, r) && Spells(d, r) && !Readable(r)
    ensures
      var e := DecodeFrom(iStart, [], d, 1);
      && e.start == iStart && e.ok && !Normal(iStart, e.ranges)
      && forall x :: Covered(e.ranges, x) <==> Covered(r, x)
  {
    var n := |r| - 1;
    BelowTop(iStart, r, n - 1);
    AddsInOrder(iStart, r, n);
    DecodeLast(iStart, r, d, r[..n]);
    AddTop(iStart, r, r[..n], r[n]);
  }

  lemma DecodeReadable(iStart: uint64, r: seq<Range>, d: seq<string>)
    requires Normal(iStart, r) && Spells(d, r) && Readable(r)
    ensures DecodeFrom(iStart, [], d, 1) == Decoded(iStart, r, true)
  {
    AddsInOrder(iStart, r, |r|);
    DecodeRanges(iStart, r, d, 0, |r|, []);
    assert r[..|r|] == r;
  }

  lemma DecodeStarts(iStart: uint64, r: seq<Range>)
    ensures Decode([], Encode(iStart, r)) ==
      if |r| == 0 then Decoded(iStart, [], true) else DecodeFrom(iStart, [], [Format(iStart)] + Texts(r), 1)
  {
    EncodeSplits(iStart, r);
    ParseFormat(iStart);
  }

  /**
   Decoding what was encoded gives back the start and exactly the points, and the very list if
   and only if it has one range at most or stays below the top of uint64.
   */
  lemma RoundTrip(iStart: uint64, r: seq<Range>)
    requires Normal(iStart, r)
    ensures
      var e := Decode([], Encode(iStart, r));
      && e.ok && e.start == iStart
      && (forall x :: Covered(e.ranges, x) <==> Covered(r, x))
      && (e.ranges == r <==> Readable(r))
  {
    DecodeStarts(iStart, r);
    if |r| > 0 {
      if Readable(r) {
        DecodeReadable(iStart, r, [Format(iStart)] + Texts(r));
      } else {
        DecodeTop(iStart, r, [Format(iStart)] + Texts(r));
      }
    }
  }

  /** A list that add builds and that does not come back from its own text. */
  lemma TopRangeIsNotRead()
    ensures
      var r := AddTo(1, AddTo(1, [], 5, MAX), 1, 2);
      && Normal(1, r) && Decode([], Encode(1, r)).ok && Decode([], Encode(1, r)).ranges != r
  {
    TopRangeFirst();
    RoundTrip(1, [Range(1, 2), Range(5, MAX)]);
  }
}
