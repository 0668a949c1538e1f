/** Content-addressed chunks (pkg/cac): clients of pooled hashers. */
module Cac {
  import opened Wrappers

  import opened Bytes
  import opened Endian
  import opened BmtConf
  import opened BmtReference
  import opened BmtCommit
  import opened BmtMachine
  import opened BmtTree
  import opened BmtHasher
  import BmtInvariant
  import BmtRuns
  import BmtTheorems
  import BmtQuiescence

  const CHUNK_SIZE: nat := 4096
  const SPAN_SIZE: nat := 8

  datatype Chunk = Chunk(address: bytes, data: bytes)
  datatype Error = TooLarge | TooShort
  datatype Result<+T> = Ok(value: T) | Err(error: Error)

  /** The production configuration: 128 segments. */
  ghost predicate ChunkConf(c: Conf) {
    ValidConf(c) && c.maxSize == CHUNK_SIZE
  }

  // ----- specification -----

  ghost predicate Sized(c: Conf) {
    c.depth >= 1 && c.maxSize == SubtreeSize(c.depth - 1)
  }

  ghost function ChunkWithSpan(c: Conf, data: bytes, span: bytes): Chunk
    requires Sized(c)
  {
    Chunk(RefDigest(c, span, data), span + data)
  }

  /** What New returns. */
  ghost function NewChunk(c: Conf, data: bytes): Result<Chunk>
    requires Sized(c)
  {
    if |data| > CHUNK_SIZE then Err(TooLarge)
    else if |data| == 0 then Err(TooShort)
    else Ok(ChunkWithSpan(c, data, LittleEndian(|data|, SPAN_SIZE)))
  }

  /** What NewWithDataSpan returns. */
  ghost function NewSpannedChunk(c: Conf, data: bytes): Result<Chunk>
    requires Sized(c)
  {
    if |data| > CHUNK_SIZE + SPAN_SIZE then Err(TooLarge)
    else if |data| < SPAN_SIZE then Err(TooShort)
    else Ok(ChunkWithSpan(c, data[SPAN_SIZE..], data[..SPAN_SIZE]))
  }

  /** What Valid accepts. */
  ghost predicate ValidChunk(c: Conf, ch: Chunk)
    requires Sized(c)
  {
    && SPAN_SIZE <= |ch.data| <= CHUNK_SIZE + SPAN_SIZE
    && RefDigest(c, ch.data[..SPAN_SIZE], ch.data[SPAN_SIZE..]) == ch.address
  }

  /** The first eight bytes of the chunk say, the lowest byte first, how long its payload is. */
  predicate Says(ch: Chunk, payload: bytes) {
    |ch.data| == 8 + |payload| && ch.data[8..] == payload && ValueOf(ch.data, 8) == |payload|
  }

  lemma {:induction false} PrefixSays(a: bytes, b: bytes, k: nat)
    requires k <= |a|
    ensures ValueOf(a + b, k) == ValueOf(a, k)
  {
    if k > 0 {
      PrefixSays(a, b, k - 1);
      assert (a + b)[k - 1] == a[k - 1];
    }
  }

  /** Every chunk that New builds holds the length of its payload and the payload. */
  lemma NewSays(c: Conf, data: bytes)
    requires Sized(c)
    ensures NewChunk(c, data).Ok? ==> Says(NewChunk(c, data).value, data)
  {
    if NewChunk(c, data).Ok? {
      assert Weight(2) == 65536;
      WeightGrows(2, 8);
      LittleEndianSays(|data|, SPAN_SIZE);
      PrefixSays(LittleEndian(|data|, SPAN_SIZE), data, 8);
    }
  }

  lemma SpanFirst(data: bytes)
    ensures |data| >= SPAN_SIZE ==> data[..SPAN_SIZE] + data[SPAN_SIZE..] == data
  {
  }

  // ----- with a pooled hasher -----

  /** The tree Pool.Get makes when the pool is empty: good for 2^30 chunks. */
  method NewPooledTree(c: Conf) returns (t: Tree)
    requires ValidConf(c)
    ensures fresh(t) && t.Valid(c) && BmtQuiescence.TreeGoodFor(c, NodesOf(t.at), 0x4000_0000)
  {
    t := BmtTree.NewTree(c);
    forall id | BmtInvariant.Inner(c, id)
      ensures id in NodesOf(t.at) && BmtQuiescence.ReusableFor(NodesOf(t.at)[id].state, 0x4000_0000)
    {
      assert InTree(c.depth, id);
    }
  }

  predicate OnlyRuns(acts: seq<Action>) {
    forall i :: 0 <= i < |acts| ==> acts[i].Run?
  }

  /** The calls `hasher` makes, with goroutines running in between. */
  function Calls(data: bytes, before: seq<Action>, after: seq<Action>): seq<Action> {
    [CallWrite(data)] + before + [CallHash] + after
  }

  lemma {:induction false} RunsWriteNothing(c: Conf, size: nat, hashed: bool, runs: seq<Action>, rest: seq<Action>)
    requires size <= c.maxSize && OnlyRuns(runs)
    ensures BmtRuns.Remaining(c, size, hashed, runs + rest) == BmtRuns.Remaining(c, size, hashed, rest)
    decreases |runs|
  {
    if runs == [] {
      assert runs + rest == rest;
    } else {
      assert (runs + rest)[1..] == runs[1..] + rest;
      RunsWriteNothing(c, size, hashed, runs[1..], rest);
    }
  }

  lemma DataOfCalls(c: Conf, data: bytes, before: seq<Action>, after: seq<Action>)
    requires OnlyRuns(before) && OnlyRuns(after) && |data| <= c.maxSize
    ensures BmtRuns.DataOf(c, Calls(data, before, after)) == data
  {
    var tail := [CallHash] + after;
    assert Calls(data, before, after) == [CallWrite(data)] + (before + tail);
    assert ([CallWrite(data)] + (before + tail))[1..] == before + tail;
    RunsWriteNothing(c, |data|, false, before, tail);
    assert tail[1..] == after;
    BmtRuns.NothingAfterHash(c, |data|, after);
  }

  /** What the pool and the scheduler supply: a tree some earlier hasher may have used, and the turns goroutines take. */
  datatype Lease = Lease(tree: Tree, before: seq<Action>, after: seq<Action>)

  ghost predicate Usable(c: Conf, l: Lease, uses: nat)
    requires ChunkConf(c)
    reads l.tree.at.Values
  {
    && l.tree.Valid(c) && OnlyRuns(l.before) && OnlyRuns(l.after)
    && BmtQuiescence.TreeGoodFor(c, NodesOf(l.tree.at), uses)
  }

  /** The two leases are of one tree, or of trees that share nothing. */
  ghost predicate Apart(l: Lease, m: Lease) {
    l.tree != m.tree ==> l.tree.buffer != m.tree.buffer && l.tree.at.Values !! m.tree.at.Values
  }

  /**
   The helper `hasher`: takes whatever tree the pool hands out, under whatever schedule. If the
   hash arrives, it is the reference digest and the tree has lost one of its uses.
   */
  method HashChunk(c: Conf, l: Lease, data: bytes, span: bytes, ghost uses: nat) returns (digest: Option<bytes>)
    requires ChunkConf(c) && |data| <= CHUNK_SIZE && |span| == SPAN_SIZE
    requires uses >= 1 && Usable(c, l, uses)
    modifies l.tree.buffer, l.tree.at.Values
    ensures digest.Some? ==> digest.value == RefDigest(c, span, data)
    ensures digest.Some? ==> Usable(c, l, uses - 1)
  {
    var t := l.tree;
    var h := new Hasher(c, t);
    h.SetHeader(span);
    assert CopyInto(Zeros(8), 0, span) == span;
    ghost var buffer, nodes := t.buffer[..], NodesOf(t.at);
    assert h.Abs() == Fresh(buffer, nodes, span);
    var acts := Calls(data, l.before, l.after);
    h.Drive(acts);
    digest := h.EndHash();
    BmtQuiescence.GoodIsReady(c, nodes, uses);
    BmtTheorems.HashIsReference(c, buffer, nodes, span, acts);
    DataOfCalls(c, data, l.before, l.after);
    if digest.Some? {
      BmtQuiescence.TreeIsReusable(c, buffer, nodes, span, acts, uses);
    }
  }

  /** None: the hash has not arrived yet. */
  method NewWithSpan(c: Conf, l: Lease, data: bytes, span: bytes, ghost uses: nat) returns (ch: Option<Chunk>)
    requires ChunkConf(c) && |data| <= CHUNK_SIZE && |span| == SPAN_SIZE
    requires uses >= 1 && Usable(c, l, uses)
    modifies l.tree.buffer, l.tree.at.Values
    ensures ch.Some? ==> ch.value == ChunkWithSpan(c, data, span) && Usable(c, l, uses - 1)
  {
    var address := HashChunk(c, l, data, span, uses);
    ch := match address case None => None case Some(a) => Some(Chunk(a, span + data));
  }

  method New(c: Conf, l: Lease, data: bytes, ghost uses: nat) returns (r: Option<Result<Chunk>>)
    requires ChunkConf(c) && uses >= 1 && Usable(c, l, uses)
    modifies l.tree.buffer, l.tree.at.Values
    ensures r.Some? ==> r.value == NewChunk(c, data) && Usable(c, l, if r.value.Ok? then uses - 1 else uses)
    ensures !(1 <= |data| <= CHUNK_SIZE) ==> r.Some?
    ensures r.Some? && r.value.Ok? ==> Says(r.value.value, data)
    ensures r == Some(Err(TooLarge)) <==> |data| > 4096
    ensures r == Some(Err(TooShort)) <==> |data| == 0
  {
    NewSays(c, data);
    if |data| > CHUNK_SIZE {
      return Some(Err(TooLarge));
    }
    if |data| == 0 {
      return Some(Err(TooShort));
    }
    var ch := NewWithSpan(c, l, data, LittleEndian(|data|, SPAN_SIZE), uses);
    r := match ch case None => None case Some(v) => Some(Ok(v));
  }

  method NewWithDataSpan(c: Conf, l: Lease, data: bytes, ghost uses: nat) returns (r: Option<Result<Chunk>>)
    requires ChunkConf(c) && uses >= 1 && Usable(c, l, uses)
    modifies l.tree.buffer, l.tree.at.Values
    ensures r.Some? ==> r.value == NewSpannedChunk(c, data) && Usable(c, l, if r.value.Ok? then uses - 1 else uses)
    ensures !(SPAN_SIZE <= |data| <= CHUNK_SIZE + SPAN_SIZE) ==> r.Some?
    ensures r.Some? && r.value.Ok? ==> r.value.value.data == data
    ensures r == Some(Err(TooLarge)) <==> |data| > 4096 + 8
    ensures r == Some(Err(TooShort)) <==> |data| < 8
  {
    SpanFirst(data);
    if |data| > CHUNK_SIZE + SPAN_SIZE {
      return Some(Err(TooLarge));
    }
    if |data| < SPAN_SIZE {
      return Some(Err(TooShort));
    }
    var ch := NewWithSpan(c, l, data[SPAN_SIZE..], data[..SPAN_SIZE], uses);
    r := match ch case None => None case Some(v) => Some(Ok(v));
  }

  method Valid(c: Conf, l: Lease, ch: Chunk, ghost uses: nat) returns (ok: Option<bool>)
    requires ChunkConf(c) && uses >= 1 && Usable(c, l, uses)
    modifies l.tree.buffer, l.tree.at.Values
    ensures ok.Some? ==> ok.value == ValidChunk(c, ch)
    ensures !(SPAN_SIZE <= |ch.data| <= CHUNK_SIZE + SPAN_SIZE) ==> ok == Some(false)
    ensures ok.Some? ==> Usable(c, l, uses - 1)
  {
    if |ch.data| < SPAN_SIZE {
      UsedLess(c, l, uses);
      return Some(false);
    }
    if |ch.data| > CHUNK_SIZE + SPAN_SIZE {
      UsedLess(c, l, uses);
      return Some(false);
    }
    var hash := HashChunk(c, l, ch.data[SPAN_SIZE..], ch.data[..SPAN_SIZE], uses);
    ok := match hash case None => None case Some(a) => Some(a == ch.address);
  }

  lemma UsedLess(c: Conf, l: Lease, uses: nat)
    requires ChunkConf(c) && uses >= 1 && Usable(c, l, uses)
    ensures Usable(c, l, uses - 1)
  {
    var nodes := NodesOf(l.tree.at);
    forall id | BmtInvariant.Inner(c, id)
      ensures id in nodes && BmtQuiescence.ReusableFor(nodes[id].state, uses - 1)
    {
      assert BmtQuiescence.ReusableFor(nodes[id].state, uses);
    }
  }

  // ----- building and validating -----

  lemma SpanApart(span: bytes, data: bytes)
    requires |span| == SPAN_SIZE
    ensures (span + data)[..SPAN_SIZE] == span && (span + data)[SPAN_SIZE..] == data
  {
  }

  /**
   A chunk is built on one tree of the pool and validated on another one, or on the same one
   again, each with whatever an earlier chunk left in it and under a schedule of its own: once
   both hashes have arrived, it is valid.
   */
  method BuildThenValidate(c: Conf, l: Lease, m: Lease, data: bytes, ghost uses: nat)
    returns (built: Option<Result<Chunk>>, ok: Option<bool>)
    requires ChunkConf(c) && Apart(l, m) && Usable(c, l, uses) && Usable(c, m, uses)
    requires uses >= if m.tree == l.tree then 2 else 1
    modifies l.tree.buffer, l.tree.at.Values, m.tree.buffer, m.tree.at.Values
    ensures built.Some? && built.value.Ok? && ok.Some? ==> ok.value
    ensures built.Some? ==> (built.value.Ok? <==> 1 <= |data| <= CHUNK_SIZE)
    ensures built.Some? && built.value.Ok? ==> built.value.value.data == LittleEndian(|data|, SPAN_SIZE) + data
  {
    ok := None;
    built := New(c, l, data, uses);
    if built.Some? && built.value.Ok? {
      SpanApart(LittleEndian(|data|, SPAN_SIZE), data);
      ok := Valid(c, m, built.value.value, if m.tree == l.tree then uses - 1 else uses);
    }
  }

  /**
   Any chunk is validated on one tree and its data built into a chunk on another one, or on the
   same: once both hashes have arrived, it was valid exactly if it is the chunk that was built.
   */
  method ValidateThenBuild(c: Conf, l: Lease, m: Lease, ch: Chunk, ghost uses: nat)
    returns (ok: Option<bool>, built: Option<Result<Chunk>>)
    requires ChunkConf(c) && Apart(l, m) && Usable(c, l, uses) && Usable(c, m, uses)
    requires uses >= if m.tree == l.tree then 2 else 1
    modifies l.tree.buffer, l.tree.at.Values, m.tree.buffer, m.tree.at.Values
    ensures ok.Some? && built.Some? ==> (ok.value <==> built.value == Ok(ch))
    ensures built.Some? ==> (built.value.Ok? <==> SPAN_SIZE <= |ch.data| <= CHUNK_SIZE + SPAN_SIZE)
  {
    built := None;
    ok := Valid(c, l, ch, uses);
    if ok.Some? {
      built := NewWithDataSpan(c, m, ch.data, if m.tree == l.tree then uses - 1 else uses);
      if SPAN_SIZE <= |ch.data| {
        assert ch.data[..SPAN_SIZE] + ch.data[SPAN_SIZE..] == ch.data;
      }
    }
  }

  // ----- what an address commits to -----

  lemma AgreeEverywhere(a: bytes, b: bytes, depth: nat, maxSize: nat)
    requires depth >= 1 && maxSize == SubtreeSize(depth - 1)
    requires AgreeBelow(a, b, depth - 1, 0)
    ensures Padded(a, maxSize) == Padded(b, maxSize)
  {
    SubtreeSizeIsPower(depth - 1);
    forall j | 0 <= j < maxSize ensures Padded(a, maxSize)[j] == Padded(b, maxSize)[j] {
      AncBound(j / 64, depth - 1, depth - 1);
      AgreeOnSection(a, b, depth - 1, 0, j / 64);
      assert Section(a, j / 64)[j % 64] == Section(b, j / 64)[j % 64];
    }
  }

  /**
   Two valid chunks with one address have the same span and, padded with zeros, the same
   payload, or their trees hold a collision of the base hash.
   */
  lemma AddressCommits(c: Conf, x: Chunk, y: Chunk)
    requires ChunkConf(c) && ValidChunk(c, x) && ValidChunk(c, y) && x.address == y.address
    ensures
      var a, b := x.data[SPAN_SIZE..], y.data[SPAN_SIZE..];
      var s := x.data[..SPAN_SIZE] + NodeHash(c.hash, a, c.depth - 1, 0);
      var t := y.data[..SPAN_SIZE] + NodeHash(c.hash, b, c.depth - 1, 0);
      || (x.data[..SPAN_SIZE] == y.data[..SPAN_SIZE] && Padded(a, CHUNK_SIZE) == Padded(b, CHUNK_SIZE))
      || (s != t && c.hash(s) == c.hash(t))
      || CollideBelow(c.hash, a, b, c.depth - 1, 0)
  {
    var a, b := x.data[SPAN_SIZE..], y.data[SPAN_SIZE..];
    var ra, rb := NodeHash(c.hash, a, c.depth - 1, 0), NodeHash(c.hash, b, c.depth - 1, 0);
    var sx, sy := x.data[..SPAN_SIZE], y.data[..SPAN_SIZE];
    RefDigestIsRoot(c, sx, a);
    RefDigestIsRoot(c, sy, b);
    if sx + ra == sy + rb {
      assert (sx + ra)[..SPAN_SIZE] == sx && (sy + rb)[..SPAN_SIZE] == sy;
      assert (sx + ra)[SPAN_SIZE..] == ra && (sy + rb)[SPAN_SIZE..] == rb;
      SameHashSameData(c.hash, a, b, c.depth - 1, 0);
      if AgreeBelow(a, b, c.depth - 1, 0) {
        AgreeEverywhere(a, b, c.depth, c.maxSize);
      }
    }
  }

  /** Padding is part of the address: trailing zeros of the payload cannot be told apart. */
  lemma TrailingZerosShareAddress(c: Conf, span: bytes, data: bytes)
    requires ChunkConf(c) && |span| == SPAN_SIZE && |data| < CHUNK_SIZE
    ensures ChunkWithSpan(c, data, span).address == ChunkWithSpan(c, data + [0], span).address
    ensures ChunkWithSpan(c, data, span) != ChunkWithSpan(c, data + [0], span)
  {
    assert Padded(data, c.maxSize) == Padded(data + [0], c.maxSize);
    assert |span + data| != |span + (data + [0])|;
  }
}
