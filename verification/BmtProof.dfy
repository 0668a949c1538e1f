/** Inclusion proofs: complete for every section that was written, and binding up to collisions of the hash. */
module BmtProof {
  import opened Bytes
  import opened BmtConf
  import opened BmtReference
  import opened BmtMachine
  import opened BmtInvariant
  import opened BmtRuns
  import opened BmtTheorems
  import opened BmtQuiescence

  datatype Proof = Proof(section: bytes, sisters: seq<bytes>, span: bytes)

  predicate LeftChild(k: nat, level: nat) {
    Anc(k, level) % 2 == 0
  }

  /** The segment next to the path of section k in its node on this level. */
  function Sister(nodes: map<NodeId, Node>, k: nat, level: nat): bytes
    requires level >= 1
  {
    var n := NodeAt(nodes, NodeId(level, Anc(k, level)));
    if LeftChild(k, level - 1) then n.right else n.left
  }

  function Sisters(nodes: map<NodeId, Node>, k: nat, height: nat): (s: seq<bytes>)
    ensures |s| == height
    ensures forall l :: 0 <= l < height ==> s[l] == Sister(nodes, k, l + 1)
  {
    seq(height, (l: nat) => Sister(nodes, k, l + 1))
  }

  /** What Prover.Proof returns for a segment of section k. */
  function ProofOf(c: Conf, st: State, k: nat): Proof
    requires c.depth >= 1
  {
    Proof(BufferSection(st.buffer, k), Sisters(st.nodes, k, c.depth - 1), st.span)
  }

  /** What is hashed on a level when two children are put together. */
  function Joined(k: nat, level: nat, own: bytes, sister: bytes): bytes {
    if LeftChild(k, level) then own + sister else sister + own
  }

  /** The hash Verify holds after `height` sisters. */
  function Climbed(h: HashFn, k: nat, section: bytes, sisters: seq<bytes>, height: nat): bytes
    requires height <= |sisters|
  {
    if height == 0 then h(section)
    else h(Joined(k, height - 1, Climbed(h, k, section, sisters, height - 1), sisters[height - 1]))
  }

  /** What Prover.Verify returns. */
  function Verified(c: Conf, k: nat, proof: Proof): bytes {
    c.hash(proof.span + Climbed(c.hash, k, proof.section, proof.sisters, |proof.sisters|))
  }

  // ----- completeness -----

  lemma SisterIsHash(c: Conf, job: Job, p: nat, ts: seq<Thread>, up: History, nodes: map<NodeId, Node>, k: nat,
                     level: nat)
    requires 1 <= level && k <= p
    requires NodeOk(c, job, p, ts, up, nodes, level, Anc(k, level))
    requires Carrier(up, level, Anc(k, level)) >= 0
    ensures c.hash(Joined(k, level - 1, Ref(c, job, level - 1, Anc(k, level - 1)), Sister(nodes, k, level)))
         == Ref(c, job, level, Anc(k, level))
  {
    ChildrenCarried(c, job, p, ts, up, nodes, level, Anc(k, level));
    var index := Anc(k, level);
    assert Anc(k, level - 1) == if LeftChild(k, level - 1) then 2 * index else 2 * index + 1;
  }

  lemma {:induction false} ClimbedIsHash(c: Conf, job: Job, p: nat, st: State, up: History, k: nat, height: nat)
    requires Climbing(c, job, p, st, up) && Static(c, job, p)
    requires k <= p && height < c.depth && Carrier(up, c.depth - 1, 0) >= 0
    ensures Climbed(c.hash, k, Section(job.data, k), Sisters(st.nodes, k, c.depth - 1), height)
         == Ref(c, job, height, Anc(k, height))
  {
    if height > 0 {
      ClimbedIsHash(c, job, p, st, up, k, height - 1);
      AncMonotone(k, p, height);
      assert RootIndex(c, p) == 0;
      Settled(c, job, p, st.threads, up, st.nodes, height, Anc(k, height));
      assert NodeOk(c, job, p, st.threads, up, st.nodes, height, Anc(k, height));
      SisterIsHash(c, job, p, st.threads, up, st.nodes, k, height);
    }
  }

  lemma WrittenSection(c: Conf, job: Job, st: State, up: History, k: nat)
    requires Inv(c, job, st, up) && st.results != [] && k <= Last(c, job)
    ensures BufferSection(st.buffer, k) == Section(job.data, k)
    ensures Carrier(up, c.depth - 1, 0) >= 0
  {
    var root := Carrier(up, c.depth - 1, 0);
    assert |st.threads| == Last(c, job) + 1 by {
      ResultNeedsFinal(c, job, st, up);
    }
    BufferHolds(c, job, st, k);
  }

  /** No result without the final goroutine: a subtree is not complete before its last section is hashed. */
  lemma ResultNeedsFinal(c: Conf, job: Job, st: State, up: History)
    requires Inv(c, job, st, up) && st.results != []
    ensures |st.threads| == Last(c, job) + 1
  {
    var p := Last(c, job);
    assert RootIndex(c, p) == 0;
    Settled(c, job, p, st.threads, up, st.nodes, 0, p);
    CarrierPathOfLeaf(c, st.threads, up, p);
  }

  lemma CarrierPathOfLeaf(c: Conf, ts: seq<Thread>, up: History, i: nat)
    requires HistoryOk(c, ts, up) && Carrier(up, 0, i) >= 0
    ensures i < |ts|
  {
    assert NodeId(0, i) in up;
  }

  /** The proof of a written section climbs to the root hash. */
  lemma ProofClimbs(c: Conf, job: Job, st: State, up: History, k: nat)
    requires Inv(c, job, st, up) && st.results != [] && k <= Last(c, job)
    ensures BufferSection(st.buffer, k) == Section(job.data, k)
    ensures Climbed(c.hash, k, Section(job.data, k), Sisters(st.nodes, k, c.depth - 1), c.depth - 1)
         == Ref(c, job, c.depth - 1, 0)
  {
    WrittenSection(c, job, st, up, k);
    ClimbedIsHash(c, job, Last(c, job), st, up, k, c.depth - 1);
    AncMonotone(k, Last(c, job), c.depth - 1);
    assert RootIndex(c, Last(c, job)) == 0;
  }

  /**
   Completeness: after hashing non-empty data, the proof of any segment up to the last written
   section verifies to exactly the digest Hash returned.
   */
  lemma ProofsVerify(c: Conf, buffer: bytes, nodes: map<NodeId, Node>, span: bytes, acts: seq<Action>, k: nat)
    requires PoolTree(c, buffer, nodes)
    requires 64 <= c.maxSize
    requires Exec(c, Fresh(buffer, nodes, span), acts).results != []
    requires k <= OpenSection(c, |DataOf(c, acts)|)
    ensures
      var st := Exec(c, Fresh(buffer, nodes, span), acts);
      && ProofOf(c, st, k).section == Section(DataOf(c, acts), k)
      && Verified(c, k, ProofOf(c, st, k)) == RefDigest(c, span, DataOf(c, acts))
  {
    var job := Job(DataOf(c, acts), nodes);
    var up := AnyRun(c, buffer, nodes, span, acts);
    RunProves(c, job, Exec(c, Fresh(buffer, nodes, span), acts), up, k);
  }

  lemma RunProves(c: Conf, job: Job, st: State, up: History, k: nat)
    requires Inv(c, job, st, up) && st.results != [] && k <= Last(c, job)
    ensures ProofOf(c, st, k).section == Section(job.data, k)
    ensures Verified(c, k, ProofOf(c, st, k)) == RefDigest(c, st.span, job.data)
  {
    ProofClimbs(c, job, st, up, k);
    RefDigestIsRoot(c, st.span, job.data);
  }

  // ----- soundness -----

  /** The strings Verify hashes on its way up, the section first. */
  function Preimage(h: HashFn, k: nat, proof: Proof, height: nat): bytes
    requires height <= |proof.sisters|
  {
    if height == 0 then proof.section
    else Joined(k, height - 1, Climbed(h, k, proof.section, proof.sisters, height - 1), proof.sisters[height - 1])
  }

  /** On this level the two verifications hash different strings to the same value. */
  predicate CollideAt(h: HashFn, k: nat, p: Proof, q: Proof, height: nat)
    requires height <= |p.sisters| && height <= |q.sisters|
  {
    Preimage(h, k, p, height) != Preimage(h, k, q, height) && h(Preimage(h, k, p, height)) == h(Preimage(h, k, q, height))
  }

  lemma JoinedApart(k: nat, level: nat, own: bytes, own': bytes, sister: bytes, sister': bytes)
    requires |own| == |own'| && Joined(k, level, own, sister) == Joined(k, level, own', sister')
    ensures own == own' && sister == sister'
  {
    if LeftChild(k, level) {
      assert (own + sister)[..|own|] == own && (own' + sister')[..|own|] == own';
      assert (own + sister)[|own|..] == sister && (own' + sister')[|own|..] == sister';
    } else {
      assert |sister| == |sister'|;
      assert (sister + own)[|sister|..] == own && (sister' + own')[|sister|..] == own';
      assert (sister + own)[..|sister|] == sister && (sister' + own')[..|sister|] == sister';
    }
  }

  lemma TopApart(h: HashFn, k: nat, p: Proof, q: Proof, height: nat)
    requires IsHash(h) && 0 < height <= |p.sisters| && height <= |q.sisters|
    requires Climbed(h, k, p.section, p.sisters, height) == Climbed(h, k, q.section, q.sisters, height)
    requires !CollideAt(h, k, p, q, height)
    ensures Climbed(h, k, p.section, p.sisters, height - 1) == Climbed(h, k, q.section, q.sisters, height - 1)
    ensures p.sisters[height - 1] == q.sisters[height - 1]
  {
    var a := Climbed(h, k, p.section, p.sisters, height - 1);
    var b := Climbed(h, k, q.section, q.sisters, height - 1);
    ClimbedLength(h, k, p.section, p.sisters, height - 1);
    ClimbedLength(h, k, q.section, q.sisters, height - 1);
    JoinedApart(k, height - 1, a, b, p.sisters[height - 1], q.sisters[height - 1]);
  }

  lemma {:induction false} SameClimbSameProof(h: HashFn, k: nat, p: Proof, q: Proof, height: nat)
    requires IsHash(h) && height <= |p.sisters| && height <= |q.sisters|
    requires Climbed(h, k, p.section, p.sisters, height) == Climbed(h, k, q.section, q.sisters, height)
    ensures (p.section == q.section && p.sisters[..height] == q.sisters[..height])
         || exists l :: 0 <= l <= height && CollideAt(h, k, p, q, l)
  {
    if !CollideAt(h, k, p, q, height) && height > 0 {
      TopApart(h, k, p, q, height);
      SameClimbSameProof(h, k, p, q, height - 1);
      if p.section == q.section && p.sisters[..height - 1] == q.sisters[..height - 1] {
        assert p.sisters[..height] == p.sisters[..height - 1] + [p.sisters[height - 1]];
        assert q.sisters[..height] == q.sisters[..height - 1] + [q.sisters[height - 1]];
      }
    }
  }

  lemma ClimbedLength(h: HashFn, k: nat, section: bytes, sisters: seq<bytes>, height: nat)
    requires IsHash(h) && height <= |sisters|
    ensures |Climbed(h, k, section, sisters, height)| == HASH_SIZE
  {
  }

  /**
   Soundness: two proofs with equally many sisters for the same segment that verify to the same
   digest are the same proof, or one of the strings hashed on the way is a collision of the hash.
   */
  lemma ProofsBind(c: Conf, k: nat, p: Proof, q: Proof)
    requires IsHash(c.hash) && |p.sisters| == |q.sisters|
    requires Verified(c, k, p) == Verified(c, k, q)
    ensures
      var n := |p.sisters|;
      var a := p.span + Climbed(c.hash, k, p.section, p.sisters, n);
      var b := q.span + Climbed(c.hash, k, q.section, q.sisters, n);
      || p == q
      || (a != b && c.hash(a) == c.hash(b))
      || exists l :: 0 <= l <= n && CollideAt(c.hash, k, p, q, l)
  {
    var n := |p.sisters|;
    var a := Climbed(c.hash, k, p.section, p.sisters, n);
    var b := Climbed(c.hash, k, q.section, q.sisters, n);
    if p.span + a == q.span + b {
      ClimbedLength(c.hash, k, p.section, p.sisters, n);
      ClimbedLength(c.hash, k, q.section, q.sisters, n);
      assert |p.span| == |q.span|;
      assert (p.span + a)[|p.span|..] == a && (q.span + b)[|p.span|..] == b;
      assert (p.span + a)[..|p.span|] == p.span && (q.span + b)[..|p.span|] == q.span;
      SameClimbSameProof(c.hash, k, p, q, n);
      assert p.sisters[..n] == p.sisters && q.sisters[..n] == q.sisters;
    }
  }
}
