/** What a caller of the hasher may rely on, for every schedule. */
module BmtTheorems {
  import opened Wrappers

  import opened Bytes
  import opened BmtConf
  import opened BmtReference
  import opened BmtMachine
  import opened BmtInvariant
  import opened BmtRuns

  predicate AllEnded(ts: seq<Thread>) {
    forall i :: 0 <= i < |ts| ==> ts[i].Ended?
  }

  /** A hasher as Pool.Get returns it: any buffer, any node contents, reusable toggles. */
  ghost predicate PoolTree(c: Conf, buffer: bytes, nodes: map<NodeId, Node>) {
    ValidConf(c) && |buffer| == c.maxSize && ReadyTree(c, nodes)
  }

  lemma {:induction false} SpanKept(c: Conf, st: State, acts: seq<Action>)
    requires Fits(c, st)
    ensures Exec(c, st, acts).span == st.span
    decreases |acts|
  {
    if acts != [] {
      if acts[0].Run? && acts[0].i < |st.threads| && st.threads[acts[0].i].Running? {
        StepIsLocal(c, st, acts[0].i);
      }
      SpanKept(c, Act(c, st, acts[0]), acts[1..]);
    }
  }

  lemma AnyRun(c: Conf, buffer: bytes, nodes: map<NodeId, Node>, span: bytes, acts: seq<Action>) returns (up: History)
    requires PoolTree(c, buffer, nodes)
    ensures 64 <= c.maxSize
    ensures Inv(c, Job(DataOf(c, acts), nodes), Exec(c, Fresh(buffer, nodes, span), acts), up)
    ensures Exec(c, Fresh(buffer, nodes, span), acts).span == span
  {
    AtLeastOneSection(c);
    var job := Job(DataOf(c, acts), nodes);
    FreshClimbs(c, job, buffer, nodes, span);
    SpanKept(c, Fresh(buffer, nodes, span), acts);
    assert job.data == job.data[..0] + Remaining(c, 0, false, acts);
    up := RunKeeps(c, job, Fresh(buffer, nodes, span), map[], acts);
  }

  // ----- the result -----

  lemma DigestIsReference(c: Conf, job: Job, st: State, up: History)
    requires Inv(c, job, st, up)
    ensures |st.results| <= 1
    ensures Digest(c, st).Some? ==> Digest(c, st).value == RefDigest(c, st.span, job.data)
  {
    RefDigestIsRoot(c, st.span, job.data);
    if st.hashed && st.size == 0 {
      EmptyTree(c.hash, c.depth - 1, 0);
    }
  }

  /**
   Refinement: whatever the tree held before, however the data is split into Write calls and
   however the goroutines are scheduled, at most one goroutine sends a result, and what Hash
   returns is the digest of the reference hasher.
   */
  lemma HashIsReference(c: Conf, buffer: bytes, nodes: map<NodeId, Node>, span: bytes, acts: seq<Action>)
    requires PoolTree(c, buffer, nodes)
    ensures 64 <= c.maxSize
    ensures var st := Exec(c, Fresh(buffer, nodes, span), acts);
      && |st.results| <= 1
      && (Digest(c, st).Some? ==> Digest(c, st).value == RefDigest(c, span, DataOf(c, acts)))
  {
    var up := AnyRun(c, buffer, nodes, span, acts);
    DigestIsReference(c, Job(DataOf(c, acts), nodes), Exec(c, Fresh(buffer, nodes, span), acts), up);
  }

  // ----- progress -----

  /** Once all goroutines have ended, the hash of every reached node has been carried to its parent. */
  lemma {:induction false} AllCarried(c: Conf, job: Job, p: nat, ts: seq<Thread>, up: History, nodes: map<NodeId, Node>,
                                      level: nat, index: nat)
    requires Core(c, job, p, ts, up, nodes) && AllEnded(ts) && |ts| == p + 1
    requires level < c.depth && index <= Anc(p, level)
    ensures Carrier(up, level, index) >= 0
    decreases level
  {
    if level == 0 {
      assert ThreadOk(c, job, p, ts, up, index);
    } else {
      var right := 2 * index + 1;
      AllCarried(c, job, p, ts, up, nodes, level - 1, 2 * index);
      if right <= Anc(p, level - 1) {
        AllCarried(c, job, p, ts, up, nodes, level - 1, right);
      }
      assert ThreadOk(c, job, p, ts, up, p);
      SettledNode(c, job, p, ts, up, nodes, level, index);
    }
  }

  lemma SettledNode(c: Conf, job: Job, p: nat, ts: seq<Thread>, up: History, nodes: map<NodeId, Node>,
                    level: nat, index: nat)
    requires level >= 1 && AllEnded(ts) && p < |ts| && ts[p].level > level
    requires HistoryOk(c, ts, up) && NodeOk(c, job, p, ts, up, nodes, level, index)
    requires Carrier(up, level - 1, 2 * index) >= 0
    requires RightCarrier(p, up, level, index) >= 0
    ensures Carrier(up, level, index) >= 0
  {
  }

  lemma AllEndedSent(c: Conf, job: Job, p: nat, st: State, up: History)
    requires Climbing(c, job, p, st, up) && AllEnded(st.threads) && |st.threads| == p + 1
    ensures st.results == [Ref(c, job, c.depth - 1, 0)]
  {
    AllCarried(c, job, p, st.threads, up, st.nodes, c.depth - 1, 0);
    var i := Carrier(up, c.depth - 1, 0);
    assert ThreadOk(c, job, p, st.threads, up, i);
  }

  /** Progress: when Hash was called and no goroutine can move any more, the result has been delivered. */
  lemma HashArrives(c: Conf, buffer: bytes, nodes: map<NodeId, Node>, span: bytes, acts: seq<Action>)
    requires PoolTree(c, buffer, nodes)
    requires 64 <= c.maxSize
    requires var st := Exec(c, Fresh(buffer, nodes, span), acts); st.hashed && AllEnded(st.threads)
    ensures Digest(c, Exec(c, Fresh(buffer, nodes, span), acts)) == Some(RefDigest(c, span, DataOf(c, acts)))
  {
    var st := Exec(c, Fresh(buffer, nodes, span), acts);
    var job := Job(DataOf(c, acts), nodes);
    var up := AnyRun(c, buffer, nodes, span, acts);
    if st.size > 0 {
      AllEndedSent(c, job, Last(c, job), st, up);
    }
    HashIsReference(c, buffer, nodes, span, acts);
  }

  // ----- termination -----

  function ThreadWork(c: Conf, t: Thread): nat {
    if t.Ended? || t.level > c.depth then 0
    else 4 * (c.depth - t.level) +
         match t.pc
         case Leaf => 3
         case Write => 3
         case Toggle => 2
         case Hash => 1
  }

  /** An upper bound for the steps all goroutines can still take. */
  function Work(c: Conf, ts: seq<Thread>): nat {
    if ts == [] then 0 else ThreadWork(c, ts[0]) + Work(c, ts[1..])
  }

  lemma {:induction false} WorkOfUpdate(c: Conf, ts: seq<Thread>, i: nat, t': Thread)
    requires i < |ts|
    ensures Work(c, ts[i := t']) == Work(c, ts) - ThreadWork(c, ts[i]) + ThreadWork(c, t')
  {
    var ts' := ts[i := t'];
    if i == 0 {
      assert ts'[1..] == ts[1..];
    } else {
      assert ts'[1..] == ts[1..][i - 1 := t'];
      WorkOfUpdate(c, ts[1..], i - 1, t');
    }
  }

  lemma ThreadWorks(c: Conf, job: Job, p: nat, st: State, up: History, i: nat)
    requires i < |st.threads| && st.threads[i].Running? && ThreadOk(c, job, p, st.threads, up, i)
    ensures |Step(c, st, i).threads| == |st.threads|
    ensures Step(c, st, i).threads == st.threads[i := Step(c, st, i).threads[i]]
    ensures ThreadWork(c, Step(c, st, i).threads[i]) < ThreadWork(c, st.threads[i])
  {
  }

  lemma StepWorks(c: Conf, job: Job, st: State, up: History, i: nat)
    requires Inv(c, job, st, up) && i < |st.threads| && st.threads[i].Running?
    ensures Work(c, Step(c, st, i).threads) < Work(c, st.threads)
  {
    assert ThreadOk(c, job, Last(c, job), st.threads, up, i);
    ThreadWorks(c, job, Last(c, job), st, up, i);
    WorkOfUpdate(c, st.threads, i, Step(c, st, i).threads[i]);
  }

  /** How many steps of goroutines a schedule really takes. */
  function StepsTaken(c: Conf, st: State, acts: seq<Action>): nat
    requires Fits(c, st)
    decreases |acts|
  {
    if acts == [] then 0
    else
      var a := acts[0];
      (if a.Run? && a.i < |st.threads| && st.threads[a.i].Running? then 1 else 0) +
      StepsTaken(c, Act(c, st, a), acts[1..])
  }

  lemma {:induction false} StepsBoundedByWork(c: Conf, job: Job, st: State, up: History, acts: seq<Action>)
    requires Inv(c, job, st, up) && st.hashed
    ensures StepsTaken(c, st, acts) <= Work(c, st.threads)
    decreases |acts|
  {
    if acts != [] {
      var a := acts[0];
      if a.Run? && a.i < |st.threads| && st.threads[a.i].Running? {
        var up' := RunActKeeps(c, job, st, up, a.i);
        StepWorks(c, job, st, up, a.i);
        StepsBoundedByWork(c, job, Step(c, st, a.i), up', acts[1..]);
      } else {
        StepsBoundedByWork(c, job, st, up, acts[1..]);
      }
    }
  }

  /** Termination: after the call of Hash no schedule takes more steps than the work left. */
  lemma SchedulesEnd(c: Conf, buffer: bytes, nodes: map<NodeId, Node>, span: bytes, acts: seq<Action>,
                     more: seq<Action>)
    requires PoolTree(c, buffer, nodes)
    requires 64 <= c.maxSize
    requires Exec(c, Fresh(buffer, nodes, span), acts).hashed
    ensures var st := Exec(c, Fresh(buffer, nodes, span), acts);
      StepsTaken(c, st, more) <= Work(c, st.threads)
  {
    var up := AnyRun(c, buffer, nodes, span, acts);
    StepsBoundedByWork(c, Job(DataOf(c, acts), nodes), Exec(c, Fresh(buffer, nodes, span), acts), up, more);
  }
}
