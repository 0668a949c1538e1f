/**
 What every interleaving of the hasher's goroutines keeps. The only history needed is `up`:
 which goroutine carried the hash of a node to its parent.
 */
module BmtInvariant {
  import opened Bytes
  import opened BmtConf
  import opened BmtReference
  import opened BmtMachine

  /** What a run starts from: the data it will write in all, and the nodes it finds in its tree. */
  datatype Job = Job(data: bytes, base: map<NodeId, Node>)

  /** up[n] is the goroutine that hashed node n and carried the hash to the parent. */
  type History = map<NodeId, nat>

  // ----- trees as the pool hands them out -----

  /** The inner nodes of the tree, the ones goroutines write. */
  predicate Inner(c: Conf, id: NodeId)
    requires c.depth >= 1
  {
    1 <= id.level < c.depth && id.index < Pow2(c.depth - 1 - id.level)
  }

  /** A state in which the next two calls of toggle return true, then false. */
  predicate Reusable(state: int) {
    0 <= state < MAX_INT32 && state % 2 == 0
  }

  /** Every inner node exists and has a reusable toggle; its segments may hold anything. */
  ghost predicate ReadyTree(c: Conf, nodes: map<NodeId, Node>)
    requires c.depth >= 1
  {
    forall id :: Inner(c, id) ==> id in nodes && Reusable(nodes[id].state)
  }

  ghost predicate ValidJob(c: Conf, job: Job) {
    ValidConf(c) && 64 <= c.maxSize && |job.data| <= c.maxSize && ReadyTree(c, job.base)
  }

  // ----- vocabulary -----

  /** The section the final goroutine hashes. */
  function Last(c: Conf, job: Job): nat
    requires 64 <= c.maxSize
  {
    OpenSection(c, |job.data|)
  }

  function Ref(c: Conf, job: Job, level: nat, index: nat): bytes {
    NodeHash(c.hash, job.data, level, index)
  }

  function Carrier(up: History, level: nat, index: nat): int {
    var id := NodeId(level, index);
    if id in up then up[id] else -1
  }

  predicate Above(ts: seq<Thread>, i: int, level: nat) {
    0 <= i < |ts| && ts[i].level > level
  }

  predicate Hashing(ts: seq<Thread>, i: int, level: nat) {
    0 <= i < |ts| && ts[i].level == level && ts[i].Running? && ts[i].pc == Hash
  }

  predicate Stopped(ts: seq<Thread>, i: int, level: nat) {
    0 <= i < |ts| && ts[i].level == level && ts[i].Ended?
  }

  /** Goroutine i is through with the toggle of its node on this level. */
  predicate Toggled(ts: seq<Thread>, i: int, level: nat) {
    Above(ts, i, level) || Hashing(ts, i, level) || Stopped(ts, i, level)
  }

  predicate Toggling(ts: seq<Thread>, i: int, level: nat) {
    0 <= i < |ts| && ts[i].level == level && ts[i].Running? && ts[i].pc == Toggle
  }

  predicate Wrote(ts: seq<Thread>, i: int, level: nat) {
    Toggled(ts, i, level) || Toggling(ts, i, level)
  }

  /** The right child lies behind the last section, so the path of the final goroutine comes from the left. */
  predicate NoRight(p: nat, level: nat, index: nat)
    requires level >= 1
  {
    2 * index + 1 > Anc(p, level - 1)
  }

  /** The goroutine that answers for the right segment: the final one when there is no right child. */
  function RightCarrier(p: nat, up: History, level: nat, index: nat): int
    requires level >= 1
  {
    if NoRight(p, level, index) then p else Carrier(up, level - 1, 2 * index + 1)
  }

  /** The final goroutine arrives with the hash of the left child and no sister will come: no toggling. */
  predicate Solo(p: nat, up: History, level: nat, index: nat)
    requires level >= 1
  {
    NoRight(p, level, index) && Carrier(up, level - 1, 2 * index) == p
  }

  function Toggles(p: nat, ts: seq<Thread>, up: History, level: nat, index: nat): nat
    requires level >= 1
  {
    if Solo(p, up, level, index) then
      0
    else
      (if Toggled(ts, Carrier(up, level - 1, 2 * index), level) then 1 else 0) +
      (if Toggled(ts, RightCarrier(p, up, level, index), level) then 1 else 0)
  }

  function AfterToggles(state: int, n: nat): int {
    if n == 0 then state else AddInt32(AfterToggles(state, n - 1))
  }

  predicate Winner(ts: seq<Thread>, up: History, i: int, level: nat, index: nat) {
    Hashing(ts, i, level) || (0 <= i && Carrier(up, level, index) == i)
  }

  // ----- the invariant -----

  /** Goroutine i (working on section i) is where its section's path says and carries what it should. */
  ghost predicate ThreadOk(c: Conf, job: Job, p: nat, ts: seq<Thread>, up: History, i: nat)
    requires i < |ts|
  {
    var t := ts[i];
    && t.level <= c.depth
    && (t.final <==> i == p)
    && (i != p ==> forall h: nat {:trigger Carrier(up, h, Anc(i, h))} :: h < t.level ==> Carrier(up, h, Anc(i, h)) == i)
    && (t.Ended? && i == p ==> t.level == c.depth)
    && (t.Ended? ==> t.level >= 1)
    && (t.level >= 1 ==> Carrier(up, 0, i) == i)
    && (t.Running? ==>
          && t.index == Anc(i, t.level)
          && (t.pc == Leaf <==> t.level == 0)
          && (t.level == c.depth ==> t.pc == Write)
          && (t.level >= 1 ==>
                && t.fromLeft == (Anc(i, t.level - 1) % 2 == 0)
                && (t.s.Some? <==> Carrier(up, t.level - 1, Anc(i, t.level - 1)) == i)
                && (t.s.Some? ==> t.s.value == Ref(c, job, t.level - 1, Anc(i, t.level - 1))))
          && (t.pc == Toggle && i == p ==> (t.fromLeft <==> t.s.None?))
          && (t.pc == Hash && i == p ==> t.fromLeft || t.s.Some?))
  }

  ghost predicate ThreadsOk(c: Conf, job: Job, p: nat, ts: seq<Thread>, up: History) {
    forall i: nat :: i < |ts| ==> ThreadOk(c, job, p, ts, up, i)
  }

  ghost predicate HistoryOk(c: Conf, ts: seq<Thread>, up: History) {
    forall id :: id in up ==>
      up[id] < |ts| && id.level < c.depth && Anc(up[id], id.level) == id.index && ts[up[id]].level > id.level
  }

  /** One inner node: what it holds, how often it was toggled, and that at most one goroutine moves on. */
  ghost predicate NodeOk(c: Conf, job: Job, p: nat, ts: seq<Thread>, up: History, nodes: map<NodeId, Node>,
                         level: nat, index: nat)
    requires level >= 1
  {
    var n := NodeAt(nodes, NodeId(level, index));
    var a := Carrier(up, level - 1, 2 * index);
    var b := RightCarrier(p, up, level, index);
    var winner := Carrier(up, level, index);
    && (Wrote(ts, a, level) ==> n.left == Ref(c, job, level - 1, 2 * index))
    && (Wrote(ts, b, level) ==> n.right == Ref(c, job, level - 1, 2 * index + 1))
    && n.state == AfterToggles(NodeAt(job.base, NodeId(level, index)).state, Toggles(p, ts, up, level, index))
    && (if Solo(p, up, level, index) then
          && (winner == -1 || winner == p)
          && (Above(ts, p, level) <==> winner == p)
        else if Toggles(p, ts, up, level, index) == 2 then
          && (winner == -1 || winner == a || winner == b)
          && (Winner(ts, up, a, level, index) <==> !Winner(ts, up, b, level, index))
        else
          winner == -1 && !Hashing(ts, a, level) && !Hashing(ts, b, level))
  }

  /** The nodes on or left of the path of the final goroutine. */
  predicate Reached(c: Conf, p: nat, level: nat, index: nat) {
    1 <= level < c.depth && index <= Anc(p, level)
  }

  ghost predicate TreeOk(c: Conf, job: Job, p: nat, ts: seq<Thread>, up: History, nodes: map<NodeId, Node>) {
    && (forall id :: id in job.base ==> id in nodes)
    && (forall level: nat, index: nat {:trigger NodeOk(c, job, p, ts, up, nodes, level, index)} | Reached(c, p, level, index) ::
          NodeOk(c, job, p, ts, up, nodes, level, index))
    && (forall id {:trigger id in nodes} :: id in nodes && !Reached(c, p, id.level, id.index) ==>
          id in job.base && nodes[id] == job.base[id])
  }

  /** The goroutine that carried the root hash out of the tree has sent it. */
  predicate Sent(c: Conf, ts: seq<Thread>, up: History)
    requires c.depth >= 1
  {
    Stopped(ts, Carrier(up, c.depth - 1, 0), c.depth)
  }

  ghost predicate ResultsOk(c: Conf, job: Job, ts: seq<Thread>, up: History, results: seq<bytes>)
    requires c.depth >= 1
  {
    results == if Sent(c, ts, up) then [Ref(c, job, c.depth - 1, 0)] else []
  }

  /** What the caller has written so far, and which goroutines it has started. */
  ghost predicate CallerOk(c: Conf, job: Job, p: nat, st: State) {
    && Fits(c, st)
    && st.size <= |job.data|
    && st.buffer[..st.size] == job.data[..st.size]
    && (!st.hashed ==> |st.threads| == OpenSection(c, st.size) && (st.size > 0 ==> st.pos == OpenSection(c, st.size)))
    && (st.hashed ==>
          && st.size == |job.data|
          && |st.threads| == (if st.size == 0 then 0 else p + 1)
          && (st.size > 0 ==> BufferSection(st.buffer, p) == Section(job.data, p)))
  }

  /** The part of the invariant that speaks about the tree and the goroutines. */
  ghost predicate Core(c: Conf, job: Job, p: nat, ts: seq<Thread>, up: History, nodes: map<NodeId, Node>) {
    && ThreadsOk(c, job, p, ts, up)
    && HistoryOk(c, ts, up)
    && TreeOk(c, job, p, ts, up, nodes)
  }

  function RootIndex(c: Conf, i: nat): nat
    requires c.depth >= 1
  {
    Anc(i, c.depth - 1)
  }

  /** The paths of all sections up to p end in the one root. */
  ghost predicate OneRoot(c: Conf, p: nat)
    requires c.depth >= 1
  {
    forall i: nat :: i <= p ==> RootIndex(c, i) == 0
  }

  /** What does not change during a run. */
  ghost predicate Static(c: Conf, job: Job, p: nat) {
    && ValidJob(c, job)
    && |job.data| <= 64 * p + 64
    && p < Pow2(c.depth - 1)
    && OneRoot(c, p)
  }

  /** The goroutines' part of the invariant: tree, goroutines and result channel. */
  ghost predicate Climbing(c: Conf, job: Job, p: nat, st: State, up: History) {
    && c.depth >= 1
    && Core(c, job, p, st.threads, up, st.nodes)
    && ResultsOk(c, job, st.threads, up, st.results)
  }

  ghost predicate Inv(c: Conf, job: Job, st: State, up: History) {
    && ValidJob(c, job)
    && Static(c, job, Last(c, job))
    && CallerOk(c, job, Last(c, job), st)
    && |st.threads| <= Last(c, job) + 1
    && Climbing(c, job, Last(c, job), st, up)
  }
}
