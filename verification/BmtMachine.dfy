/**
 The concurrent BMT hasher as a transition system: the state the goroutines share, the local
 state of each goroutine, and one function per atomic step. The scheduler picks the goroutine.
 */
module BmtMachine {
  import opened Wrappers

  import opened Bytes
  import opened BmtConf

  /** Node `index` on `level`; level 0 holds the leaf nodes, level depth - 1 the root. */
  datatype NodeId = NodeId(level: nat, index: nat)

  /** What goroutines write in a node: the int32 toggle and the two child hashes. */
  datatype Node = Node(state: int, left: bytes, right: bytes)

  const MAX_INT32: int := 0x7fff_ffff
  const MIN_INT32: int := -0x8000_0000

  /** atomic.AddInt32(&x, 1), with its wrap-around. */
  function AddInt32(x: int): int {
    if x == MAX_INT32 then MIN_INT32 else x + 1
  }

  /** Go's x % 2: the remainder has the sign of x. */
  function GoRem2(x: int): int {
    if x >= 0 then x % 2 else -((-x) % 2)
  }

  /** What toggle returns when it leaves the given state behind. */
  predicate Active(state: int) {
    GoRem2(state) == 1
  }

  /** Where a goroutine stands inside processSection, writeNode or writeFinalNode. */
  datatype Pc =
    | Leaf    // about to hash its section
    | Write   // top of the climbing loop: about to write s into the node, or to send it
    | Toggle  // about to call n.toggle
    | Hash    // about to hash n.left and n.right and climb to the parent

  datatype Thread =
    | Running(level: nat, index: nat, fromLeft: bool, s: Option<bytes>, final: bool, pc: Pc)
    | Ended(level: nat, final: bool)

  datatype State = State(
    size: nat,
    pos: nat,
    offset: nat,
    span: bytes,
    buffer: bytes,
    nodes: map<NodeId, Node>,
    threads: seq<Thread>,
    results: seq<bytes>,
    hashed: bool)

  function NodeAt(nodes: map<NodeId, Node>, id: NodeId): Node {
    if id in nodes then nodes[id] else Node(0, [], [])
  }

  function BufferSection(buffer: bytes, i: nat): bytes {
    if 64 * i + 64 <= |buffer| then buffer[64 * i..64 * i + 64] else []
  }

  // ----- the goroutine running processSection(i, final) -----

  function Spawned(i: nat, final: bool): Thread {
    Running(0, i, true, None, final, Leaf)
  }

  /** Steps from a node to its parent carrying s: the tail of the climbing loop. */
  function Climb(t: Thread, s: Option<bytes>): Thread
    requires t.Running?
  {
    Running(t.level + 1, t.index / 2, t.index % 2 == 0, s, t.final, Write)
  }

  /** processSection up to the call of writeNode or writeFinalNode. */
  function LeafStep(c: Conf, st: State, i: nat): State
    requires i < |st.threads| && st.threads[i].Running?
  {
    var t := st.threads[i];
    var section := c.hash(BufferSection(st.buffer, t.index));
    st.(threads := st.threads[i := Climb(t, Some(section))])
  }

  /** The branch n == nil: the root hash is sent, unless the final goroutine holds nil. */
  function SendStep(st: State, i: nat): State
    requires i < |st.threads| && st.threads[i].Running?
  {
    var t := st.threads[i];
    st.(threads := st.threads[i := Ended(t.level, t.final)],
        results := if t.s.Some? then st.results + [t.s.value] else st.results)
  }

  /** writeNode: assigns the child hash to the left or right segment. */
  function WriteStep(st: State, i: nat): State
    requires i < |st.threads| && st.threads[i].Running? && st.threads[i].s.Some?
  {
    var t := st.threads[i];
    var id := NodeId(t.level, t.index);
    var n := NodeAt(st.nodes, id);
    var n' := if t.fromLeft then n.(left := t.s.value) else n.(right := t.s.value);
    st.(nodes := st.nodes[id := n'], threads := st.threads[i := t.(pc := Toggle)])
  }

  /** writeFinalNode: the zero hash goes to a missing right sister. */
  function FinalWriteStep(c: Conf, st: State, i: nat): State
    requires i < |st.threads| && st.threads[i].Running?
  {
    var t := st.threads[i];
    var id := NodeId(t.level, t.index);
    var n := NodeAt(st.nodes, id);
    if t.fromLeft then
      var zero := if t.level < |c.zerohashes| then c.zerohashes[t.level] else [];
      if t.s.Some? then
        st.(nodes := st.nodes[id := n.(left := t.s.value, right := zero)],
            threads := st.threads[i := t.(pc := Hash)])
      else
        st.(nodes := st.nodes[id := n.(right := zero)],
            threads := st.threads[i := t.(pc := Toggle)])
    else if t.s.Some? then
      st.(nodes := st.nodes[id := n.(right := t.s.value)],
          threads := st.threads[i := t.(pc := Toggle)])
    else
      st.(threads := st.threads[i := Climb(t, None)])
  }

  /** n.toggle(): whoever comes first ends, or in the final goroutine climbs on with nil. */
  function ToggleStep(st: State, i: nat): State
    requires i < |st.threads| && st.threads[i].Running?
  {
    var t := st.threads[i];
    var id := NodeId(t.level, t.index);
    var n := NodeAt(st.nodes, id);
    var state := AddInt32(n.state);
    var t' :=
      if !Active(state) then t.(pc := Hash)
      else if t.final then Climb(t, None)
      else Ended(t.level, false);
    st.(nodes := st.nodes[id := n.(state := state)], threads := st.threads[i := t'])
  }

  /** doHash(n.hasher, n.left, n.right), carried on to the parent. */
  function HashStep(c: Conf, st: State, i: nat): State
    requires i < |st.threads| && st.threads[i].Running?
  {
    var t := st.threads[i];
    var n := NodeAt(st.nodes, NodeId(t.level, t.index));
    st.(threads := st.threads[i := Climb(t, Some(c.hash(n.left + n.right)))])
  }

  /** One atomic step of goroutine i. */
  function Step(c: Conf, st: State, i: nat): State
    requires i < |st.threads| && st.threads[i].Running?
  {
    var t := st.threads[i];
    match t.pc
    case Leaf => LeafStep(c, st, i)
    case Write =>
      if t.level == c.depth then SendStep(st, i)
      else if t.final then FinalWriteStep(c, st, i)
      else if t.s.Some? then WriteStep(st, i)
      else st
    case Toggle => ToggleStep(st, i)
    case Hash => HashStep(c, st, i)
  }

  // ----- the caller's goroutine -----

  /** The section that stays open once size bytes are written; the last one when the buffer is full. */
  function OpenSection(c: Conf, size: nat): nat
    requires 64 <= c.maxSize
  {
    if size == c.maxSize then size / 64 - 1 else size / 64
  }

  /** A state whose buffer has the size of the configured tree. */
  predicate Fits(c: Conf, st: State) {
    64 <= c.maxSize && st.size <= c.maxSize == |st.buffer|
  }

  /** How much of b a Write call takes. */
  function Taken(c: Conf, size: nat, b: bytes): nat
    requires size <= c.maxSize
  {
    if |b| <= c.maxSize - size then |b| else c.maxSize - size
  }

  /** The goroutines a Write starts, for sections from (inclusive) to `to` (exclusive). */
  function SpawnedBetween(from: nat, to: nat): (ts: seq<Thread>)
    ensures |ts| == if from <= to then to - from else 0
    ensures forall i :: 0 <= i < |ts| ==> ts[i] == Spawned(from + i, false)
  {
    seq(if from <= to then to - from else 0, (i: nat) => Spawned(from + i, false))
  }

  /** Hasher.Write. */
  function WriteCall(c: Conf, st: State, b: bytes): State
    requires Fits(c, st)
  {
    var l := Taken(c, st.size, b);
    var max := c.maxSize - st.size;
    var from := st.size / 64;
    var size := st.size + l;
    var to: nat := if l == max then size / 64 - 1 else size / 64;
    st.(buffer := CopyInto(st.buffer, st.size, b),
        offset := st.size % 64,
        size := size,
        pos := to,
        threads := st.threads + SpawnedBetween(from, to))
  }

  /** Hasher.Hash up to the point where it waits for the result channel. */
  function HashCall(c: Conf, st: State): State
    requires Fits(c, st)
  {
    if st.size == 0 then
      st.(hashed := true)
    else
      st.(buffer := CopyInto(st.buffer, st.size, Zeros(64)),
          threads := st.threads + [Spawned(st.pos, true)],
          hashed := true)
  }

  /** Pool.Get and SetHeader: a hasher over whatever an earlier user left in the tree. */
  function Fresh(buffer: bytes, nodes: map<NodeId, Node>, span: bytes): State {
    State(0, 0, 0, span, buffer, nodes, [], [], false)
  }

  /** What Hash returns, once it returns. */
  function Digest(c: Conf, st: State): Option<bytes>
    requires |c.zerohashes| == c.depth + 1
  {
    if !st.hashed then None
    else if st.size == 0 then Some(c.hash(st.span + c.zerohashes[c.depth]))
    else if st.results == [] then None
    else Some(c.hash(st.span + st.results[0]))
  }

  // ----- runs -----

  datatype Action = CallWrite(b: bytes) | CallHash | Run(i: nat)

  function Act(c: Conf, st: State, a: Action): State
    requires Fits(c, st)
  {
    match a
    case CallWrite(b) => if st.hashed then st else WriteCall(c, st, b)
    case CallHash => if st.hashed then st else HashCall(c, st)
    case Run(i) => if i < |st.threads| && st.threads[i].Running? then Step(c, st, i) else st
  }

  /** Runs a schedule. Calls after Hash are dropped: Hash is called once per use of a hasher. */
  function Exec(c: Conf, st: State, acts: seq<Action>): (r: State)
    requires Fits(c, st)
    ensures Fits(c, r)
    decreases |acts|
  {
    if acts == [] then st else Exec(c, Act(c, st, acts[0]), acts[1..])
  }
}
