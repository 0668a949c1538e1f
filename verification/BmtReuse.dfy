/**
 The next chunk on the same tree, while goroutines of the one before are still on their way: they
 take their turns between the steps of the new ones and change nothing.
 */
module BmtReuse {
  import opened Bytes
  import opened BmtConf
  import opened BmtReference
  import opened BmtMachine
  import opened BmtRuns
  import opened BmtTheorems
  import opened BmtQuiescence

  /** The chunk being hashed, and the goroutines left over from earlier ones. */
  datatype Shared = Shared(st: State, left: seq<Thread>)

  datatype Turn = New(a: Action) | Old(i: nat)

  /** An old goroutine acts on the tree, the buffer and the channel as they are now. */
  function OldStep(c: Conf, w: Shared, i: nat): Shared
    requires i < |w.left| && w.left[i].Running?
  {
    var after := Step(c, w.st.(threads := w.left), i);
    Shared(after.(threads := w.st.threads), after.threads)
  }

  function Take(c: Conf, w: Shared, t: Turn): Shared
    requires Fits(c, w.st)
  {
    match t
    case New(a) => w.(st := Act(c, w.st, a))
    case Old(i) => if i < |w.left| && w.left[i].Running? then OldStep(c, w, i) else w
  }

  ghost predicate Quiet(c: Conf, left: seq<Thread>) {
    forall i :: 0 <= i < |left| ==> left[i].Ended? || Silent(c, left[i])
  }

  lemma OldStepKeeps(c: Conf, w: Shared, i: nat)
    requires Quiet(c, w.left) && i < |w.left| && w.left[i].Running?
    ensures OldStep(c, w, i).st == w.st && Quiet(c, OldStep(c, w, i).left)
  {
    SilentStep(c, w.st.(threads := w.left), i);
  }

  ghost function Play(c: Conf, w: Shared, turns: seq<Turn>): Shared
    requires Fits(c, w.st) && Quiet(c, w.left)
    decreases |turns|
  {
    if turns == [] then w
    else
      TakeKeeps(c, w, turns[0]);
      Play(c, Take(c, w, turns[0]), turns[1..])
  }

  lemma TakeKeeps(c: Conf, w: Shared, t: Turn)
    requires Fits(c, w.st) && Quiet(c, w.left)
    ensures
      var next := Take(c, w, t);
      && Fits(c, next.st) && Quiet(c, next.left)
      && (t.New? ==> next.st == Act(c, w.st, t.a)) && (t.Old? ==> next.st == w.st)
  {
    match t {
      case New(a) => assert Exec(c, w.st, [a]) == Exec(c, Act(c, w.st, a), [a][1..]);
      case Old(i) =>
        if i < |w.left| && w.left[i].Running? {
          OldStepKeeps(c, w, i);
        }
    }
  }

  /** The turns of the chunk being hashed. */
  function Own(turns: seq<Turn>): seq<Action> {
    if turns == [] then []
    else if turns[0].New? then [turns[0].a] + Own(turns[1..])
    else Own(turns[1..])
  }

  /** However the leftover goroutines are scheduled in between, the new chunk does not notice. */
  lemma {:induction false} LeftoversDoNotMatter(c: Conf, w: Shared, turns: seq<Turn>)
    requires Fits(c, w.st) && Quiet(c, w.left)
    ensures Play(c, w, turns).st == Exec(c, w.st, Own(turns))
    ensures Quiet(c, Play(c, w, turns).left)
    decreases |turns|
  {
    if turns != [] {
      TakeKeeps(c, w, turns[0]);
      LeftoversDoNotMatter(c, Take(c, w, turns[0]), turns[1..]);
      if turns[0].New? {
        assert Own(turns)[1..] == Own(turns[1..]);
      }
    }
  }

  /** All goroutines of a chunk are quiet once its hash has arrived. */
  lemma QuietOnArrival(c: Conf, buffer: bytes, nodes: map<NodeId, Node>, span: bytes, acts: seq<Action>)
    requires PoolTree(c, buffer, nodes) && 64 <= c.maxSize
    requires Digest(c, Exec(c, Fresh(buffer, nodes, span), acts)).Some?
    ensures Quiet(c, Exec(c, Fresh(buffer, nodes, span), acts).threads)
  {
    var st := Exec(c, Fresh(buffer, nodes, span), acts);
    var up := AnyRun(c, buffer, nodes, span, acts);
    forall i | 0 <= i < |st.threads| ensures st.threads[i].Ended? || Silent(c, st.threads[i]) {
      if st.threads[i].Running? {
        LeftoversAreSilent(c, buffer, nodes, span, acts, i);
      }
    }
  }

  /**
   A hasher that is reset, or a tree that goes back to the pool, as soon as the hash has arrived: the
   next chunk gets its reference digest, in whatever order its goroutines and those left over from
   the chunk before take their turns on the one tree.
   */
  lemma NextChunkIsReference(c: Conf, buffer: bytes, nodes: map<NodeId, Node>, span: bytes, acts: seq<Action>, uses: nat,
                             next: bytes, turns: seq<Turn>)
    requires ValidConf(c) && |buffer| == c.maxSize && 64 <= c.maxSize && uses >= 2 && TreeGoodFor(c, nodes, uses)
    requires Digest(c, Exec(c, Fresh(buffer, nodes, span), acts)).Some?
    ensures
      var st := Exec(c, Fresh(buffer, nodes, span), acts);
      && Quiet(c, st.threads)
      && var end := Play(c, Shared(Fresh(st.buffer, st.nodes, next), st.threads), turns);
         && |end.st.results| <= 1
         && (Digest(c, end.st).Some? ==> Digest(c, end.st).value == RefDigest(c, next, DataOf(c, Own(turns))))
  {
    var st := Exec(c, Fresh(buffer, nodes, span), acts);
    GoodIsReady(c, nodes, uses);
    QuietOnArrival(c, buffer, nodes, span, acts);
    TreeIsReusable(c, buffer, nodes, span, acts, uses);
    GoodIsReady(c, st.nodes, uses - 1);
    LeftoversDoNotMatter(c, Shared(Fresh(st.buffer, st.nodes, next), st.threads), turns);
    HashIsReference(c, st.buffer, st.nodes, next, Own(turns));
  }
}
