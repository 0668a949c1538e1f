/** Where the guarantees of the store end: what goes wrong once their conditions are dropped. */
module StoreLimits {
  import opened StoreIndexes
  import opened StoreOps
  import opened StoreLemmas
  import opened StoreRepeat
  import opened StoreCalls
  import opened StorePuts
  import opened StoreStatus

  // ----- repeated namings -----

  /** Naming the chunk moves the counter: it is cached, or, for an unpinning, on its last pin. */
  predicate Counts(mode: SetMode, db: Indexes, a: Address) {
    CountOf(mode, db, a) != 0
  }

  /** The k-th address came before in the list, and naming it moves the counter. */
  predicate NamedAgain(mode: SetMode, db: Indexes, addrs: seq<Address>, k: nat)
    requires k < |addrs|
  {
    Latest(addrs, k, addrs[k]) >= 0 && Counts(mode, db, addrs[k])
  }

  /** How many of the first k namings move the counter. */
  function Namings(mode: SetMode, db: Indexes, addrs: seq<Address>, k: nat): nat
    requires k <= |addrs|
  {
    if k == 0 then 0 else Namings(mode, db, addrs, k - 1) + if Counts(mode, db, addrs[k - 1]) then 1 else 0
  }

  /** How many of them are repetitions. */
  function TimesAgain(mode: SetMode, db: Indexes, addrs: seq<Address>, k: nat): nat
    requires k <= |addrs|
  {
    if k == 0 then 0 else TimesAgain(mode, db, addrs, k - 1) + if NamedAgain(mode, db, addrs, k - 1) then 1 else 0
  }

  /** Pinning, removing and syncing count down, unpinning counts up. */
  function Sign(mode: SetMode): int {
    if mode.ModeUnpin? then 1 else -1
  }

  lemma {:induction false} NamingsSum(mode: SetMode, db: Indexes, addrs: seq<Address>, k: nat)
    requires k <= |addrs|
    ensures NamedCount(mode, db, addrs, k) == Sign(mode) * Namings(mode, db, addrs, k)
    ensures Recounted(mode, db, addrs, k) == Sign(mode) * TimesAgain(mode, db, addrs, k)
    decreases k
  {
    if k > 0 {
      NamingsSum(mode, db, addrs, k - 1);
    }
  }

  lemma {:induction false} AgainIff(mode: SetMode, db: Indexes, addrs: seq<Address>, k: nat)
    requires k <= |addrs|
    ensures TimesAgain(mode, db, addrs, k) > 0 <==> exists j: nat :: j < k && NamedAgain(mode, db, addrs, j)
    decreases k
  {
    if k > 0 {
      AgainIff(mode, db, addrs, k - 1);
    }
  }

  lemma {:induction false} NamedBefore(mode: SetMode, db: Indexes, addrs: seq<Address>, k: nat, i: nat)
    requires i < k <= |addrs| && Counts(mode, db, addrs[i])
    ensures Namings(mode, db, addrs, k) > 0
    decreases k
  {
    if i < k - 1 {
      NamedBefore(mode, db, addrs, k - 1, i);
    }
  }

  /** The first naming of a chunk is no repetition. */
  lemma {:induction false} FewerAgain(mode: SetMode, db: Indexes, addrs: seq<Address>, k: nat)
    requires k <= |addrs|
    ensures Namings(mode, db, addrs, k) > 0 ==> TimesAgain(mode, db, addrs, k) < Namings(mode, db, addrs, k)
    ensures TimesAgain(mode, db, addrs, k) <= Namings(mode, db, addrs, k)
    decreases k
  {
    if k > 0 {
      FewerAgain(mode, db, addrs, k - 1);
      if NamedAgain(mode, db, addrs, k - 1) {
        NamedBefore(mode, db, addrs, k - 1, Latest(addrs, k - 1, addrs[k - 1]));
      }
    }
  }

  /** A list of addresses names a chunk that moves the counter more than once. */
  ghost predicate Repeats(mode: SetMode, db: Indexes, addrs: seq<Address>) {
    exists j: nat :: j < |addrs| && NamedAgain(mode, db, addrs, j)
  }

  /**
   When a set that commits moves the counter against the gc index. It falls behind exactly if it
   pins, removes or syncs, names a cached chunk more than once, and the counter can bear all its
   namings. It gets ahead exactly if the counter cannot bear them, for the guard then drops the
   whole change, or if it unpins and names a chunk on its last pin more than once.
   */
  lemma SetFallsBehindIff(c: Config, mode: SetMode, db: Indexes, addrs: seq<Address>, now: nat -> int)
    requires Good(db) && SetCommits(c, mode, db, addrs, now)
    ensures
      var after := SetCall(c, mode, db, addrs, now);
      var namings, again := Namings(mode, db, addrs, |addrs|), TimesAgain(mode, db, addrs, |addrs|);
      && Excess(after) == Excess(db) + (if mode.ModeUnpin? then again
                                        else if namings <= db.gcSize then 0 - again
                                        else namings - again)
      && (Excess(after) < Excess(db) <==> !mode.ModeUnpin? && namings <= db.gcSize && Repeats(mode, db, addrs))
      && (Excess(after) > Excess(db) <==> if mode.ModeUnpin? then Repeats(mode, db, addrs) else namings > db.gcSize)
  {
    SetCallKeeps(c, mode, db, addrs, now);
    NamingsSum(mode, db, addrs, |addrs|);
    AgainIff(mode, db, addrs, |addrs|);
    FewerAgain(mode, db, addrs, |addrs|);
  }

  // ----- stamp slots -----

  lemma StoredSlots(c: Config, kind: PutKind, db: Indexes, batch: Indexes, ch: Chunk, t: Times)
    ensures PutNew(c, kind, db, batch, ch, t).batch.side.slots == batch.side.slots[ch.slot := Occupant(ch.addr, ch.stampTs)]
  {
    match kind {
      case Request(pin, cache) =>
        PreserveSide(c, db, Accessed(c, batch, ch, t, !cache), NewItem(c, batch, ch, t), pin, cache);
      case Upload(_) =>
      case Sync => PreserveSide(c, db, Accessed(c, batch, ch, t, true), NewItem(c, batch, ch, t), false, false);
    }
  }

  lemma RemovedSlots(c: Config, db: Indexes, batch: Indexes, a: Address)
    requires a in db.data
    ensures SetRemove(c, db, batch, a).batch.side.slots == batch.side.slots - {db.data[a].slot}
  {
  }

  lemma PutOverSlots(c: Config, kind: PutKind, db: Indexes, batch: Indexes, ch: Chunk, t: Times, prev: Address)
    requires AddrOk(db, ch.addr) && ch.addr !in db.data && SlotOf(db, ch) == Replace(prev) && prev in db.data
    ensures PutOp(c, kind, db, batch, ch, t).batch.side.slots ==
      (batch.side.slots - {db.data[prev].slot})[ch.slot := Occupant(ch.addr, ch.stampTs)]
  {
    PutOverShape(c, kind, db, batch, ch, t, prev);
    RemovedSlots(c, db, batch, prev);
    StoredSlots(c, kind, db, SetRemove(c, db, batch, prev).batch, ch, t);
  }

  /**
   Where two new chunks of a call take over slots of one owner, the second removal deletes the slot
   entry that the first of them has just written: its slot is free again although the chunk is stored.
   */
  lemma SecondRemovalFreesSlot(c: Config, kind: PutKind, db: Indexes, x: Chunk, y: Chunk, t: Times, u: Times, prev: Address)
    requires Partition(db) && x.addr !in db.data && y.addr !in db.data && prev in db.data
    requires SlotOf(db, x) == Replace(prev) && SlotOf(db, y) == Replace(prev)
    requires x.slot == db.data[prev].slot && y.slot != x.slot
    ensures
      var first := PutOp(c, kind, db, db, x, t).batch;
      var second := PutOp(c, kind, db, first, y, u).batch;
      && x.slot in first.side.slots && first.side.slots[x.slot].addr == x.addr
      && x.slot !in second.side.slots
  {
    assert AddrOk(db, x.addr) && AddrOk(db, y.addr);
    PutOverSlots(c, kind, db, db, x, t, prev);
    PutOverSlots(c, kind, db, PutOp(c, kind, db, db, x, t).batch, y, u, prev);
  }

  /** A slot whose owner is no longer stored refuses every put with a later stamp, and lets earlier ones pass. */
  lemma StaleSlotBlocks(c: Config, kind: PutKind, db: Indexes, ch: Chunk, now: nat -> Times)
    requires Partition(db) && ch.addr !in db.data && !ch.immutable
    requires ch.slot in db.side.slots && db.side.slots[ch.slot].addr !in db.data
    ensures Commits(c, kind, db, [ch], now) <==> ch.stampTs <= db.side.slots[ch.slot].stampTs
  {
    PutCallCommitsIff(c, kind, db, [ch], now);
    assert [ch][0] == ch && First([ch], 0);
  }
}
