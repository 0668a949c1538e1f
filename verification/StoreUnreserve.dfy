/** What unreserving a batch does in all, bin by bin and round by round (reserve.go). */
module StoreUnreserve {
  import opened Wrappers

  import opened StoreIndexes
  import opened StoreOps
  import opened StoreCalls
  import opened StoreReserve
  import opened StoreStatus
  import opened StoreRuns
  import opened StoreGrowth

  // ----- the rounds over one bin -----

  /** Each address of the list has taken one step of losing a pin, and no other chunk has changed. */
  ghost predicate EachUnpinned(x: Indexes, y: Indexes, addrs: seq<Address>, now: nat -> int) {
    && (forall i: nat {:trigger addrs[i]} :: i < |addrs| ==> StatusOf(y, addrs[i]) == Unpinned(StatusOf(x, addrs[i]), now(i)))
    && (forall a :: a !in addrs ==> StatusOf(y, a) == StatusOf(x, a))
  }

  lemma {:induction false} LatestOnly(addrs: seq<Address>, k: nat, i: nat)
    requires Distinct(addrs) && i < k <= |addrs|
    ensures Latest(addrs, k, addrs[i]) == i
  {
    if i < k - 1 {
      LatestOnly(addrs, k - 1, i);
    }
  }

  lemma {:induction false} LatestNever(addrs: seq<Address>, k: nat, a: Address)
    requires k <= |addrs| && a !in addrs
    ensures Latest(addrs, k, a) == -1
  {
    if k > 0 {
      LatestNever(addrs, k - 1, a);
    }
  }

  lemma UnpinRoundEach(c: Config, db: Indexes, addrs: seq<Address>, now: nat -> int)
    requires Good(db) && Distinct(addrs)
    ensures EachUnpinned(db, UnpinRound(db, addrs, now), addrs, now)
  {
    UnpinRoundRefines(c, db, addrs, now);
    var after := UnpinRound(db, addrs, now);
    forall i: nat {:trigger addrs[i]} | i < |addrs|
      ensures StatusOf(after, addrs[i]) == Unpinned(StatusOf(db, addrs[i]), now(i))
    {
      LatestOnly(addrs, |addrs|, i);
      assert StatusOf(after, addrs[i]) == SetStatus(ModeUnpin, db, addrs, now, addrs[i]);
    }
    forall a | a !in addrs ensures StatusOf(after, a) == StatusOf(db, a) {
      LatestNever(addrs, |addrs|, a);
    }
  }

  lemma EachThenRest(x: Indexes, y: Indexes, z: Indexes, addrs: seq<Address>, n: nat, now: nat -> int, later: nat -> int)
    requires Distinct(addrs) && n <= |addrs| && forall k: nat {:trigger later(k)} :: later(k) == now(n + k)
    requires EachUnpinned(x, y, addrs[..n], now) && EachUnpinned(y, z, addrs[n..], later)
    ensures EachUnpinned(x, z, addrs, now)
  {
    forall i: nat {:trigger addrs[i]} | i < |addrs|
      ensures StatusOf(z, addrs[i]) == Unpinned(StatusOf(x, addrs[i]), now(i))
    {
      if i < n {
        assert addrs[..n][i] == addrs[i] && addrs[i] !in addrs[n..];
      } else {
        assert addrs[n..][i - n] == addrs[i] && addrs[i] !in addrs[..n];
        assert later(i - n) == now(n + (i - n));
      }
    }
    forall a | a !in addrs ensures StatusOf(z, a) == StatusOf(x, a) {
      assert a !in addrs[..n] && a !in addrs[n..];
    }
  }

  lemma {:induction false} UnpinAllEach(c: Config, db: Indexes, addrs: seq<Address>, now: nat -> int)
    requires Good(db) && Distinct(addrs)
    ensures EachUnpinned(db, UnpinAll(db, addrs, now), addrs, now)
    decreases |addrs|
  {
    var n := UNPIN_BATCH_SIZE + 1;
    if |addrs| <= n {
      UnpinRoundEach(c, db, addrs, now);
    } else {
      var mid := UnpinRound(db, addrs[..n], now);
      UnpinRoundEach(c, db, addrs[..n], now);
      UnpinRoundKeeps(c, db, addrs[..n], now);
      UnpinAllEach(c, mid, addrs[n..], Later(now));
      EachThenRest(db, mid, UnpinAll(db, addrs, now), addrs, n, now, Later(now));
    }
  }

  // ----- the indexes aside -----

  lemma UnpinRoundSide(db: Indexes, addrs: seq<Address>, now: nat -> int)
    ensures UnpinRound(db, addrs, now).side == db.side
  {
    var step := UnpinSteps(db, addrs, now);
    var inv := (p: Effect, j: nat) => p.batch.side == db.side;
    assert inv(Effect(db, 0, None), 0);
    forall p: Effect, j: nat | j < |addrs| && inv(p, j) ensures inv(Next(step, p, j), j + 1) {
      SetUnpinShrinks(db, p.batch, addrs[j], now(j));
    }
    FoldKeeps(step, inv, Effect(db, 0, None), |addrs|, 0);
    FoldNoError(step, Effect(db, 0, None), |addrs|, 0);
  }

  lemma {:induction false} UnpinAllSide(db: Indexes, addrs: seq<Address>, now: nat -> int)
    ensures UnpinAll(db, addrs, now).side == db.side
    decreases |addrs|
  {
    if |addrs| <= UNPIN_BATCH_SIZE + 1 {
      UnpinRoundSide(db, addrs, now);
    } else {
      UnpinRoundSide(db, addrs[..UNPIN_BATCH_SIZE + 1], now);
      UnpinAllSide(UnpinRound(db, addrs[..UNPIN_BATCH_SIZE + 1], now), addrs[UNPIN_BATCH_SIZE + 1..], Later(now));
    }
  }

  // ----- all bins -----

  /** A chunk is listed under its own proximity order only. */
  ghost predicate Filed(c: Config, ix: Indexes) {
    forall k {:trigger k in ix.side.chunks} :: k in ix.side.chunks ==> k.po == c.po(k.addr)
  }

  /** The chunk is listed in one of the bins. */
  predicate Listed(order: nat -> seq<Address>, bin: nat, radius: nat, a: Address) {
    exists b: nat :: bin <= b < radius && a in order(b)
  }

  /** Each bin lists no chunk twice, and no two bins list the same. */
  ghost predicate Apart(order: nat -> seq<Address>, bin: nat, radius: nat) {
    && (forall b: nat {:trigger order(b)} :: bin <= b < radius ==> Distinct(order(b)))
    && (forall b: nat, d: nat, a {:trigger a in order(b), a in order(d)} ::
          bin <= b < radius && bin <= d < radius && a in order(b) && a in order(d) ==> b == d)
  }

  /** Every chunk of the bins from `bin` up to the radius has lost one pin, and no other chunk has changed. */
  ghost predicate BinsUnpinned(x: Indexes, y: Indexes, bin: nat, radius: nat, order: nat -> seq<Address>, now: nat -> nat -> int) {
    && (forall b: nat, i: nat {:trigger order(b)[i]} :: bin <= b < radius && i < |order(b)| ==>
          StatusOf(y, order(b)[i]) == Unpinned(StatusOf(x, order(b)[i]), now(b)(i)))
    && (forall a :: !Listed(order, bin, radius, a) ==> StatusOf(y, a) == StatusOf(x, a))
  }

  /** The radius noted for a batch in the end: none after bin 31, which is the last one. */
  function NotedRadius(left: Option<nat>, bin: nat, radius: nat): Option<nat> {
    if radius != 32 then Some(radius) else if bin < 32 then None else left
  }

  function RadiusOf(ix: Indexes, id: BatchID): Option<nat> {
    if id in ix.side.radius then Some(ix.side.radius[id]) else None
  }

  /** Nothing beside the partition changes but the radius of the batch. */
  ghost predicate OnlyRadius(x: Indexes, y: Indexes, id: BatchID) {
    && y.side == x.side.(radius := y.side.radius)
    && forall other :: other != id ==> RadiusOf(y, other) == RadiusOf(x, other)
  }

  lemma SideStatus(x: Indexes, y: Indexes, a: Address)
    requires y == x.(side := y.side)
    ensures StatusOf(y, a) == StatusOf(x, a)
  {
  }

  lemma UnreserveBinEach(c: Config, db: Indexes, id: BatchID, bin: nat, addrs: seq<Address>, now: nat -> int)
    requires Good(db) && Distinct(addrs)
    ensures
      var noted := UnreserveBin(db, id, bin, addrs, now);
      && EachUnpinned(db, noted, addrs, now) && OnlyRadius(db, noted, id)
      && RadiusOf(noted, id) == if bin == 31 then None else Some(bin)
  {
    var unpinned := UnpinAll(db, addrs, now);
    var noted := UnreserveBin(db, id, bin, addrs, now);
    UnpinAllEach(c, db, addrs, now);
    UnpinAllSide(db, addrs, now);
    forall a ensures StatusOf(noted, a) == StatusOf(unpinned, a) {
      SideStatus(unpinned, noted, a);
    }
  }

  lemma ListedLater(order: nat -> seq<Address>, bin: nat, radius: nat, a: Address)
    ensures Listed(order, bin + 1, radius, a) ==> Listed(order, bin, radius, a)
  {
  }

  lemma BinThenBins(x: Indexes, y: Indexes, z: Indexes, bin: nat, radius: nat, order: nat -> seq<Address>, now: nat -> nat -> int)
    requires bin < radius && Apart(order, bin, radius)
    requires EachUnpinned(x, y, order(bin), now(bin)) && BinsUnpinned(y, z, bin + 1, radius, order, now)
    ensures BinsUnpinned(x, z, bin, radius, order, now)
  {
    forall b: nat, i: nat {:trigger order(b)[i]} | bin <= b < radius && i < |order(b)|
      ensures StatusOf(z, order(b)[i]) == Unpinned(StatusOf(x, order(b)[i]), now(b)(i))
    {
      var a := order(b)[i];
      assert a in order(b);
      if b == bin {
        assert !Listed(order, bin + 1, radius, a);
      } else {
        assert a !in order(bin);
      }
    }
    forall a | !Listed(order, bin, radius, a) ensures StatusOf(z, a) == StatusOf(x, a) {
      assert a !in order(bin);
      ListedLater(order, bin, radius, a);
    }
  }

  lemma OnlyRadiusTrans(x: Indexes, y: Indexes, z: Indexes, id: BatchID)
    requires OnlyRadius(x, y, id) && OnlyRadius(y, z, id)
    ensures OnlyRadius(x, z, id)
  {
    forall other | other != id ensures RadiusOf(z, other) == RadiusOf(x, other) {
      assert RadiusOf(y, other) == RadiusOf(x, other);
    }
  }

  lemma NoMoreBins(db: Indexes, id: BatchID, bin: nat, radius: nat, order: nat -> seq<Address>, now: nat -> nat -> int)
    requires bin >= radius
    ensures
      var after := UnreserveFrom(db, id, bin, radius, order, now);
      && BinsUnpinned(db, after, bin, radius, order, now) && OnlyRadius(db, after, id)
      && RadiusOf(after, id) == NotedRadius(RadiusOf(db, id), bin, radius)
  {
    var after := UnreserveFrom(db, id, bin, radius, order, now);
    forall a ensures StatusOf(after, a) == StatusOf(db, a) {
      SideStatus(db, after, a);
    }
  }

  lemma NotedNext(left: Option<nat>, bin: nat, radius: nat)
    requires bin < radius
    ensures NotedRadius(if bin == 31 then None else Some(bin), bin + 1, radius) == NotedRadius(left, bin, radius)
  {
  }

  lemma {:induction false} UnreserveEach(c: Config, db: Indexes, id: BatchID, bin: nat, radius: nat,
                                         order: nat -> seq<Address>, now: nat -> nat -> int)
    requires Good(db) && Apart(order, bin, radius)
    ensures
      var after := UnreserveFrom(db, id, bin, radius, order, now);
      && BinsUnpinned(db, after, bin, radius, order, now) && OnlyRadius(db, after, id)
      && RadiusOf(after, id) == NotedRadius(RadiusOf(db, id), bin, radius)
    decreases radius - bin
  {
    if bin >= radius {
      NoMoreBins(db, id, bin, radius, order, now);
    } else {
      var noted := UnreserveBin(db, id, bin, order(bin), now(bin));
      var after := UnreserveFrom(noted, id, bin + 1, radius, order, now);
      assert Distinct(order(bin));
      UnreserveBinEach(c, db, id, bin, order(bin), now(bin));
      UnreserveBinKeeps(c, db, id, bin, order(bin), now(bin));
      UnreserveEach(c, noted, id, bin + 1, radius, order, now);
      BinThenBins(db, noted, after, bin, radius, order, now);
      OnlyRadiusTrans(db, noted, after, id);
      NotedNext(RadiusOf(db, id), bin, radius);
    }
  }

  /** The lists an iteration of the postage index yields, for each of the bins. */
  ghost predicate BinOrders(ix: Indexes, id: BatchID, bin: nat, radius: nat, order: nat -> seq<Address>) {
    forall b: nat {:trigger order(b)} :: bin <= b < radius ==> BinOrder(ix, id, b, order(b))
  }

  lemma BinsApart(c: Config, ix: Indexes, id: BatchID, bin: nat, radius: nat, order: nat -> seq<Address>)
    requires Filed(c, ix) && BinOrders(ix, id, bin, radius, order)
    ensures Apart(order, bin, radius)
  {
    forall b: nat {:trigger order(b)} | bin <= b < radius ensures Distinct(order(b)) {
      assert BinOrder(ix, id, b, order(b));
    }
    forall b: nat, a {:trigger a in order(b)} | bin <= b < radius && a in order(b) ensures b == c.po(a) {
      assert ChunkKey(id, b, a) in ix.side.chunks;
    }
  }

  lemma ListedIff(c: Config, ix: Indexes, id: BatchID, bin: nat, radius: nat, order: nat -> seq<Address>, a: Address)
    requires Filed(c, ix) && BinOrders(ix, id, bin, radius, order)
    ensures Listed(order, bin, radius, a) <==> bin <= c.po(a) < radius && ChunkKey(id, c.po(a), a) in ix.side.chunks
  {
    if Listed(order, bin, radius, a) {
      var b: nat :| bin <= b < radius && a in order(b);
      assert ChunkKey(id, b, a) in ix.side.chunks;
    }
    if bin <= c.po(a) < radius && ChunkKey(id, c.po(a), a) in ix.side.chunks {
      assert BinOrder(ix, id, c.po(a), order(c.po(a)));
    }
  }

  /**
   Unreserving a batch takes one pin off each of its chunks whose bin lies below the new radius and
   not below the old one, whatever the number of bins, rounds and commits; the last pin of a synced
   chunk moves it to the cache. No other chunk changes, and beside the radius noted for the batch
   neither does anything else.
   */
  lemma UnreserveRefines(c: Config, db: Indexes, id: BatchID, radius: nat, order: nat -> seq<Address>, now: nat -> nat -> int)
    requires Good(db) && Filed(c, db) && BinOrders(db, id, OldRadius(db, id), radius, order)
    ensures
      var after := UnreserveBatch(db, id, radius, order, now);
      var bin := OldRadius(db, id);
      && BinsUnpinned(db, after, bin, radius, order, now)
      && (forall a :: Listed(order, bin, radius, a) <==> bin <= c.po(a) < radius && ChunkKey(id, c.po(a), a) in db.side.chunks)
      && OnlyRadius(db, after, id) && RadiusOf(after, id) == NotedRadius(RadiusOf(db, id), bin, radius)
  {
    var bin := OldRadius(db, id);
    BinsApart(c, db, id, bin, radius, order);
    UnreserveEach(c, db, id, bin, radius, order, now);
    forall a ensures Listed(order, bin, radius, a) <==> bin <= c.po(a) < radius && ChunkKey(id, c.po(a), a) in db.side.chunks {
      ListedIff(c, db, id, bin, radius, order, a);
    }
  }
}
