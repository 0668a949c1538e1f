/** The indexes of the local store (pkg/localstore) and the partition they keep. */
module StoreIndexes {
  /** 32-byte strings, read as big-endian numbers: equality and byte order are those of the numbers. */
  type Address = nat
  type BatchID = nat

  /** The within-batch index of a postage stamp; 0 stands for the eight zero bytes of an empty Index field. */
  type StampIndex = nat

  datatype Slot = Slot(batch: BatchID, index: StampIndex)

  /** retrievalDataIndex: Address -> StoreTimestamp|BinID|BatchID|BatchIndex|Timestamp */
  datatype DataEntry = DataEntry(storeTs: int, binID: nat, slot: Slot, stampTs: nat)

  /** gcIndex: AccessTimestamp|BinID|Hash -> BatchID|BatchIndex */
  datatype GcKey = GcKey(accessTs: int, binID: nat, addr: Address)

  /** pushIndex: StoreTimestamp|Hash */
  datatype PushKey = PushKey(storeTs: int, addr: Address)

  /** pullIndex: PO|BinID -> Hash */
  datatype PullKey = PullKey(po: nat, binID: nat)

  /** postageChunksIndex: BatchID|PO|Hash */
  datatype ChunkKey = ChunkKey(batch: BatchID, po: nat, addr: Address)

  /** postageIndexIndex: BatchID|BatchIndex -> Hash|Timestamp */
  datatype Occupant = Occupant(addr: Address, stampTs: nat)

  /** The indexes that take no part in the partition: pull order, postage bookkeeping and the bin id counters. */
  datatype Side = Side(
    pull: map<PullKey, Address>,
    chunks: set<ChunkKey>,
    slots: map<Slot, Occupant>,
    radius: map<BatchID, nat>,
    binIDs: map<nat, nat>)

  datatype Indexes = Indexes(
    data: map<Address, DataEntry>,
    access: map<Address, int>,
    push: set<PushKey>,
    gc: map<GcKey, Slot>,
    pin: map<Address, nat>,
    side: Side,
    gcSize: nat)
  {
    // PutInBatch and DeleteInBatch of the single indexes.

    function PutData(a: Address, e: DataEntry): Indexes { this.(data := data[a := e]) }

    function DropData(a: Address): Indexes { this.(data := data - {a}) }

    function PutAccess(a: Address, ts: int): Indexes { this.(access := access[a := ts]) }

    function DropAccess(a: Address): Indexes { this.(access := access - {a}) }

    function PutPush(k: PushKey): Indexes { this.(push := push + {k}) }

    function DropPush(k: PushKey): Indexes { this.(push := push - {k}) }

    function PutPull(k: PullKey, a: Address): Indexes { this.(side := side.(pull := side.pull[k := a])) }

    function DropPull(k: PullKey): Indexes { this.(side := side.(pull := side.pull - {k})) }

    function PutGc(k: GcKey, slot: Slot): Indexes { this.(gc := gc[k := slot]) }

    function DropGc(k: GcKey): Indexes { this.(gc := gc - {k}) }

    function PutPin(a: Address, count: nat): Indexes { this.(pin := pin[a := count]) }

    function DropPin(a: Address): Indexes { this.(pin := pin - {a}) }

    function PutStamp(po: nat, a: Address, slot: Slot, ts: nat): Indexes {
      this.(side := side.(chunks := side.chunks + {ChunkKey(slot.batch, po, a)}, slots := side.slots[slot := Occupant(a, ts)]))
    }

    function DropStamp(po: nat, a: Address, slot: Slot): Indexes {
      this.(side := side.(chunks := side.chunks - {ChunkKey(slot.batch, po, a)}, slots := side.slots - {slot}))
    }

    function PutBinID(po: nat, id: nat): Indexes { this.(side := side.(binIDs := side.binIDs[po := id])) }
  }

  const EMPTY: Indexes := Indexes(map[], map[], {}, map[], map[], Side(map[], {}, map[], map[], map[]), 0)

  // ----- the partition, address by address -----

  /** A chunk is either waiting for push sync, or pinned, or in the gc index; never two of them at odds. */
  ghost predicate AddrOk(ix: Indexes, a: Address) {
    && (a in ix.access ==> a in ix.data)
    && (a in ix.access && a !in ix.pin ==> GcKey(ix.access[a], ix.data[a].binID, a) in ix.gc)
    && (forall k {:trigger k in ix.gc} :: k in ix.gc && k.addr == a ==>
          a in ix.access && ix.access[a] == k.accessTs && ix.data[a].binID == k.binID && a !in ix.pin)
    && (forall k {:trigger k in ix.push} :: k in ix.push && k.addr == a ==>
          a in ix.data && ix.data[a].storeTs == k.storeTs && a !in ix.access)
  }

  ghost predicate Partition(ix: Indexes) {
    forall a :: AddrOk(ix, a)
  }

  /** Pins are counted from one, and a stored chunk has been accessed or awaits push sync. */
  predicate ChunkOk(ix: Indexes, a: Address) {
    && (a in ix.pin ==> ix.pin[a] > 0)
    && (a in ix.data ==> a in ix.access || PushKey(ix.data[a].storeTs, a) in ix.push)
  }

  ghost predicate ChunksOk(ix: Indexes) {
    forall a :: ChunkOk(ix, a)
  }

  /** No index says anything about the address. */
  ghost predicate Gone(ix: Indexes, a: Address) {
    && a !in ix.data && a !in ix.access && a !in ix.pin
    && (forall k: GcKey {:trigger k in ix.gc} :: k in ix.gc ==> k.addr != a)
    && (forall k: PushKey {:trigger k in ix.push} :: k in ix.push ==> k.addr != a)
  }

  /** Both index states say the same about one address. */
  ghost predicate SameAt(x: Indexes, y: Indexes, a: Address) {
    && (a in x.data <==> a in y.data) && (a in x.data ==> x.data[a] == y.data[a])
    && (a in x.access <==> a in y.access) && (a in x.access ==> x.access[a] == y.access[a])
    && (a in x.pin <==> a in y.pin) && (a in x.pin ==> x.pin[a] == y.pin[a])
    && (forall k: GcKey {:trigger k in x.gc} {:trigger k in y.gc} :: k.addr == a ==> (k in x.gc <==> k in y.gc))
    && (forall k: PushKey {:trigger k in x.push} {:trigger k in y.push} :: k.addr == a ==> (k in x.push <==> k in y.push))
  }

  ghost predicate OnlyAt(x: Indexes, y: Indexes, touched: set<Address>) {
    forall a :: a !in touched ==> SameAt(x, y, a)
  }

  lemma SameAtOk(x: Indexes, y: Indexes, a: Address)
    requires SameAt(x, y, a) && AddrOk(x, a)
    ensures AddrOk(y, a)
  {
  }

  lemma SameAtGone(x: Indexes, y: Indexes, a: Address)
    requires SameAt(x, y, a) && Gone(x, a)
    ensures Gone(y, a)
  {
  }

  lemma SameAtTrans(x: Indexes, y: Indexes, z: Indexes, a: Address)
    requires SameAt(x, y, a) && SameAt(y, z, a)
    ensures SameAt(x, z, a)
  {
  }

  lemma SameAtAll(x: Indexes)
    ensures OnlyAt(x, x, {})
  {
  }

  lemma OnlyAtTrans(x: Indexes, y: Indexes, z: Indexes, s: set<Address>, t: set<Address>)
    requires OnlyAt(x, y, s) && OnlyAt(y, z, t)
    ensures OnlyAt(x, z, s + t)
  {
    forall a | a !in s + t ensures SameAt(x, z, a) {
      assert SameAt(x, y, a) && SameAt(y, z, a);
      SameAtTrans(x, y, z, a);
    }
  }

  lemma RemovedSize<K, V>(m: map<K, V>, k: K)
    ensures k in m ==> |m - {k}| == |m| - 1
    ensures k !in m ==> m - {k} == m
  {
    assert (m - {k}).Keys == m.Keys - {k};
    assert |m| == |m.Keys|;
    assert |m - {k}| == |(m - {k}).Keys|;
  }

  lemma AddedSize<K, V>(m: map<K, V>, k: K, v: V)
    ensures k !in m ==> |m[k := v]| == |m| + 1
    ensures k in m ==> |m[k := v]| == |m|
  {
    assert m[k := v].Keys == m.Keys + {k};
    assert |m| == |m.Keys|;
    assert |m[k := v]| == |m[k := v].Keys|;
  }

  lemma EmptyPartition()
    ensures Partition(EMPTY) && |EMPTY.gc| == EMPTY.gcSize
  {
  }
}
