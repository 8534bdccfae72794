/**
 When garbage collection is safe. As long as no collection is bound ahead of what is handled, it never
 takes a row that a surviving index row needs. Which steps keep it so, exactly, and which runs.
 */
module LightCollection {
  import opened Results
  import opened Bytes
  import opened Cells
  import opened Blocks
  import opened StorageKeys
  import opened ProofStorage
  import opened World
  import opened TableRows
  import opened LightNode

  // --- What holds as long as no collection is bound ahead

  /** No collection is bound ahead of what is handled. */
  ghost predicate NotAhead(n: Node) {
    forall j: nat | j < |n.live.collections| :: n.live.collections[j] <= n.handled
  }

  /** No block was stored after a collection bound at or after its masterchain block. */
  ghost predicate StoredInOrder(w: World, h: History) {
    forall id, j: nat | id in h.since && id in w.blocks && j < h.since[id] && j < |h.collections| ::
      h.collections[j] < w.blocks[id].refBy
  }

  /** The timings are all after the collections. */
  ghost predicate TimingsAfter(h: History, t: Tables)
    requires WellFormed(t)
  {
    forall key, j: nat | key in t.timings && j < |h.collections| :: h.collections[j] < McSeqno(t.timings[key])
  }

  /** What holds in the reachable states in which, moreover, nothing is ever stranded. */
  ghost predicate Inv(w: World, n: Node) {
    Recorded(w, n) && NotAhead(n) && StoredInOrder(w, n.live) && TimingsAfter(n.live, n.db)
  }

  /** A collection takes only rows that belong to its masterchain block or to an earlier one. */
  lemma TakenIsCovered(w: World, m: nat, id: BlockIdShort)
    requires TopsCover(w) && id in w.blocks && LinkOk(w, id) && Takes(w, m, id)
    ensures w.blocks[id].refBy <= m
  {
    var b :| b in w.blocks[McId(m)].bounds.shardIds + [McId(m)] && IsAbove(b, id);
    if b in w.blocks[McId(m)].bounds.shardIds {
      assert McId(m) in w.blocks;
    }
  }

  /** All collections are bound before the masterchain block. */
  ghost predicate AllBefore(h: History, m: nat) {
    forall j: nat | j < |h.collections| :: h.collections[j] < m
  }

  /** What is stored of a masterchain block after all collections is there. */
  lemma StoredIsThere(w: World, h: History, id: BlockIdShort)
    requires TopsCover(w) && id in w.blocks && LinkOk(w, id) && AllBefore(h, w.blocks[id].refBy)
    ensures Has(w, h, id) <==> id in h.since
  {
    if id in h.since {
      forall j: nat | h.since[id] <= j < |h.collections| ensures !Takes(w, h.collections[j], id) {
        if Takes(w, h.collections[j], id) {
          TakenIsCovered(w, h.collections[j], id);
        }
      }
    }
  }

  lemma EndsGrow(w: World, m: nat, k: nat)
    requires TimesGrow(w) && McId(m) in w.blocks && McId(k) in w.blocks && m <= k
    ensures w.blocks[McId(m)].bounds.endLt <= w.blocks[McId(k)].bounds.endLt
  {
  }

  /** A transaction that survives belongs to a masterchain block after all collections. */
  lemma SurvivorIsAfter(w: World, h: History, workchain: int, tx: TxId, id: BlockIdShort)
    requires TimesGrow(w) && TxsInTime(w) && StoredInOrder(w, h) && Survives(w, h, workchain, tx, id) && LinkOk(w, id)
    requires forall j: nat | j < |h.collections| :: McId(h.collections[j]) in w.blocks
    ensures AllBefore(h, w.blocks[id].refBy)
  {
    var refBy := w.blocks[id].refBy;
    assert McOf(w, id) in w.blocks && tx.lt <= w.blocks[McOf(w, id)].bounds.endLt;
    forall j: nat | j < |h.collections| ensures h.collections[j] < refBy {
      var m := h.collections[j];
      if j >= h.since[id] {
        assert !Reaches(w, m, tx.lt);
        if refBy <= m {
          EndsGrow(w, refBy, m);
        }
      }
    }
  }

  /** Garbage collection strands nothing: a surviving index row of the live tables still has its pruned
      block, and its signatures, masterchain pivot and shard pivots as far as these were ever stored. */
  lemma CollectionStrandsNothing(w: World, n: Node, workchain: int, tx: TxId) returns (id: BlockIdShort)
    requires OrderedWorld(w) && Inv(w, n)
    requires IsI8(workchain) && InTxBounds(tx) && TxKey(workchain, tx) in n.db.transactions
    ensures Survives(w, n.live, workchain, tx, id) && LinkOk(w, id) && Keyable(id)
    ensures AllBefore(n.live, w.blocks[id].refBy)
    ensures n.db.transactions[TxKey(workchain, tx)] == TxValue(id.shard, id.seqno, w.blocks[id].refBy)
    ensures KeyOf(id) in n.db.prunedBlocks && IsPrunedRow(w.blocks[id].block, n.db.prunedBlocks[KeyOf(id)])
    ensures McOf(w, id) in n.live.since ==>
              && U32Key(w.blocks[id].refBy) in n.db.signatures
              && BlockKey(MASTERCHAIN, w.blocks[id].refBy) in n.db.pivotBlocks
    ensures forall b | b in n.live.since && b in w.blocks && Keyable(b) && w.blocks[b].refBy == w.blocks[id].refBy ::
              KeyOf(b) in n.db.pivotBlocks
  {
    id := IndexRowTells(w, n.live, n.db, workchain, tx);
    RowIsAfter(w, n, workchain, tx, id);
    RowsAreThere(w, n.live, n.db, id);
  }

  lemma RowIsAfter(w: World, n: Node, workchain: int, tx: TxId, id: BlockIdShort)
    requires TimesGrow(w) && TxsInTime(w) && Inv(w, n) && Survives(w, n.live, workchain, tx, id) && LinkOk(w, id)
    ensures AllBefore(n.live, w.blocks[id].refBy)
  {
    forall j: nat | j < |n.live.collections| ensures McId(n.live.collections[j]) in w.blocks {
      assert IsOld(w, n.live.collections[j], n.clock);
    }
    SurvivorIsAfter(w, n.live, workchain, tx, id);
  }

  /** Nothing of a masterchain block after all collections is missing. */
  lemma RowsAreThere(w: World, h: History, t: Tables, id: BlockIdShort)
    requires LinksOk(w) && TopsCover(w) && ExactRows(w, h, t) && RightSignatures(w, h, t)
    requires id in w.blocks && id in h.since && Keyable(id) && AllBefore(h, w.blocks[id].refBy)
    ensures LinkOk(w, id)
    ensures KeyOf(id) in t.prunedBlocks && IsPrunedRow(w.blocks[id].block, t.prunedBlocks[KeyOf(id)])
    ensures McOf(w, id) in h.since ==>
              U32Key(w.blocks[id].refBy) in t.signatures && BlockKey(MASTERCHAIN, w.blocks[id].refBy) in t.pivotBlocks
    ensures forall b | b in h.since && b in w.blocks && Keyable(b) && w.blocks[b].refBy == w.blocks[id].refBy ::
              KeyOf(b) in t.pivotBlocks
  {
    assert LinkOk(w, id);
    assert LinkOk(w, McOf(w, id)) && KeyOf(McOf(w, id)) == BlockKey(MASTERCHAIN, w.blocks[id].refBy);
    RowIsThere(w, h, t, id);
    forall b | b in h.since && b in w.blocks && Keyable(b) && w.blocks[b].refBy == w.blocks[id].refBy
      ensures KeyOf(b) in t.pivotBlocks
    {
      RowIsThere(w, h, t, b);
    }
  }

  lemma RowIsThere(w: World, h: History, t: Tables, id: BlockIdShort)
    requires LinksOk(w) && TopsCover(w) && ExactRows(w, h, t)
    requires id in w.blocks && id in h.since && Keyable(id) && AllBefore(h, w.blocks[id].refBy)
    ensures KeyOf(id) in t.prunedBlocks && IsPrunedRow(w.blocks[id].block, t.prunedBlocks[KeyOf(id)])
    ensures KeyOf(id) in t.pivotBlocks && IsPivotRow(w.blocks[id].block, t.pivotBlocks[KeyOf(id)])
  {
    assert LinkOk(w, id) && RowsOk(w, h, t, id);
    StoredIsThere(w, h, id);
  }

  // --- When a batch is bound ahead

  /** The timing is old enough, and tells a masterchain block that is not handled yet. */
  predicate IsAhead(t: Tables, removeUntil: nat, handled: nat, key: ByteString)
    requires WellFormed(t) && removeUntil < U32_SPAN
  {
    key in t.timings && !Below(U32Key(removeUntil), key) && McSeqno(t.timings[key]) > handled
  }

  ghost predicate TellsAhead(t: Tables, removeUntil: nat, handled: nat)
    requires WellFormed(t) && removeUntil < U32_SPAN
  {
    exists key :: IsAhead(t, removeUntil, handled, key)
  }

  /** The collection of the block's batch will be bound ahead of what is handled: the block looks for
      something to collect, and finds such a timing. */
  ghost predicate Ahead(w: World, n: Node, id: BlockIdShort, now: nat)
    requires id in w.blocks && WellFormed(n.db) && now < U32_SPAN
  {
    && TakesTiming(w.blocks[id].block) && !Skips(w.blocks[id].block, now, w.ttl)
    && TellsAhead(n.db, SaturatingSub(now, w.ttl), n.handled)
  }

  /** If any timing is old enough, one is the last. */
  lemma {:induction false} SomeTimingIsLast(keys: set<ByteString>, time: nat, key: ByteString)
    returns (last: ByteString)
    requires time < U32_SPAN && key in keys && !Below(U32Key(time), key)
    ensures last in keys && !Below(U32Key(time), last)
    ensures forall k | k in keys && !Below(U32Key(time), k) :: !Below(last, k)
    decreases keys
  {
    var rest := keys - {key};
    if other :| other in rest && !Below(U32Key(time), other) {
      last := SomeTimingIsLast(rest, time, other);
      if Below(last, key) {
        forall k | k in keys && !Below(U32Key(time), k) ensures !Below(key, k) {
          if k == key {
            BelowIsIrreflexive(key);
          } else if Below(key, k) {
            BelowIsTransitive(last, key, k);
          }
        }
        last := key;
      }
    } else {
      last := key;
      BelowIsIrreflexive(key);
    }
  }

  /** Of two timings, the later one tells the later masterchain block. */
  lemma LaterTimingTellsLater(w: World, h: History, t: Tables, key: ByteString, last: ByteString)
    requires LinksOk(w) && TimesGrow(w) && SoundTimings(w, h, t) && WellFormed(t)
    requires key in t.timings && last in t.timings && !Below(last, key)
    ensures McSeqno(t.timings[key]) <= McSeqno(t.timings[last])
  {
    var k := TimingTells(w, h, t, key);
    var m := TimingTells(w, h, t, last);
    SpanValues();
    var a, b := w.blocks[McId(k)].block.genUtime, w.blocks[McId(m)].block.genUtime;
    BigEndianOrder(b, a, 4);
    if a == b {
      assert key == last;
    }
  }

  /** In such states the masterchain block that a timing tells still has its pivot. */
  lemma TimingHasPivot(w: World, n: Node, key: ByteString) returns (m: nat)
    requires BlocksOk(w) && TopsCover(w) && Inv(w, n) && key in n.db.timings
    ensures IsTimingRow(w, n.live, key, n.db.timings[key], m) && McSeqno(n.db.timings[key]) == m && LinkOk(w, McId(m))
    ensures BlockKey(MASTERCHAIN, m) in n.db.pivotBlocks
  {
    m := TimingsPointAtPivots(w, n.live, n.db, key);
    assert LinkOk(w, McId(m));
    assert AllBefore(n.live, m);
    StoredIsThere(w, n.live, McId(m));
  }

  /** What a batch is bound by: the masterchain block of the last old enough timing. */
  lemma BoundTells(w: World, n: Node, removeUntil: nat, bound: OutdatedBound) returns (key: ByteString)
    requires BlocksOk(w) && Recorded(w, n) && removeUntil + 1 < U32_SPAN
    requires BoundsOk(bound) && IsOutdatedBound(n.db, removeUntil, Some(bound))
    ensures IsLastTiming(n.db.timings, removeUntil, key) && McSeqno(n.db.timings[key]) == BoundSeqno(bound)
    ensures IsBoundAt(w, bound, BoundSeqno(bound))
  {
    var m;
    key, m := BoundIsAtStoredBlock(w, n.live, n.db, removeUntil, bound);
    SeqnoOfBound(w, bound, m);
  }

  lemma SomeBoundIsAhead(w: World, n: Node, removeUntil: nat, bound: OutdatedBound)
    requires BlocksOk(w) && TimesGrow(w) && Recorded(w, n) && removeUntil + 1 < U32_SPAN
    requires BoundsOk(bound) && IsOutdatedBound(n.db, removeUntil, Some(bound))
    ensures TellsAhead(n.db, removeUntil, n.handled) <==> BoundSeqno(bound) > n.handled
  {
    var last := BoundTells(w, n, removeUntil, bound);
    if TellsAhead(n.db, removeUntil, n.handled) {
      var key :| IsAhead(n.db, removeUntil, n.handled, key);
      LaterTimingTellsLater(w, n.live, n.db, key, last);
    } else {
      assert !IsAhead(n.db, removeUntil, n.handled, last);
    }
  }

  /** Each collection is bound after all earlier ones. */
  lemma BoundAdvances(w: World, n: Node, removeUntil: nat, bound: OutdatedBound)
    requires BlocksOk(w) && Inv(w, n) && removeUntil + 1 < U32_SPAN
    requires BoundsOk(bound) && IsOutdatedBound(n.db, removeUntil, Some(bound))
    ensures AllBefore(n.live, BoundSeqno(bound)) && IsBoundAt(w, bound, BoundSeqno(bound))
  {
    var last := BoundTells(w, n, removeUntil, bound);
    assert last in n.db.timings;
  }

  lemma NoBoundIsNotAhead(w: World, n: Node, removeUntil: nat)
    requires BlocksOk(w) && TopsCover(w) && Inv(w, n) && removeUntil + 1 < U32_SPAN
    requires IsOutdatedBound(n.db, removeUntil, None)
    ensures !TellsAhead(n.db, removeUntil, n.handled)
  {
    if TellsAhead(n.db, removeUntil, n.handled) {
      var key :| IsAhead(n.db, removeUntil, n.handled, key);
      var last := SomeTimingIsLast(n.db.timings.Keys, removeUntil, key);
      var m := TimingHasPivot(w, n, last);
      assert IsLastTiming(n.db.timings, removeUntil, last);
    }
  }

  /** The bound of a collection is ahead exactly if some old enough timing is. */
  lemma BoundIsAhead(w: World, n: Node, removeUntil: nat, bound: Option<OutdatedBound>)
    requires BlocksOk(w) && TimesGrow(w) && TopsCover(w) && Inv(w, n) && removeUntil + 1 < U32_SPAN
    requires IsOutdatedBound(n.db, removeUntil, bound) && (bound.Some? ==> BoundsOk(bound.value))
    ensures TellsAhead(n.db, removeUntil, n.handled) <==> bound.Some? && BoundSeqno(bound.value) > n.handled
  {
    if bound.Some? {
      SomeBoundIsAhead(w, n, removeUntil, bound.value);
    } else {
      NoBoundIsNotAhead(w, n, removeUntil);
    }
  }

  /** The bound that a batch has looked for. */
  ghost predicate IsBoundOfBatch(w: World, t: Tables, id: BlockIdShort, now: nat, bound: Option<OutdatedBound>)
    requires id in w.blocks && WellFormed(t) && now < U32_SPAN
  {
    && (bound.Some? ==> BoundsOk(bound.value))
    && if TakesTiming(w.blocks[id].block) then IsOutdatedBound(t, SaturatingSub(now, w.ttl), bound) else bound.None?
  }

  lemma BoundOfBatch(w: World, n: Node, id: BlockIdShort, now: nat, db: Tables, bound: Option<OutdatedBound>)
    requires BlocksOk(w) && WellFormed(n.db) && n.vset == VsetAt(w, n.handled)
    requires CanPrepare(w, n, id, now) && IsI8(id.shard.workchain)
    requires Stores(n.db, db, w.blocks[id].block, w.blocks[id].refBy, n.vset, now, w.ttl, bound)
    ensures IsBoundOfBatch(w, n.db, id, now, bound)
  {
    VsetSigns(w, n, id, now);
    assert ContentOk(w.blocks[id]);
    var pruned, pivot := BatchParts(w, n.db, db, id, now, bound);
  }

  /** A batch is bound ahead exactly under that condition. */
  lemma BatchIsAhead(w: World, n: Node, id: BlockIdShort, now: nat, bound: Option<OutdatedBound>)
    requires OrderedWorld(w) && Inv(w, n) && CanPrepare(w, n, id, now) && !Skips(w.blocks[id].block, now, w.ttl)
    requires IsBoundOfBatch(w, n.db, id, now, bound)
    ensures Ahead(w, n, id, now) <==> bound.Some? && BoundSeqno(bound.value) > n.handled
  {
    if TakesTiming(w.blocks[id].block) {
      BoundIsAhead(w, n, SaturatingSub(now, w.ttl), bound);
    }
  }

  lemma StoringKeepsOrder(w: World, n: Node, id: BlockIdShort, now: nat, db: Tables, bound: Option<OutdatedBound>)
    requires HistoryOk(w, n.live) && StoredInOrder(w, n.live) && NotAhead(n) && CanPrepare(w, n, id, now)
    ensures StoredInOrder(w, Storing(n, id, now, db, bound).live)
  {
    var h := Storing(n, id, now, db, bound).live;
    forall other, j: nat | other in h.since && other in w.blocks && j < h.since[other] && j < |h.collections|
      ensures h.collections[j] < w.blocks[other].refBy
    {
      assert j < |n.live.collections| && h.collections[j] == n.live.collections[j];
    }
  }

  lemma TimingsLeft(w: World, h: History, t: Tables, bound: OutdatedBound, m: nat, key: ByteString)
    requires LinksOk(w) && TimesGrow(w) && SoundTimings(w, h, t) && WellFormed(t) && IsBoundAt(w, bound, m)
    requires key in WithoutOutdated(t, Some(bound)).timings
    ensures key in t.timings && WithoutOutdated(t, Some(bound)).timings[key] == t.timings[key]
    ensures m < McSeqno(t.timings[key])
  {
    var k := TimingTells(w, h, t, key);
    TimingRangeExact(w.blocks[McId(k)].block.genUtime, bound.removeUntil);
    assert McId(m) in w.blocks && McId(k) in w.blocks;
  }

  /** The timings of a batch before it collects. */
  lemma WrittenTimingsAfter(w: World, n: Node, id: BlockIdShort, now: nat, pruned: Cell, pivot: Cell)
    requires WellFormed(n.db) && TimingsAfter(n.live, n.db) && NotAhead(n) && CanPrepare(w, n, id, now)
    requires CanWrite(w, id)
    requires WellFormed(WrittenOf(w, n.db, id, pruned, pivot))
    ensures TimingsAfter(WithBlock(n.live, id), WrittenOf(w, n.db, id, pruned, pivot))
  {
    var t' := WrittenOf(w, n.db, id, pruned, pivot);
    SpanValues();
    LittleEndianRoundTrip(id.seqno, 4);
    forall key, j: nat | key in t'.timings && j < |n.live.collections|
      ensures n.live.collections[j] < McSeqno(t'.timings[key])
    {
      assert n.live.collections[j] <= n.handled;
    }
  }

  lemma CollectedTimingsAfter(w: World, h: History, t: Tables, bound: OutdatedBound, m: nat)
    requires LinksOk(w) && TimesGrow(w) && SoundTimings(w, h, t) && WellFormed(t) && IsBoundAt(w, bound, m)
    requires TimingsAfter(h, t) && WellFormed(WithoutOutdated(t, Some(bound)))
    ensures TimingsAfter(WithCollection(h, m, bound.removeUntil), WithoutOutdated(t, Some(bound)))
  {
    var t' := WithoutOutdated(t, Some(bound));
    forall key, j: nat | key in t'.timings && j < |WithCollection(h, m, bound.removeUntil).collections|
      ensures WithCollection(h, m, bound.removeUntil).collections[j] < McSeqno(t'.timings[key])
    {
      TimingsLeft(w, h, t, bound, m, key);
    }
  }

  lemma StoringKeepsTimings(w: World, n: Node, id: BlockIdShort, now: nat, db: Tables, bound: Option<OutdatedBound>)
    requires BlocksOk(w) && TimesGrow(w) && Inv(w, n) && CanPrepare(w, n, id, now) && IsI8(id.shard.workchain)
    requires Stores(n.db, db, w.blocks[id].block, w.blocks[id].refBy, n.vset, now, w.ttl, bound)
    requires BoundOk(w, n.live, now, bound) && WellFormed(db)
    ensures TimingsAfter(Storing(n, id, now, db, bound).live, db)
  {
    VsetSigns(w, n, id, now);
    assert ContentOk(w.blocks[id]);
    var pruned, pivot := BatchParts(w, n.db, db, id, now, bound);
    WrittenKeepsTables(w, n.live, n.db, id, pruned, pivot);
    WrittenTimingsAfter(w, n, id, now, pruned, pivot);
    if bound.Some? {
      CollectedTimingsAfter(w, WithBlock(n.live, id), WrittenOf(w, n.db, id, pruned, pivot), bound.value,
                            BoundSeqno(bound.value));
    }
  }

  /** Storing a block keeps the invariant exactly if its batch is not bound ahead. */
  lemma StoringKeepsInv(w: World, n: Node, id: BlockIdShort, now: nat, db: Tables, bound: Option<OutdatedBound>)
    requires OrderedWorld(w) && Inv(w, n) && CanPrepare(w, n, id, now) && !Skips(w.blocks[id].block, now, w.ttl)
    requires Stores(n.db, db, w.blocks[id].block, w.blocks[id].refBy, n.vset, now, w.ttl, bound)
    ensures Inv(w, Storing(n, id, now, db, bound)) <==> !Ahead(w, n, id, now)
  {
    StoringIsRecorded(w, n, id, now, db, bound);
    StoringKeepsOrder(w, n, id, now, db, bound);
    StoringKeepsTimings(w, n, id, now, db, bound);
    BoundOfBatch(w, n, id, now, db, bound);
    BatchIsAhead(w, n, id, now, bound);
    StoringIsNotAhead(n, id, now, db, bound);
  }

  lemma StoringIsNotAhead(n: Node, id: BlockIdShort, now: nat, db: Tables, bound: Option<OutdatedBound>)
    requires NotAhead(n)
    ensures NotAhead(Storing(n, id, now, db, bound)) <==> !(bound.Some? && BoundSeqno(bound.value) > n.handled)
  {
    var n' := Storing(n, id, now, db, bound);
    if bound.Some? {
      assert n'.live.collections[|n.live.collections|] == BoundSeqno(bound.value);
    }
  }

  /** Preparing a block keeps the invariant exactly if its batch is not bound ahead. */
  lemma PrepareKeepsInv(w: World, n: Node, n': Node, id: BlockIdShort, now: nat)
    requires OrderedWorld(w) && Inv(w, n) && Prepares(w, n, n', id, now)
    ensures Inv(w, n') <==> !Ahead(w, n, id, now)
  {
    var l := w.blocks[id];
    if Skips(l.block, now, w.ttl) {
      SkippingIsRecorded(w, n, id, now);
    } else {
      var bound :| && Stores(n.db, n'.db, l.block, l.refBy, n.vset, now, w.ttl, bound)
                   && n' == Storing(n, id, now, n'.db, bound);
      StoringKeepsInv(w, n, id, now, n'.db, bound);
    }
  }

  lemma HandleKeepsInv(w: World, n: Node, n': Node)
    requires LinksOk(w) && Inv(w, n) && Handles(w, n, n')
    ensures Inv(w, n')
  {
    HandleIsRecorded(w, n, n');
  }

  /** A restart keeps the invariant exactly if it does not go back before a collection. */
  lemma RestartKeepsInv(w: World, n: Node, n': Node, m: nat)
    requires Inv(w, n) && Restarts(w, n, n', m)
    ensures Inv(w, n') <==> AllBefore(n.live, m + 1)
  {
    RestartIsRecorded(w, n, n', m);
    if NotAhead(n') {
      forall j: nat | j < |n.live.collections| ensures n.live.collections[j] < m + 1 {
        assert n'.live.collections[j] <= n'.handled;
      }
    }
  }

  /** The step is one of those that put a collection ahead of what is handled. */
  ghost predicate GoesAhead(w: World, n: Node, n': Node) {
    || (exists id, now :: Prepares(w, n, n', id, now) && Ahead(w, n, id, now))
    || (exists m: nat :: Restarts(w, n, n', m) && !AllBefore(n.live, m + 1))
  }

  lemma StepKeepsInv(w: World, n: Node, n': Node)
    requires OrderedWorld(w) && Inv(w, n) && Steps(w, n, n')
    ensures Inv(w, n') <==> !GoesAhead(w, n, n')
  {
    if GoesAhead(w, n, n') {
      AheadBreaksInv(w, n, n');
    } else if Handles(w, n, n') {
      HandleKeepsInv(w, n, n');
    } else if m: nat :| Restarts(w, n, n', m) {
      RestartKeepsInv(w, n, n', m);
    } else {
      var id, now :| Prepares(w, n, n', id, now);
      PrepareKeepsInv(w, n, n', id, now);
    }
  }

  lemma AheadBreaksInv(w: World, n: Node, n': Node)
    requires OrderedWorld(w) && Inv(w, n) && GoesAhead(w, n, n')
    ensures !Inv(w, n')
  {
    if m: nat :| Restarts(w, n, n', m) && !AllBefore(n.live, m + 1) {
      RestartKeepsInv(w, n, n', m);
    } else {
      PreparedAheadBreaksInv(w, n, n');
    }
  }

  lemma PreparedAheadBreaksInv(w: World, n: Node, n': Node)
    requires OrderedWorld(w) && Inv(w, n) && exists id, now :: Prepares(w, n, n', id, now) && Ahead(w, n, id, now)
    ensures !Inv(w, n')
  {
    var id, now :| Prepares(w, n, n', id, now) && Ahead(w, n, id, now);
    PrepareKeepsInv(w, n, n', id, now);
  }

  ghost predicate NeverGoesAhead(w: World, run: seq<Node>) {
    forall k: nat | k + 1 < |run| :: !GoesAhead(w, run[k], run[k + 1])
  }

  ghost predicate AlwaysInv(w: World, run: seq<Node>) {
    forall k: nat | k < |run| :: Inv(w, run[k])
  }

  lemma FreshKeepsInv(w: World)
    requires LinksOk(w)
    ensures Inv(w, Fresh(w))
  {
    FreshIsRecorded(w);
  }

  /** The invariant holds all along a run exactly if none of its steps puts a collection ahead. */
  lemma {:induction false} RunKeepsInv(w: World, run: seq<Node>)
    requires OrderedWorld(w) && IsRun(w, run)
    ensures AlwaysInv(w, run) <==> NeverGoesAhead(w, run)
  {
    if |run| == 1 {
      FreshKeepsInv(w);
    } else {
      var init := run[..|run| - 1];
      RunKeepsInv(w, init);
      LastState(w, run);
      LastStep(w, run);
      if AlwaysInv(w, init) {
        StepKeepsInv(w, run[|run| - 2], run[|run| - 1]);
      }
    }
  }

  lemma LastState(w: World, run: seq<Node>)
    requires |run| > 1
    ensures AlwaysInv(w, run) <==> AlwaysInv(w, run[..|run| - 1]) && Inv(w, run[|run| - 1])
    ensures AlwaysInv(w, run[..|run| - 1]) ==> Inv(w, run[|run| - 2])
  {
    var init, last := run[..|run| - 1], |run| - 1;
    if AlwaysInv(w, run) {
      forall k: nat | k < |init| ensures Inv(w, init[k]) {
        assert Inv(w, run[k]);
      }
    }
    if AlwaysInv(w, init) {
      forall k: nat | k < last ensures Inv(w, run[k]) {
        assert Inv(w, init[k]);
      }
    }
  }

  lemma EarlierSteps(w: World, run: seq<Node>)
    requires |run| > 1 && NeverGoesAhead(w, run)
    ensures NeverGoesAhead(w, run[..|run| - 1]) && !GoesAhead(w, run[|run| - 2], run[|run| - 1])
  {
    var init, last := run[..|run| - 1], |run| - 1;
    assert !GoesAhead(w, run[last - 1], run[last - 1 + 1]);
    forall k: nat | k + 1 < |init| ensures !GoesAhead(w, init[k], init[k + 1]) {
      assert !GoesAhead(w, run[k], run[k + 1]);
    }
  }

  lemma OneMoreStep(w: World, run: seq<Node>)
    requires |run| > 1 && NeverGoesAhead(w, run[..|run| - 1]) && !GoesAhead(w, run[|run| - 2], run[|run| - 1])
    ensures NeverGoesAhead(w, run)
  {
    var init, last := run[..|run| - 1], |run| - 1;
    forall k: nat | k + 1 < |run| ensures !GoesAhead(w, run[k], run[k + 1]) {
      if k + 1 < last {
        assert !GoesAhead(w, init[k], init[k + 1]);
      }
    }
  }

  lemma LastStep(w: World, run: seq<Node>)
    requires |run| > 1
    ensures NeverGoesAhead(w, run) <==>
              NeverGoesAhead(w, run[..|run| - 1]) && !GoesAhead(w, run[|run| - 2], run[|run| - 1])
  {
    if NeverGoesAhead(w, run) {
      EarlierSteps(w, run);
    } else if NeverGoesAhead(w, run[..|run| - 1]) && !GoesAhead(w, run[|run| - 2], run[|run| - 1]) {
      OneMoreStep(w, run);
    }
  }

  // --- What a batch collects

  /** What the batch of a prepared block is. */
  lemma PreparedParts(w: World, n: Node, n': Node, id: BlockIdShort, now: nat)
    returns (pruned: Cell, pivot: Cell, bound: Option<OutdatedBound>)
    requires BlocksOk(w) && WellFormed(n.db) && n.vset == VsetAt(w, n.handled)
    requires Prepares(w, n, n', id, now) && !Skips(w.blocks[id].block, now, w.ttl)
    ensures CanWrite(w, id) && IsBoundOfBatch(w, n.db, id, now, bound)
    ensures n'.db == WithoutOutdated(WrittenOf(w, n.db, id, pruned, pivot), bound)
    ensures n' == Storing(n, id, now, n'.db, bound)
  {
    var l := w.blocks[id];
    bound :| && Stores(n.db, n'.db, l.block, l.refBy, n.vset, now, w.ttl, bound)
             && n' == Storing(n, id, now, n'.db, bound);
    VsetSigns(w, n, id, now);
    assert ContentOk(l);
    pruned, pivot := BatchParts(w, n.db, n'.db, id, now, bound);
  }

  /** Masterchain block `m` has its timing, and is old enough to be collected. */
  ghost predicate IsDue(w: World, h: History, until: nat, m: nat) {
    && McId(m) in w.blocks && w.blocks[McId(m)].block.genUtime <= until
    && IsTimedBy(w, h, w.blocks[McId(m)].block.genUtime, m)
  }

  /** The pivots of all that is due are there. */
  ghost predicate DueHavePivots(w: World, h: History, until: nat) {
    forall m: nat | IsDue(w, h, until, m) :: Has(w, h, McId(m))
  }

  /** As long as no collection is bound ahead, they are. */
  lemma DuePivotsAreThere(w: World, n: Node, until: nat)
    requires OrderedWorld(w) && Inv(w, n)
    ensures DueHavePivots(w, n.live, until)
  {
    forall m: nat | IsDue(w, n.live, until, m) ensures Has(w, n.live, McId(m)) {
      assert LinkOk(w, McId(m));
      TimedIsAfter(w, n, m);
      StoredIsThere(w, n.live, McId(m));
    }
  }

  lemma TimedIsAfter(w: World, n: Node, m: nat)
    requires LinksOk(w) && TimesGrow(w) && Inv(w, n) && McId(m) in w.blocks
    requires IsTimedBy(w, n.live, w.blocks[McId(m)].block.genUtime, m)
    ensures AllBefore(n.live, m)
  {
    assert LinkOk(w, McId(m));
    forall j: nat | j < |n.live.collections| ensures n.live.collections[j] < m {
      if j >= n.live.since[McId(m)] {
        assert IsDated(w, n.live, j) && n.live.times[j] < w.blocks[McId(m)].block.genUtime;
      }
    }
  }

  /** A batch that looks for something to collect finds the last of what is due, if anything is due. */
  lemma LastDue(w: World, n: Node, until: nat, key: ByteString) returns (m: nat)
    requires BlocksOk(w) && Recorded(w, n) && until + 1 < U32_SPAN && IsLastTiming(n.db.timings, until, key)
    ensures IsDue(w, n.live, until, m) && McSeqno(n.db.timings[key]) == m
    ensures BlockKey(MASTERCHAIN, m) in n.db.pivotBlocks <==> Has(w, n.live, McId(m))
    ensures forall k: nat | IsDue(w, n.live, until, k) ::
              w.blocks[McId(k)].block.genUtime <= w.blocks[McId(m)].block.genUtime
  {
    m := TimingsPointAtPivots(w, n.live, n.db, key);
    var last := w.blocks[McId(m)].block.genUtime;
    BigEndianSeconds(until, last);
    forall k: nat | IsDue(w, n.live, until, k) ensures w.blocks[McId(k)].block.genUtime <= last {
      DueHasTiming(w, n, until, k);
      BigEndianSeconds(last, w.blocks[McId(k)].block.genUtime);
    }
  }

  lemma BigEndianSeconds(a: nat, b: nat)
    requires a < U32_SPAN && b < U32_SPAN
    ensures Below(U32Key(a), U32Key(b)) <==> a < b
  {
    SpanValues();
    BigEndianOrder(a, b, 4);
  }

  /** What is due has a timing that is old enough. */
  lemma DueHasTiming(w: World, n: Node, until: nat, m: nat)
    requires Recorded(w, n) && until < U32_SPAN && IsDue(w, n.live, until, m)
    ensures var key := U32Key(w.blocks[McId(m)].block.genUtime);
            key in n.db.timings && !Below(U32Key(until), key)
  {
    var time := w.blocks[McId(m)].block.genUtime;
    assert IsTimed(w, n.live, time);
    TimingRowsExactly(w, n, time);
    BigEndianSeconds(until, time);
  }

  /** A batch that looks for something to collect collects exactly if something is due, as long as the
      pivots of all that is due are there. It is then bound by the last that is due. */
  lemma CollectsExactly(w: World, n: Node, id: BlockIdShort, now: nat, bound: Option<OutdatedBound>)
    requires BlocksOk(w) && Recorded(w, n) && CanPrepare(w, n, id, now) && TakesTiming(w.blocks[id].block)
    requires IsBoundOfBatch(w, n.db, id, now, bound) && DueHavePivots(w, n.live, SaturatingSub(now, w.ttl))
    ensures bound.Some? <==> exists m: nat :: IsDue(w, n.live, SaturatingSub(now, w.ttl), m)
    ensures bound.Some? ==> IsLastDue(w, n.live, SaturatingSub(now, w.ttl), BoundSeqno(bound.value))
  {
    var until := SaturatingSub(now, w.ttl);
    if bound.Some? {
      var key := BoundTells(w, n, until, bound.value);
      var m := LastDue(w, n, until, key);
    } else if m: nat :| IsDue(w, n.live, until, m) {
      DueHasTiming(w, n, until, m);
      var key := SomeTimingIsLast(n.db.timings.Keys, until, U32Key(w.blocks[McId(m)].block.genUtime));
      var last := LastDue(w, n, until, key);
      assert IsLastTiming(n.db.timings, until, key);
    }
  }

  ghost predicate IsLastDue(w: World, h: History, until: nat, m: nat) {
    && IsDue(w, h, until, m)
    && forall k: nat | IsDue(w, h, until, k) :: w.blocks[McId(k)].block.genUtime <= w.blocks[McId(m)].block.genUtime
  }

  /** What is due goes: after a batch that looks for something to collect no timing that is old enough
      is left, and if anything was due, nothing is left of the transactions and the masterchain blocks
      up to the last masterchain block that was due. */
  lemma DueIsCollected(w: World, n: Node, n': Node, id: BlockIdShort, now: nat)
    requires OrderedWorld(w) && Recorded(w, n) && DueHavePivots(w, n.live, SaturatingSub(now, w.ttl))
    requires Prepares(w, n, n', id, now) && !Skips(w.blocks[id].block, now, w.ttl) && TakesTiming(w.blocks[id].block)
    requires exists m: nat :: IsDue(w, n.live, SaturatingSub(now, w.ttl), m)
    ensures forall time: nat | time <= SaturatingSub(now, w.ttl) :: U32Key(time) !in n'.db.timings
    ensures exists m: nat :: IsLastDue(w, n.live, SaturatingSub(now, w.ttl), m) && IsCleared(w, n'.db, m)
  {
    var pruned, pivot, bound := PreparedParts(w, n, n', id, now);
    BatchClears(w, n, id, now, WrittenOf(w, n.db, id, pruned, pivot), bound);
  }

  lemma BatchClears(w: World, n: Node, id: BlockIdShort, now: nat, t: Tables, bound: Option<OutdatedBound>)
    requires BlocksOk(w) && Recorded(w, n) && CanPrepare(w, n, id, now) && TakesTiming(w.blocks[id].block)
    requires IsBoundOfBatch(w, n.db, id, now, bound) && DueHavePivots(w, n.live, SaturatingSub(now, w.ttl))
    requires exists m: nat :: IsDue(w, n.live, SaturatingSub(now, w.ttl), m)
    ensures forall time: nat | time <= SaturatingSub(now, w.ttl) :: U32Key(time) !in WithoutOutdated(t, bound).timings
    ensures exists m: nat ::
              IsLastDue(w, n.live, SaturatingSub(now, w.ttl), m) && IsCleared(w, WithoutOutdated(t, bound), m)
  {
    CollectsExactly(w, n, id, now, bound);
    var key := BoundTells(w, n, SaturatingSub(now, w.ttl), bound.value);
    OldTimingsGo(t, bound.value);
    CollectionClears(w, t, bound.value, BoundSeqno(bound.value));
  }

  lemma OldTimingsGo(t: Tables, bound: OutdatedBound)
    requires BoundsOk(bound) && bound.removeUntil + 1 < U32_SPAN
    ensures forall time: nat | time <= bound.removeUntil :: U32Key(time) !in WithoutOutdated(t, Some(bound)).timings
  {
    forall time: nat | time <= bound.removeUntil ensures U32Key(time) !in WithoutOutdated(t, Some(bound)).timings {
      TimingRangeExact(time, bound.removeUntil);
    }
  }

  /** No transaction up to the end of the masterchain block is indexed any more, and no masterchain block
      up to it has its rows. */
  ghost predicate IsCleared(w: World, t: Tables, m: nat)
    requires McId(m) in w.blocks
  {
    && (forall workchain: int, tx: TxId {:trigger TxKey(workchain, tx)} | IsI8(workchain) && InTxBounds(tx) ::
          tx.lt <= w.blocks[McId(m)].bounds.endLt ==> TxKey(workchain, tx) !in t.transactions)
    && (forall k: nat {:trigger McId(k)} | k <= m && k < U32_SPAN ::
          Keyable(McId(k)) && KeyOf(McId(k)) !in t.prunedBlocks && KeyOf(McId(k)) !in t.pivotBlocks)
  }

  lemma CollectionClears(w: World, t: Tables, bound: OutdatedBound, m: nat)
    requires LinksOk(w) && IsBoundAt(w, bound, m)
    ensures IsCleared(w, WithoutOutdated(t, Some(bound)), m)
  {
    assert LinkOk(w, McId(m));
    forall workchain: int, tx: TxId | IsI8(workchain) && InTxBounds(tx) && tx.lt <= w.blocks[McId(m)].bounds.endLt
      ensures TxKey(workchain, tx) !in WithoutOutdated(t, Some(bound)).transactions
    {
      CollectedRange(w, t, bound, m, workchain, tx);
    }
    forall k: nat | k <= m && k < U32_SPAN
      ensures Keyable(McId(k))
      ensures KeyOf(McId(k)) !in WithoutOutdated(t, Some(bound)).prunedBlocks
      ensures KeyOf(McId(k)) !in WithoutOutdated(t, Some(bound)).pivotBlocks
    {
      assert IsAbove(McId(m), McId(k)) && McId(m) in bound.blocks;
      CollectedRow(w, t.prunedBlocks, bound, m, McId(k));
      CollectedRow(w, t.pivotBlocks, bound, m, McId(k));
    }
  }

}
