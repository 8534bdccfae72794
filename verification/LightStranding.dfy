/**
 The failing case: when a batch is bound ahead, that it does happen, and what it strands.
 */
module LightStranding {
  import opened Results
  import opened Bytes
  import opened Cells
  import opened Blocks
  import opened StorageKeys
  import opened ProofStorage
  import opened World
  import opened TableRows
  import opened LightNode
  import opened LightCollection

  /** A batch is bound ahead only in the last second before its block is skipped, and only if a
      masterchain block from this one on was stored before. */
  lemma AheadIsLastSecond(w: World, n: Node, id: BlockIdShort, now: nat) returns (m: nat)
    requires LinksOk(w) && TimesGrow(w) && Recorded(w, n) && CanPrepare(w, n, id, now) && Ahead(w, n, id, now)
    ensures w.blocks[id].block.genUtime == SaturatingSub(now, w.ttl)
    ensures m >= id.seqno && McId(m) in n.live.since
  {
    var until := SaturatingSub(now, w.ttl);
    var key :| IsAhead(n.db, until, n.handled, key);
    m := TimingTells(w, n.live, n.db, key);
    SpanValues();
    BigEndianOrder(until, w.blocks[McId(m)].block.genUtime, 4);
    assert id == McId(id.seqno);
  }

  /** So a block that is prepared for the first time is never ahead. */
  lemma FirstTimeIsNotAhead(w: World, n: Node, id: BlockIdShort, now: nat)
    requires LinksOk(w) && TimesGrow(w) && Recorded(w, n) && CanPrepare(w, n, id, now)
    requires forall m: nat | McId(m) in n.live.since :: m <= n.handled
    ensures !Ahead(w, n, id, now)
  {
    if Ahead(w, n, id, now) {
      var m := AheadIsLastSecond(w, n, id, now);
    }
  }

  lemma PreparedIsWellFormed(w: World, n: Node, n': Node, id: BlockIdShort, now: nat)
    requires BlocksOk(w) && Recorded(w, n) && Prepares(w, n, n', id, now)
    ensures WellFormed(n'.db) && n'.handled == n.handled && n'.vset == VsetAt(w, n'.handled)
  {
    PrepareIsRecorded(w, n, n', id, now);
  }

  /** When a masterchain block that brings a collection is stored, its own timing is there afterwards,
      unless it is already as old as proofs are kept. */
  lemma OwnTimingIsThere(w: World, n: Node, n': Node, id: BlockIdShort, now: nat)
    requires BlocksOk(w) && Recorded(w, n)
    requires Prepares(w, n, n', id, now) && !Skips(w.blocks[id].block, now, w.ttl)
    requires TakesTiming(w.blocks[id].block) && SaturatingSub(now, w.ttl) < w.blocks[id].block.genUtime
    ensures LinkOk(w, id) && w.blocks[id].refBy == n'.handled + 1 && WellFormed(n'.db)
    ensures w.blocks[id].block.genUtime < U32_SPAN && id.seqno < U32_SPAN
    ensures var key := U32Key(w.blocks[id].block.genUtime);
            key in n'.db.timings && n'.db.timings[key] == SeqnoValue(id.seqno)
  {
    var pruned, pivot, bound := PreparedParts(w, n, n', id, now);
    if bound.Some? {
      BoundRemoves(n.db, SaturatingSub(now, w.ttl), bound.value);
    }
    PreparedIsWellFormed(w, n, n', id, now);
    OwnTimingStays(w, n.db, id, pruned, pivot, bound);
  }

  lemma BoundRemoves(t: Tables, removeUntil: nat, bound: OutdatedBound)
    requires WellFormed(t) && removeUntil < U32_SPAN && IsOutdatedBound(t, removeUntil, Some(bound))
    ensures bound.removeUntil == removeUntil
  {
  }

  lemma OwnTimingIsAhead(w: World, n: Node, id: BlockIdShort, now: nat)
    requires id in w.blocks && LinkOk(w, id) && WellFormed(n.db) && now < U32_SPAN
    requires w.blocks[id].refBy == n.handled + 1
    requires TakesTiming(w.blocks[id].block) && now == w.blocks[id].block.genUtime + w.ttl
    requires var key := U32Key(w.blocks[id].block.genUtime);
             key in n.db.timings && n.db.timings[key] == SeqnoValue(id.seqno)
    ensures Ahead(w, n, id, now)
  {
    SpanValues();
    LittleEndianRoundTrip(id.seqno, 4);
    var key := U32Key(w.blocks[id].block.genUtime);
    BelowIsIrreflexive(key);
    assert SaturatingSub(now, w.ttl) == w.blocks[id].block.genUtime;
    assert IsAhead(n.db, w.blocks[id].block.genUtime, n.handled, key);
  }

  /** And it does happen: such a block, stored once and then once more when it is exactly as old as
      proofs are kept. */
  lemma SecondTimeIsAhead(w: World, n: Node, n': Node, id: BlockIdShort, now: nat, again: nat)
    requires BlocksOk(w) && Recorded(w, n) && Prepares(w, n, n', id, now) && !Skips(w.blocks[id].block, now, w.ttl)
    requires TakesTiming(w.blocks[id].block) && SaturatingSub(now, w.ttl) < w.blocks[id].block.genUtime
    requires again == w.blocks[id].block.genUtime + w.ttl && again + 1 < U32_SPAN
    ensures WellFormed(n'.db) && Ahead(w, n', id, again)
  {
    OwnTimingIsThere(w, n, n', id, now);
    OwnTimingIsAhead(w, n', id, again);
  }

  /** A younger block's own timing survives the collection of its batch. */
  lemma OwnTimingStays(w: World, t: Tables, id: BlockIdShort, pruned: Cell, pivot: Cell, bound: Option<OutdatedBound>)
    requires CanWrite(w, id) && TakesTiming(w.blocks[id].block)
    requires bound.Some? ==> BoundsOk(bound.value) && bound.value.removeUntil < w.blocks[id].block.genUtime
    ensures var t' := WithoutOutdated(WrittenOf(w, t, id, pruned, pivot), bound);
            var key := U32Key(w.blocks[id].block.genUtime);
            key in t'.timings && t'.timings[key] == SeqnoValue(id.seqno)
  {
    if bound.Some? {
      TimingRangeExact(w.blocks[id].block.genUtime, bound.value.removeUntil);
    }
  }

  /** A collection that is bound at or after the masterchain block of its own batch takes away the
      pivot that the batch has just written. */
  lemma BoundAheadTakesItself(w: World, id: BlockIdShort, t: Tables, pruned: Cell, pivot: Cell, bound: OutdatedBound,
                              m: nat)
    requires CanWrite(w, id) && id == McId(w.blocks[id].refBy) && IsBoundAt(w, bound, m) && LinkOk(w, McId(m))
    requires m >= id.seqno
    ensures KeyOf(id) in WrittenOf(w, t, id, pruned, pivot).pivotBlocks
    ensures KeyOf(id) !in WithoutOutdated(WrittenOf(w, t, id, pruned, pivot), Some(bound)).pivotBlocks
  {
    assert IsAbove(McId(m), id) && McId(m) in bound.blocks;
    CollectedRow(w, WrittenOf(w, t, id, pruned, pivot).pivotBlocks, bound, m, id);
  }

  /** After its batch, a masterchain block has its rows exactly if the batch was not bound ahead. */
  lemma OwnRowsStayExactly(w: World, n: Node, n': Node, id: BlockIdShort, now: nat)
    requires OrderedWorld(w) && Inv(w, n) && Prepares(w, n, n', id, now) && !Skips(w.blocks[id].block, now, w.ttl)
    requires id.shard == MASTERCHAIN
    ensures Keyable(id)
    ensures KeyOf(id) in n'.db.pivotBlocks <==> !Ahead(w, n, id, now)
    ensures KeyOf(id) in n'.db.prunedBlocks <==> !Ahead(w, n, id, now)
    ensures n'.handled == n.handled && WellFormed(n'.db) && n'.vset == VsetAt(w, n'.handled)
  {
    var pruned, pivot, bound := PreparedParts(w, n, n', id, now);
    PrepareIsRecorded(w, n, n', id, now);
    BlockRowsExactly(w, n', id);
    OwnBatchHas(w, n, id, now, bound);
  }

  lemma OwnBatchHas(w: World, n: Node, id: BlockIdShort, now: nat, bound: Option<OutdatedBound>)
    requires OrderedWorld(w) && Inv(w, n) && CanPrepare(w, n, id, now) && !Skips(w.blocks[id].block, now, w.ttl)
    requires IsBoundOfBatch(w, n.db, id, now, bound) && id.shard == MASTERCHAIN
    ensures Has(w, CollectedBy(WithBlock(n.live, id), bound), id) <==> !Ahead(w, n, id, now)
  {
    BatchIsAhead(w, n, id, now, bound);
    BoundOfBatchIsAt(w, n, id, now, bound);
    HasAfterBatch(w, n.live, id, bound, n.handled);
  }

  lemma BoundOfBatchIsAt(w: World, n: Node, id: BlockIdShort, now: nat, bound: Option<OutdatedBound>)
    requires BlocksOk(w) && Recorded(w, n) && CanPrepare(w, n, id, now) && IsBoundOfBatch(w, n.db, id, now, bound)
    ensures bound.Some? ==> IsBoundAt(w, bound.value, BoundSeqno(bound.value))
  {
    if bound.Some? {
      var last := BoundTells(w, n, SaturatingSub(now, w.ttl), bound.value);
    }
  }

  lemma HasAfterBatch(w: World, h: History, id: BlockIdShort, bound: Option<OutdatedBound>, handled: nat)
    requires LinksOk(w) && TopsCover(w) && id in w.blocks && LinkOk(w, id) && id == McId(handled + 1)
    requires bound.Some? ==> IsBoundAt(w, bound.value, BoundSeqno(bound.value))
    ensures Has(w, CollectedBy(WithBlock(h, id), bound), id) <==> !(bound.Some? && BoundSeqno(bound.value) > handled)
  {
    HasWith(w, h, id, id);
    if bound.Some? {
      var m := BoundSeqno(bound.value);
      HasCollected(w, WithBlock(h, id), m, bound.value.removeUntil, id);
      assert LinkOk(w, McId(m));
      if m > handled {
        assert IsAbove(McId(m), id);
      } else if Takes(w, m, id) {
        TakenIsCovered(w, m, id);
      }
    }
  }

  /** A transaction of a shard block has its index row, but the pivot of its masterchain block is gone. */
  ghost predicate IsStranded(w: World, t: Tables, id: BlockIdShort, tx: TxId)
    requires id in w.blocks
  {
    && Keyable(id) && InTxBounds(tx) && id.shard.prefix > 0 && w.blocks[id].refBy < U32_SPAN
    && TxKey(id.shard.workchain, tx) in t.transactions
    && t.transactions[TxKey(id.shard.workchain, tx)] == TxValue(id.shard, id.seqno, w.blocks[id].refBy)
    && KeyOf(McOf(w, id)) !in t.pivotBlocks
  }

  lemma StrandedHasNoProof(w: World, t: Tables, id: BlockIdShort, tx: TxId)
    requires id in w.blocks && IsStranded(w, t, id, tx)
    ensures !Buildable(t, false, id, w.blocks[id].refBy, tx)
  {
  }

  /** The failure: the masterchain block is stored ahead, and a shard block of it is stored afterwards.
      Each transaction of the shard block is then stranded: it is indexed, and no proof of it can be
      built from the tables. */
  lemma AheadStrands(w: World, n: Node, n1: Node, n2: Node, mc: BlockIdShort, at: nat, id: BlockIdShort, now: nat,
                     tx: TxId)
    requires OrderedWorld(w) && Inv(w, n)
    requires Prepares(w, n, n1, mc, at) && Ahead(w, n, mc, at)
    requires Prepares(w, n1, n2, id, now) && !Skips(w.blocks[id].block, now, w.ttl)
    requires id.shard != MASTERCHAIN && tx in w.blocks[id].txs
    ensures IsStranded(w, n2.db, id, tx)
    ensures !Buildable(n2.db, false, id, w.blocks[id].refBy, tx)
  {
    AheadLosesPivot(w, n, n1, mc, at);
    ShardBatchStrands(w, n1, n2, id, now, mc, tx);
    StrandedHasNoProof(w, n2.db, id, tx);
  }

  lemma AheadIsMasterchain(w: World, n: Node, id: BlockIdShort, now: nat)
    requires CanPrepare(w, n, id, now) && TakesTiming(w.blocks[id].block)
    ensures id == McId(n.handled + 1) && id.shard == MASTERCHAIN && Keyable(id)
  {
  }

  lemma AheadLosesPivot(w: World, n: Node, n': Node, mc: BlockIdShort, now: nat)
    requires OrderedWorld(w) && Inv(w, n) && Prepares(w, n, n', mc, now) && Ahead(w, n, mc, now)
    ensures mc == McId(n'.handled + 1) && Keyable(mc) && KeyOf(mc) !in n'.db.pivotBlocks
    ensures WellFormed(n'.db) && n'.vset == VsetAt(w, n'.handled)
  {
    AheadIsMasterchain(w, n, mc, now);
    OwnRowsStayExactly(w, n, n', mc, now);
  }

  /** A batch without a collection only writes. */
  lemma BatchOnlyWrites(w: World, n: Node, n': Node, id: BlockIdShort, now: nat)
    returns (pruned: Cell, pivot: Cell, signatures: Option<StoredSignatures>)
    requires BlocksOk(w) && WellFormed(n.db) && n.vset == VsetAt(w, n.handled)
    requires Prepares(w, n, n', id, now) && !Skips(w.blocks[id].block, now, w.ttl)
    requires !TakesTiming(w.blocks[id].block)
    ensures LinkOk(w, id) && Keyable(id) && AllInBounds(w.blocks[id].txs) && w.blocks[id].refBy == n.handled + 1
    ensures var l := w.blocks[id]; n'.db == Written(n.db, l.block, l.refBy, l.txs, pruned, pivot, signatures)
  {
    var bound;
    pruned, pivot, bound := PreparedParts(w, n, n', id, now);
    signatures := SignaturesRow(w.blocks[id].block, SigningVset(w, id));
  }

  lemma ShardBatchStrands(w: World, n: Node, n': Node, id: BlockIdShort, now: nat, mc: BlockIdShort, tx: TxId)
    requires BlocksOk(w) && WellFormed(n.db) && n.vset == VsetAt(w, n.handled)
    requires Prepares(w, n, n', id, now) && !Skips(w.blocks[id].block, now, w.ttl)
    requires id.shard != MASTERCHAIN && tx in w.blocks[id].txs
    requires mc == McId(n.handled + 1) && Keyable(mc) && KeyOf(mc) !in n.db.pivotBlocks
    ensures IsStranded(w, n'.db, id, tx)
  {
    var pruned, pivot, signatures := BatchOnlyWrites(w, n, n', id, now);
    assert mc == McOf(w, id);
    WriteStrands(w, n.db, id, pruned, pivot, signatures, tx);
  }

  /** Writing a shard block adds its index rows, and no pivot of a masterchain block. */
  lemma WriteStrands(w: World, t: Tables, id: BlockIdShort, pruned: Cell, pivot: Cell,
                     signatures: Option<StoredSignatures>, tx: TxId)
    requires id in w.blocks && LinkOk(w, id) && Keyable(id) && AllInBounds(w.blocks[id].txs)
    requires tx in w.blocks[id].txs && id.shard != MASTERCHAIN
    requires Keyable(McOf(w, id)) && KeyOf(McOf(w, id)) !in t.pivotBlocks
    ensures var l := w.blocks[id];
            IsStranded(w, Written(t, l.block, l.refBy, l.txs, pruned, pivot, signatures), id, tx)
  {
    var value, key := TxValue(id.shard, id.seqno, w.blocks[id].refBy), TxKey(id.shard.workchain, tx);
    WithTxsExact(t.transactions, id.shard.workchain, w.blocks[id].txs, value, key);
    var mc := McOf(w, id);
    if KeyOf(mc) == KeyOf(id) {
      KeyOfIsInjective(mc, id);
    }
  }
}
