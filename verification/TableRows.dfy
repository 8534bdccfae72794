/**
 What the tables of the proof storage hold, told by a history: which blocks were stored, and by which
 masterchain blocks the collections were bound. A block row is there exactly if no collection since
 the block was stored takes it, and an index row exactly if none since has reached its transaction.
 One batch keeps this, whether it collects or not.
 */
module TableRows {
  import opened Results
  import opened Bytes
  import opened Cells
  import opened Blocks
  import opened StorageKeys
  import opened Signatures
  import opened ProofStorage
  import opened World
  import McProofs

  /** The collections so far, each by the masterchain block that bounds it, and the times up to which
      they removed timings; and for each stored block how many of them there were when it was stored
      last. */
  datatype History = History(since: map<BlockIdShort, nat>, collections: seq<nat>, times: seq<nat>)

  const NOTHING_STORED := History(map[], [], [])

  function Stored(h: History): set<BlockIdShort> {
    h.since.Keys
  }

  // --- What collections take

  /** A collection bound by masterchain block `m` takes the rows of the block: one of its bounds is in
      the block's shard, at the block or above it. */
  ghost predicate Takes(w: World, m: nat, id: BlockIdShort) {
    McId(m) in w.blocks && exists b :: b in w.blocks[McId(m)].bounds.shardIds + [McId(m)] && IsAbove(b, id)
  }

  predicate IsAbove(b: BlockIdShort, id: BlockIdShort) {
    b.shard == id.shard && id.seqno <= b.seqno && b.seqno + 1 < U32_SPAN
  }

  /** The rows of the block are there: it is stored, and no collection since takes it. */
  ghost predicate Has(w: World, h: History, id: BlockIdShort) {
    id in h.since && forall j: nat | h.since[id] <= j < |h.collections| :: !Takes(w, h.collections[j], id)
  }

  /** A collection bound by masterchain block `m` reaches transactions of this time. */
  ghost predicate Reaches(w: World, m: nat, lt: nat) {
    McId(m) in w.blocks && lt <= w.blocks[McId(m)].bounds.endLt
  }

  /** The block has the transaction, and no collection since the block was stored reaches it. */
  ghost predicate Survives(w: World, h: History, workchain: int, tx: TxId, id: BlockIdShort) {
    && id in h.since && id in w.blocks && id.shard.workchain == workchain && tx in w.blocks[id].txs
    && forall j: nat | h.since[id] <= j < |h.collections| :: !Reaches(w, h.collections[j], tx.lt)
  }

  ghost predicate IsIndexed(w: World, h: History, workchain: int, tx: TxId) {
    exists id :: Survives(w, h, workchain, tx, id)
  }

  // --- What the tables hold

  ghost predicate HistoryOk(w: World, h: History) {
    && Stored(h) <= w.blocks.Keys
    && (forall id | id in h.since :: h.since[id] <= |h.collections|) && |h.times| == |h.collections|
  }

  ghost predicate IsPrunedRow(b: Block, row: StoredBlock) {
    row.fileHash == b.fileHash && IsPrunedBlock(b.root, row.cell)
  }

  ghost predicate IsPivotRow(b: Block, row: StoredBlock) {
    row.fileHash == b.fileHash && McProofs.IsPivot(b.root, b.IsMasterchain(), row.cell)
  }

  /** The two rows of a block are there exactly if they should be, and are right. */
  ghost predicate RowsOk(w: World, h: History, t: Tables, id: BlockIdShort)
    requires id in w.blocks && Keyable(id)
  {
    && (KeyOf(id) in t.prunedBlocks <==> Has(w, h, id)) && (KeyOf(id) in t.pivotBlocks <==> Has(w, h, id))
    && (KeyOf(id) in t.prunedBlocks ==> IsPrunedRow(w.blocks[id].block, t.prunedBlocks[KeyOf(id)]))
    && (KeyOf(id) in t.pivotBlocks ==> IsPivotRow(w.blocks[id].block, t.pivotBlocks[KeyOf(id)]))
  }

  ghost predicate ExactRows(w: World, h: History, t: Tables) {
    forall id {:trigger RowsOk(w, h, t, id)} | id in w.blocks && Keyable(id) :: RowsOk(w, h, t, id)
  }

  /** Each stored masterchain block has its signatures, prepared with the set before it. */
  ghost predicate RightSignatures(w: World, h: History, t: Tables) {
    forall m: nat {:trigger U32Key(m)} | McId(m) in w.blocks && 0 < m < U32_SPAN ::
      && (U32Key(m) in t.signatures <==> McId(m) in h.since)
      && (McId(m) in h.since ==> IsSignaturesRow(w.blocks[McId(m)].block, VsetAt(w, m - 1), t.signatures[U32Key(m)]))
  }

  ghost predicate IsSignaturesRow(b: Block, vset: ValidatorSet, row: StoredSignatures) {
    && row.vsetUtimeSince == vset.utimeSince
    && Prepared(b.signatures, vset) == Ok(row.cell)
  }

  ghost predicate IsIndexRow(w: World, h: History, key: ByteString, value: ByteString, id: BlockIdShort, tx: TxId) {
    && Survives(w, h, id.shard.workchain, tx, id) && Keyable(id) && w.blocks[id].refBy < U32_SPAN && InTxBounds(tx)
    && key == TxKey(id.shard.workchain, tx) && value == TxValue(id.shard, id.seqno, w.blocks[id].refBy)
  }

  /** Every index row is that of a transaction that survives, and tells its block. */
  ghost predicate SoundIndex(w: World, h: History, t: Tables) {
    forall key | key in t.transactions :: exists id, tx :: IsIndexRow(w, h, key, t.transactions[key], id, tx)
  }

  /** Every transaction that survives has an index row. */
  ghost predicate CompleteIndex(w: World, h: History, t: Tables) {
    forall workchain: int, tx: TxId {:trigger TxKey(workchain, tx)} | IsI8(workchain) && InTxBounds(tx) ::
      IsIndexed(w, h, workchain, tx) ==> TxKey(workchain, tx) in t.transactions
  }

  /** Masterchain block `m` takes a timing of this time, and no collection since it was stored has
      removed timings of that time. */
  ghost predicate IsTimedBy(w: World, h: History, time: nat, m: nat) {
    && McId(m) in h.since && McId(m) in w.blocks && m % 100 == 0 && w.blocks[McId(m)].block.genUtime == time
    && forall j: nat | h.since[McId(m)] <= j < |h.times| :: h.times[j] < time
  }

  ghost predicate IsTimingRow(w: World, h: History, key: ByteString, value: ByteString, m: nat) {
    && McId(m) in w.blocks && m < U32_SPAN && w.blocks[McId(m)].block.genUtime < U32_SPAN
    && IsTimedBy(w, h, w.blocks[McId(m)].block.genUtime, m)
    && key == U32Key(w.blocks[McId(m)].block.genUtime) && |value| == 4 && McSeqno(value) == m
  }

  /** Every timing is that of such a masterchain block. */
  ghost predicate SoundTimings(w: World, h: History, t: Tables) {
    forall key | key in t.timings :: exists m: nat :: IsTimingRow(w, h, key, t.timings[key], m)
  }

  ghost predicate IsTimed(w: World, h: History, time: nat) {
    exists m: nat :: IsTimedBy(w, h, time, m)
  }

  /** There is a timing exactly for the times of such masterchain blocks. */
  ghost predicate ExactTimings(w: World, h: History, t: Tables) {
    forall time: nat {:trigger U32Key(time)} | time < U32_SPAN :: U32Key(time) in t.timings <==> IsTimed(w, h, time)
  }

  /** The tables hold exactly what the history says. */
  ghost predicate TablesOk(w: World, h: History, t: Tables) {
    && WellFormed(t) && HistoryOk(w, h)
    && ExactRows(w, h, t) && RightSignatures(w, h, t)
    && SoundIndex(w, h, t) && CompleteIndex(w, h, t) && SoundTimings(w, h, t) && ExactTimings(w, h, t)
  }

  // --- One step of a history

  /** The history with one more block stored. */
  function WithBlock(h: History, id: BlockIdShort): History {
    h.(since := h.since[id := |h.collections|])
  }

  /** The history with one more collection. */
  function WithCollection(h: History, m: nat, until: nat): History {
    h.(collections := h.collections + [m], times := h.times + [until])
  }

  /** The masterchain block that a collection is bound by. */
  function BoundSeqno(bound: OutdatedBound): nat {
    if |bound.blocks| > 0 then bound.blocks[|bound.blocks| - 1].seqno else 0
  }

  function CollectedBy(h: History, bound: Option<OutdatedBound>): History {
    if bound.Some? then WithCollection(h, BoundSeqno(bound.value), bound.value.removeUntil) else h
  }

  lemma HasWith(w: World, h: History, id: BlockIdShort, other: BlockIdShort)
    ensures Has(w, WithBlock(h, id), other) <==> other == id || Has(w, h, other)
  {
  }

  lemma HasCollected(w: World, h: History, m: nat, until: nat, id: BlockIdShort)
    requires id in h.since ==> h.since[id] <= |h.collections|
    ensures Has(w, WithCollection(h, m, until), id) <==> Has(w, h, id) && !Takes(w, m, id)
  {
    var h' := WithCollection(h, m, until);
    if id in h.since {
      assert h'.collections[|h.collections|] == m;
      forall j: nat | h.since[id] <= j < |h.collections| ensures h'.collections[j] == h.collections[j] {
      }
    }
  }

  lemma SurvivesWith(w: World, h: History, id: BlockIdShort, workchain: int, tx: TxId, other: BlockIdShort)
    requires id in w.blocks
    ensures Survives(w, WithBlock(h, id), workchain, tx, other) <==>
              || (other == id && id.shard.workchain == workchain && tx in w.blocks[id].txs)
              || Survives(w, h, workchain, tx, other)
  {
  }

  lemma SurvivesCollected(w: World, h: History, m: nat, until: nat, workchain: int, tx: TxId, id: BlockIdShort)
    requires id in h.since ==> h.since[id] <= |h.collections|
    ensures Survives(w, WithCollection(h, m, until), workchain, tx, id) <==>
              Survives(w, h, workchain, tx, id) && !Reaches(w, m, tx.lt)
  {
    var h' := WithCollection(h, m, until);
    if id in h.since {
      assert h'.collections[|h.collections|] == m;
      forall j: nat | h.since[id] <= j < |h.collections| ensures h'.collections[j] == h.collections[j] {
      }
    }
  }

  // --- One write

  lemma KeyOfIsInjective(a: BlockIdShort, b: BlockIdShort)
    requires Keyable(a) && Keyable(b) && KeyOf(a) == KeyOf(b)
    ensures a == b
  {
    BlockKeyDecodes(a.shard, a.seqno);
    BlockKeyDecodes(b.shard, b.seqno);
  }

  lemma U32KeyIsInjective(m: nat, n: nat)
    requires m < U32_SPAN && n < U32_SPAN && U32Key(m) == U32Key(n)
    ensures m == n
  {
    SpanValues();
    BigEndianOrder(m, n, 4);
  }

  /** What a block of the chain needs for its batch. */
  ghost predicate CanWrite(w: World, id: BlockIdShort) {
    && id in w.blocks && LinkOk(w, id) && Keyable(id) && AllInBounds(w.blocks[id].txs)
    && (w.blocks[id].block.IsMasterchain() ==> Prepared(w.blocks[id].block.signatures, SigningVset(w, id)).Ok?)
  }

  /** The tables with the rows of a block of the chain. */
  ghost function WrittenOf(w: World, t: Tables, id: BlockIdShort, pruned: Cell, pivot: Cell): Tables
    requires CanWrite(w, id)
  {
    var l := w.blocks[id];
    Written(t, l.block, l.refBy, l.txs, pruned, pivot, SignaturesRow(l.block, SigningVset(w, id)))
  }

  lemma WrittenRowsOf(w: World, h: History, t: Tables, id: BlockIdShort, pruned: Cell, pivot: Cell, other: BlockIdShort)
    requires CanWrite(w, id) && other in w.blocks && Keyable(other) && RowsOk(w, h, t, other)
    requires IsPrunedBlock(w.blocks[id].block.root, pruned)
    requires McProofs.IsPivot(w.blocks[id].block.root, w.blocks[id].block.IsMasterchain(), pivot)
    ensures RowsOk(w, WithBlock(h, id), WrittenOf(w, t, id, pruned, pivot), other)
  {
    HasWith(w, h, id, other);
    if KeyOf(other) == KeyOf(id) {
      KeyOfIsInjective(other, id);
    }
  }

  lemma WrittenRows(w: World, h: History, t: Tables, id: BlockIdShort, pruned: Cell, pivot: Cell)
    requires CanWrite(w, id) && ExactRows(w, h, t)
    requires IsPrunedBlock(w.blocks[id].block.root, pruned)
    requires McProofs.IsPivot(w.blocks[id].block.root, w.blocks[id].block.IsMasterchain(), pivot)
    ensures ExactRows(w, WithBlock(h, id), WrittenOf(w, t, id, pruned, pivot))
  {
    forall other | other in w.blocks && Keyable(other)
      ensures RowsOk(w, WithBlock(h, id), WrittenOf(w, t, id, pruned, pivot), other)
    {
      assert RowsOk(w, h, t, other);
      WrittenRowsOf(w, h, t, id, pruned, pivot, other);
    }
  }

  lemma WrittenSignatures(w: World, h: History, t: Tables, id: BlockIdShort, pruned: Cell, pivot: Cell)
    requires CanWrite(w, id) && RightSignatures(w, h, t)
    ensures RightSignatures(w, WithBlock(h, id), WrittenOf(w, t, id, pruned, pivot))
  {
    var b, h', t' := w.blocks[id].block, WithBlock(h, id), WrittenOf(w, t, id, pruned, pivot);
    forall m: nat | McId(m) in w.blocks && 0 < m < U32_SPAN
      ensures U32Key(m) in t'.signatures <==> McId(m) in h'.since
      ensures McId(m) in h'.since ==>
                IsSignaturesRow(w.blocks[McId(m)].block, VsetAt(w, m - 1), t'.signatures[U32Key(m)])
    {
      if b.IsMasterchain() && U32Key(m) == U32Key(id.seqno) {
        U32KeyIsInjective(m, id.seqno);
      }
    }
  }

  lemma WrittenIndexIsSound(w: World, h: History, t: Tables, id: BlockIdShort, pruned: Cell, pivot: Cell)
    requires CanWrite(w, id) && SoundIndex(w, h, t)
    ensures SoundIndex(w, WithBlock(h, id), WrittenOf(w, t, id, pruned, pivot))
  {
    var txs, workchain, value := w.blocks[id].txs, id.shard.workchain, TxValue(id.shard, id.seqno, w.blocks[id].refBy);
    var h', index := WithBlock(h, id), WrittenOf(w, t, id, pruned, pivot).transactions;
    forall key | key in index ensures exists other, tx :: IsIndexRow(w, h', key, index[key], other, tx) {
      WithTxsExact(t.transactions, workchain, txs, value, key);
      if tx: TxId :| tx in txs && key == TxKey(workchain, tx) {
        SurvivesWith(w, h, id, workchain, tx, id);
        assert IsIndexRow(w, h', key, index[key], id, tx);
      } else {
        var other, tx :| IsIndexRow(w, h, key, t.transactions[key], other, tx);
        SurvivesWith(w, h, id, other.shard.workchain, tx, other);
        assert IsIndexRow(w, h', key, index[key], other, tx);
      }
    }
  }

  lemma WrittenIndexHas(w: World, h: History, t: Tables, id: BlockIdShort, pruned: Cell, pivot: Cell,
                        workchain: int, tx: TxId)
    requires CanWrite(w, id) && IsI8(workchain) && InTxBounds(tx)
    requires IsIndexed(w, h, workchain, tx) ==> TxKey(workchain, tx) in t.transactions
    ensures IsIndexed(w, WithBlock(h, id), workchain, tx) ==>
              TxKey(workchain, tx) in WrittenOf(w, t, id, pruned, pivot).transactions
  {
    var value := TxValue(id.shard, id.seqno, w.blocks[id].refBy);
    WithTxsExact(t.transactions, id.shard.workchain, w.blocks[id].txs, value, TxKey(workchain, tx));
    if other :| Survives(w, WithBlock(h, id), workchain, tx, other) {
      SurvivesWith(w, h, id, workchain, tx, other);
    }
  }

  lemma WrittenIndexIsComplete(w: World, h: History, t: Tables, id: BlockIdShort, pruned: Cell, pivot: Cell)
    requires CanWrite(w, id) && CompleteIndex(w, h, t)
    ensures CompleteIndex(w, WithBlock(h, id), WrittenOf(w, t, id, pruned, pivot))
  {
    forall workchain: int, tx: TxId | IsI8(workchain) && InTxBounds(tx)
      ensures IsIndexed(w, WithBlock(h, id), workchain, tx) ==>
                TxKey(workchain, tx) in WrittenOf(w, t, id, pruned, pivot).transactions
    {
      WrittenIndexHas(w, h, t, id, pruned, pivot, workchain, tx);
    }
  }

  lemma TimedByWith(w: World, h: History, id: BlockIdShort, time: nat, m: nat)
    requires HistoryOk(w, h) && id in w.blocks
    ensures IsTimedBy(w, WithBlock(h, id), time, m) <==>
              || (McId(m) == id && m % 100 == 0 && w.blocks[id].block.genUtime == time)
              || (McId(m) != id && IsTimedBy(w, h, time, m))
  {
    assert McId(m) in h.since ==> h.since[McId(m)] <= |h.times|;
  }

  lemma TimedWith(w: World, h: History, id: BlockIdShort, time: nat)
    requires CanWrite(w, id) && HistoryOk(w, h)
    ensures var b := w.blocks[id].block;
            IsTimed(w, WithBlock(h, id), time) <==> (TakesTiming(b) && b.genUtime == time) || IsTimed(w, h, time)
  {
    var b, h' := w.blocks[id].block, WithBlock(h, id);
    if m: nat :| IsTimedBy(w, h, time, m) {
      TimedByWith(w, h, id, time, m);
    }
    if TakesTiming(b) && b.genUtime == time {
      TimedByWith(w, h, id, time, id.seqno);
    }
    if m: nat :| IsTimedBy(w, h', time, m) {
      TimedByWith(w, h, id, time, m);
    }
  }

  lemma WrittenTimings(w: World, h: History, t: Tables, id: BlockIdShort, pruned: Cell, pivot: Cell)
    requires CanWrite(w, id) && HistoryOk(w, h) && SoundTimings(w, h, t)
    ensures SoundTimings(w, WithBlock(h, id), WrittenOf(w, t, id, pruned, pivot))
  {
    var b, h', t' := w.blocks[id].block, WithBlock(h, id), WrittenOf(w, t, id, pruned, pivot);
    forall key | key in t'.timings ensures exists m: nat :: IsTimingRow(w, h', key, t'.timings[key], m) {
      if TakesTiming(b) && key == U32Key(b.genUtime) {
        SpanValues();
        LittleEndianRoundTrip(id.seqno, 4);
        TimedByWith(w, h, id, b.genUtime, id.seqno);
        assert IsTimingRow(w, h', key, t'.timings[key], id.seqno);
      } else {
        var m: nat :| IsTimingRow(w, h, key, t.timings[key], m);
        TimedByWith(w, h, id, w.blocks[McId(m)].block.genUtime, m);
        assert IsTimingRow(w, h', key, t'.timings[key], m);
      }
    }
  }

  lemma WrittenTimingsExactly(w: World, h: History, t: Tables, id: BlockIdShort, pruned: Cell, pivot: Cell)
    requires CanWrite(w, id) && HistoryOk(w, h) && ExactTimings(w, h, t)
    ensures ExactTimings(w, WithBlock(h, id), WrittenOf(w, t, id, pruned, pivot))
  {
    var b, h', t' := w.blocks[id].block, WithBlock(h, id), WrittenOf(w, t, id, pruned, pivot);
    forall time: nat | time < U32_SPAN ensures U32Key(time) in t'.timings <==> IsTimed(w, h', time) {
      TimedWith(w, h, id, time);
      if TakesTiming(b) && U32Key(time) == U32Key(b.genUtime) {
        U32KeyIsInjective(time, b.genUtime);
      }
    }
  }

  lemma WrittenKeepsTables(w: World, h: History, t: Tables, id: BlockIdShort, pruned: Cell, pivot: Cell)
    requires CanWrite(w, id) && TablesOk(w, h, t)
    requires IsPrunedBlock(w.blocks[id].block.root, pruned)
    requires McProofs.IsPivot(w.blocks[id].block.root, w.blocks[id].block.IsMasterchain(), pivot)
    ensures TablesOk(w, WithBlock(h, id), WrittenOf(w, t, id, pruned, pivot))
  {
    WrittenRows(w, h, t, id, pruned, pivot);
    WrittenSignatures(w, h, t, id, pruned, pivot);
    WrittenIndexIsSound(w, h, t, id, pruned, pivot);
    WrittenIndexIsComplete(w, h, t, id, pruned, pivot);
    WrittenTimings(w, h, t, id, pruned, pivot);
    WrittenTimingsExactly(w, h, t, id, pruned, pivot);
    var l := w.blocks[id];
    WrittenIsWellFormed(t, l.block, l.refBy, l.txs, pruned, pivot, SignaturesRow(l.block, SigningVset(w, id)));
  }

  // --- One collection

  /** What a collection is bound by: the tops and the end time of a masterchain block. */
  ghost predicate IsBoundAt(w: World, bound: OutdatedBound, m: nat) {
    && McId(m) in w.blocks && m < U32_SPAN
    && BoundsOk(bound)
    && bound.lt == w.blocks[McId(m)].bounds.endLt && bound.blocks == w.blocks[McId(m)].bounds.shardIds + [McId(m)]
    && w.blocks[McId(m)].block.genUtime <= bound.removeUntil && bound.removeUntil + 1 < U32_SPAN
  }

  lemma SeqnoOfBound(w: World, bound: OutdatedBound, m: nat)
    requires IsBoundAt(w, bound, m)
    ensures BoundSeqno(bound) == m
  {
  }

  lemma CollectedRow<V>(w: World, table: map<ByteString, V>, bound: OutdatedBound, m: nat, id: BlockIdShort)
    requires IsBoundAt(w, bound, m) && Keyable(id)
    ensures var left := WithoutBlocks(table, bound.blocks);
            && (KeyOf(id) in left <==> KeyOf(id) in table && !Takes(w, m, id))
            && (KeyOf(id) in left ==> left[KeyOf(id)] == table[KeyOf(id)])
  {
    WithoutBlocksExact(table, bound.blocks, id);
    if Takes(w, m, id) {
      var b :| b in bound.blocks && IsAbove(b, id);
    } else {
      forall b | b in bound.blocks && b.shard == id.shard && b.seqno + 1 < U32_SPAN ensures id.seqno > b.seqno {
        assert !IsAbove(b, id);
      }
    }
  }

  lemma CollectedRowsOf(w: World, h: History, t: Tables, bound: OutdatedBound, m: nat, id: BlockIdShort)
    requires IsBoundAt(w, bound, m) && HistoryOk(w, h) && id in w.blocks && Keyable(id) && RowsOk(w, h, t, id)
    ensures RowsOk(w, WithCollection(h, m, bound.removeUntil), WithoutOutdated(t, Some(bound)), id)
  {
    HasCollected(w, h, m, bound.removeUntil, id);
    CollectedRow(w, t.prunedBlocks, bound, m, id);
    CollectedRow(w, t.pivotBlocks, bound, m, id);
  }

  lemma CollectedRows(w: World, h: History, t: Tables, bound: OutdatedBound, m: nat)
    requires IsBoundAt(w, bound, m) && HistoryOk(w, h) && ExactRows(w, h, t)
    ensures ExactRows(w, WithCollection(h, m, bound.removeUntil), WithoutOutdated(t, Some(bound)))
  {
    forall id | id in w.blocks && Keyable(id)
      ensures RowsOk(w, WithCollection(h, m, bound.removeUntil), WithoutOutdated(t, Some(bound)), id)
    {
      assert RowsOk(w, h, t, id);
      CollectedRowsOf(w, h, t, bound, m, id);
    }
  }

  /** A collection leaves exactly the index rows after its end time. */
  lemma CollectedRange(w: World, t: Tables, bound: OutdatedBound, m: nat, workchain: int, tx: TxId)
    requires IsBoundAt(w, bound, m) && LinkOk(w, McId(m)) && IsI8(workchain) && InTxBounds(tx)
    ensures var key, left := TxKey(workchain, tx), WithoutOutdated(t, Some(bound)).transactions;
            && (key in left <==> key in t.transactions && !Reaches(w, m, tx.lt))
            && (key in left ==> left[key] == t.transactions[key])
  {
    TxRangeExact(workchain, tx, bound.lt);
  }

  lemma CollectedIndexIsSound(w: World, h: History, t: Tables, bound: OutdatedBound, m: nat)
    requires LinksOk(w) && IsBoundAt(w, bound, m) && HistoryOk(w, h) && SoundIndex(w, h, t)
    ensures SoundIndex(w, WithCollection(h, m, bound.removeUntil), WithoutOutdated(t, Some(bound)))
  {
    var h', index := WithCollection(h, m, bound.removeUntil), WithoutOutdated(t, Some(bound)).transactions;
    assert LinkOk(w, McId(m));
    forall key | key in index ensures exists id, tx :: IsIndexRow(w, h', key, index[key], id, tx) {
      var id, tx :| IsIndexRow(w, h, key, t.transactions[key], id, tx);
      CollectedRange(w, t, bound, m, id.shard.workchain, tx);
      SurvivesCollected(w, h, m, bound.removeUntil, id.shard.workchain, tx, id);
      assert IsIndexRow(w, h', key, index[key], id, tx);
    }
  }

  lemma CollectedIndexHas(w: World, h: History, t: Tables, bound: OutdatedBound, m: nat, workchain: int, tx: TxId)
    requires IsBoundAt(w, bound, m) && LinkOk(w, McId(m)) && HistoryOk(w, h) && IsI8(workchain) && InTxBounds(tx)
    requires IsIndexed(w, h, workchain, tx) ==> TxKey(workchain, tx) in t.transactions
    ensures IsIndexed(w, WithCollection(h, m, bound.removeUntil), workchain, tx) ==>
              TxKey(workchain, tx) in WithoutOutdated(t, Some(bound)).transactions
  {
    CollectedRange(w, t, bound, m, workchain, tx);
    if id :| Survives(w, WithCollection(h, m, bound.removeUntil), workchain, tx, id) {
      SurvivesCollected(w, h, m, bound.removeUntil, workchain, tx, id);
    }
  }

  lemma CollectedIndexIsComplete(w: World, h: History, t: Tables, bound: OutdatedBound, m: nat)
    requires LinksOk(w) && IsBoundAt(w, bound, m) && HistoryOk(w, h) && CompleteIndex(w, h, t)
    ensures CompleteIndex(w, WithCollection(h, m, bound.removeUntil), WithoutOutdated(t, Some(bound)))
  {
    assert LinkOk(w, McId(m));
    forall workchain: int, tx: TxId | IsI8(workchain) && InTxBounds(tx)
      ensures IsIndexed(w, WithCollection(h, m, bound.removeUntil), workchain, tx) ==>
                TxKey(workchain, tx) in WithoutOutdated(t, Some(bound)).transactions
    {
      CollectedIndexHas(w, h, t, bound, m, workchain, tx);
    }
  }

  lemma CollectedTimings(w: World, h: History, t: Tables, bound: OutdatedBound, m: nat)
    requires IsBoundAt(w, bound, m) && HistoryOk(w, h) && SoundTimings(w, h, t)
    ensures SoundTimings(w, WithCollection(h, m, bound.removeUntil), WithoutOutdated(t, Some(bound)))
  {
    var h', t' := WithCollection(h, m, bound.removeUntil), WithoutOutdated(t, Some(bound));
    forall key | key in t'.timings ensures exists k: nat :: IsTimingRow(w, h', key, t'.timings[key], k) {
      var k: nat :| IsTimingRow(w, h, key, t.timings[key], k);
      TimingRangeExact(w.blocks[McId(k)].block.genUtime, bound.removeUntil);
      TimedByCollected(w, h, m, bound.removeUntil, w.blocks[McId(k)].block.genUtime, k);
      assert IsTimingRow(w, h', key, t'.timings[key], k);
    }
  }

  lemma TimedByCollected(w: World, h: History, m: nat, until: nat, time: nat, k: nat)
    requires HistoryOk(w, h)
    ensures IsTimedBy(w, WithCollection(h, m, until), time, k) <==> IsTimedBy(w, h, time, k) && until < time
  {
    var h' := WithCollection(h, m, until);
    assert h'.times[|h.times|] == until;
    assert forall j: nat | j < |h.times| :: h'.times[j] == h.times[j];
  }

  lemma TimedCollected(w: World, h: History, m: nat, until: nat, time: nat)
    requires HistoryOk(w, h)
    ensures IsTimed(w, WithCollection(h, m, until), time) <==> IsTimed(w, h, time) && until < time
  {
    var h' := WithCollection(h, m, until);
    if k: nat :| IsTimedBy(w, h', time, k) {
      TimedByCollected(w, h, m, until, time, k);
    }
    if k: nat :| IsTimedBy(w, h, time, k) {
      TimedByCollected(w, h, m, until, time, k);
    }
  }

  lemma CollectedTimingsExactly(w: World, h: History, t: Tables, bound: OutdatedBound, m: nat)
    requires IsBoundAt(w, bound, m) && HistoryOk(w, h) && ExactTimings(w, h, t)
    ensures ExactTimings(w, WithCollection(h, m, bound.removeUntil), WithoutOutdated(t, Some(bound)))
  {
    var h', t' := WithCollection(h, m, bound.removeUntil), WithoutOutdated(t, Some(bound));
    forall time: nat | time < U32_SPAN ensures U32Key(time) in t'.timings <==> IsTimed(w, h', time) {
      TimedCollected(w, h, m, bound.removeUntil, time);
      TimingRangeExact(time, bound.removeUntil);
    }
  }

  lemma CollectedIsWellFormed(t: Tables, bound: OutdatedBound)
    requires BoundsOk(bound) && WellFormed(t)
    ensures WellFormed(WithoutOutdated(t, Some(bound)))
  {
  }

  lemma CollectedKeepsTables(w: World, h: History, t: Tables, bound: OutdatedBound, m: nat)
    requires LinksOk(w) && TablesOk(w, h, t) && IsBoundAt(w, bound, m)
    ensures TablesOk(w, WithCollection(h, m, bound.removeUntil), WithoutOutdated(t, Some(bound)))
  {
    CollectedIsWellFormed(t, bound);
    CollectedRows(w, h, t, bound, m);
    CollectedIndexIsSound(w, h, t, bound, m);
    CollectedIndexIsComplete(w, h, t, bound, m);
    CollectedTimings(w, h, t, bound, m);
    CollectedTimingsExactly(w, h, t, bound, m);
  }

  // --- The bound of a collection

  /** A pivot row of a masterchain block tells the block's own bounds. */
  lemma BoundsOfPivot(l: Linked, row: StoredBlock)
    requires ContentOk(l) && l.block.id.shard == MASTERCHAIN && IsPivotRow(l.block, row)
    ensures McProofs.LatestShardBlocks(row.cell) == Ok(l.bounds)
    ensures IsBlock(row.cell) && IsInfo(row.cell.refs[0])
  {
    McProofs.PivotOpens(l.block.root, row.cell);
  }

  /** Every timing tells a stored masterchain block. */
  lemma TimingTells(w: World, h: History, t: Tables, key: ByteString) returns (m: nat)
    requires LinksOk(w) && SoundTimings(w, h, t) && WellFormed(t) && key in t.timings
    ensures IsTimingRow(w, h, key, t.timings[key], m) && McSeqno(t.timings[key]) == m
    ensures McId(m) in w.blocks && LinkOk(w, McId(m))
  {
    m :| IsTimingRow(w, h, key, t.timings[key], m);
    assert LinkOk(w, McId(m));
  }

  /** Every timing points at a stored masterchain block; its pivot is there exactly if no collection
      since takes it, and then tells the block's own bounds. */
  lemma TimingsPointAtPivots(w: World, h: History, t: Tables, key: ByteString) returns (m: nat)
    requires BlocksOk(w) && TablesOk(w, h, t) && key in t.timings
    ensures IsTimingRow(w, h, key, t.timings[key], m) && McSeqno(t.timings[key]) == m && McId(m) in w.blocks
    ensures BlockKey(MASTERCHAIN, m) in t.pivotBlocks <==> Has(w, h, McId(m))
    ensures BlockKey(MASTERCHAIN, m) in t.pivotBlocks ==>
              McProofs.LatestShardBlocks(t.pivotBlocks[BlockKey(MASTERCHAIN, m)].cell) == Ok(w.blocks[McId(m)].bounds)
  {
    m := TimingTells(w, h, t, key);
    assert ContentOk(w.blocks[McId(m)]) && RowsOk(w, h, t, McId(m));
    assert KeyOf(McId(m)) == BlockKey(MASTERCHAIN, m);
    if KeyOf(McId(m)) in t.pivotBlocks {
      BoundsOfPivot(w.blocks[McId(m)], t.pivotBlocks[KeyOf(McId(m))]);
    }
  }

  /** A collection is bound by a stored masterchain block that is old enough, the one that the last
      old enough timing tells. */
  lemma BoundIsAtStoredBlock(w: World, h: History, t: Tables, removeUntil: nat, bound: OutdatedBound)
    returns (key: ByteString, m: nat)
    requires BlocksOk(w) && TablesOk(w, h, t)
    requires removeUntil + 1 < U32_SPAN && BoundsOk(bound) && IsOutdatedBound(t, removeUntil, Some(bound))
    ensures IsLastTiming(t.timings, removeUntil, key) && McSeqno(t.timings[key]) == m
    ensures McId(m) in h.since && IsBoundAt(w, bound, m) && bound.removeUntil == removeUntil
  {
    key :| IsLastTiming(t.timings, removeUntil, key) && BoundFrom(t, removeUntil, McSeqno(t.timings[key]), bound);
    m := TimingsPointAtPivots(w, h, t, key);
    SpanValues();
    BigEndianOrder(removeUntil, w.blocks[McId(m)].block.genUtime, 4);
  }

  /** No collection ever meets a pivot it cannot read. */
  lemma BoundAlwaysReads(w: World, h: History, t: Tables, removeUntil: nat)
    requires BlocksOk(w) && TablesOk(w, h, t) && removeUntil < U32_SPAN
    ensures BoundReads(t, removeUntil)
  {
    forall key | IsLastTiming(t.timings, removeUntil, key)
      ensures var mcKey := BlockKey(MASTERCHAIN, McSeqno(t.timings[key]));
              mcKey in t.pivotBlocks ==> McProofs.LatestShardBlocks(t.pivotBlocks[mcKey].cell).Ok?
    {
      var m := TimingsPointAtPivots(w, h, t, key);
    }
  }

  // --- One batch

  /** A masterchain block that is at least as old as proofs are kept. */
  ghost predicate IsOld(w: World, m: nat, now: nat) {
    McId(m) in w.blocks && w.blocks[McId(m)].block.genUtime <= SaturatingSub(now, w.ttl)
  }

  /** The parts of a stored batch of a block of the chain. */
  lemma BatchParts(w: World, t: Tables, t': Tables, id: BlockIdShort, now: nat, bound: Option<OutdatedBound>)
    returns (pruned: Cell, pivot: Cell)
    requires id in w.blocks && LinkOk(w, id) && ContentOk(w.blocks[id]) && IsI8(id.shard.workchain)
    requires WellFormed(t) && now + 1 < U32_SPAN
    requires Stores(t, t', w.blocks[id].block, w.blocks[id].refBy, SigningVset(w, id), now, w.ttl, bound)
    ensures CanWrite(w, id) && IsPrunedBlock(w.blocks[id].block.root, pruned)
    ensures McProofs.IsPivot(w.blocks[id].block.root, w.blocks[id].block.IsMasterchain(), pivot)
    ensures if TakesTiming(w.blocks[id].block) then IsOutdatedBound(t, SaturatingSub(now, w.ttl), bound)
            else bound.None?
    ensures bound.Some? ==> BoundsOk(bound.value)
    ensures t' == WithoutOutdated(WrittenOf(w, t, id, pruned, pivot), bound)
  {
    var l, vset := w.blocks[id], SigningVset(w, id);
    pruned, pivot :| StoresWith(t, t', l.block, l.refBy, vset, now, w.ttl, pruned, pivot, bound);
  }

  /** The collection of a batch, if it brings one, is bound by an old masterchain block stored before. */
  ghost predicate BoundOk(w: World, h: History, now: nat, bound: Option<OutdatedBound>) {
    bound.Some? ==>
      var m := BoundSeqno(bound.value);
      && McId(m) in h.since && IsBoundAt(w, bound.value, m) && IsOld(w, m, now)
      && bound.value.removeUntil == SaturatingSub(now, w.ttl)
  }

  lemma OutdatedBoundIsOk(w: World, h: History, t: Tables, now: nat, bound: OutdatedBound)
    requires BlocksOk(w) && TablesOk(w, h, t) && now + 1 < U32_SPAN
    requires BoundsOk(bound) && IsOutdatedBound(t, SaturatingSub(now, w.ttl), Some(bound))
    ensures BoundOk(w, h, now, Some(bound))
  {
    var key, m := BoundIsAtStoredBlock(w, h, t, SaturatingSub(now, w.ttl), bound);
    SeqnoOfBound(w, bound, m);
  }

  lemma CollectionKeepsTables(w: World, h: History, older: History, t: Tables, now: nat, bound: Option<OutdatedBound>)
    requires LinksOk(w) && TablesOk(w, h, t) && BoundOk(w, older, now, bound)
    ensures TablesOk(w, CollectedBy(h, bound), WithoutOutdated(t, bound))
  {
    if bound.Some? {
      CollectedKeepsTables(w, h, t, bound.value, BoundSeqno(bound.value));
    }
  }

  lemma BatchBound(w: World, h: History, t: Tables, t': Tables, id: BlockIdShort, now: nat,
                   bound: Option<OutdatedBound>)
    requires BlocksOk(w) && id in w.blocks && LinkOk(w, id) && IsI8(id.shard.workchain) && now + 1 < U32_SPAN
    requires TablesOk(w, h, t)
    requires Stores(t, t', w.blocks[id].block, w.blocks[id].refBy, SigningVset(w, id), now, w.ttl, bound)
    ensures BoundOk(w, h, now, bound) && (bound.Some? ==> TakesTiming(w.blocks[id].block))
  {
    assert ContentOk(w.blocks[id]);
    var pruned, pivot := BatchParts(w, t, t', id, now, bound);
    if bound.Some? {
      OutdatedBoundIsOk(w, h, t, now, bound.value);
    }
  }

  /** Storing a block keeps the tables at what the history says; the collection it may bring is bound by
      some old masterchain block stored before. */
  lemma StoreKeepsTables(w: World, h: History, t: Tables, t': Tables, id: BlockIdShort, now: nat,
                         bound: Option<OutdatedBound>)
    requires BlocksOk(w) && id in w.blocks && LinkOk(w, id) && IsI8(id.shard.workchain) && now + 1 < U32_SPAN
    requires TablesOk(w, h, t)
    requires Stores(t, t', w.blocks[id].block, w.blocks[id].refBy, SigningVset(w, id), now, w.ttl, bound)
    ensures TablesOk(w, CollectedBy(WithBlock(h, id), bound), t')
    ensures BoundOk(w, h, now, bound) && (bound.Some? ==> TakesTiming(w.blocks[id].block))
  {
    assert ContentOk(w.blocks[id]);
    BatchBound(w, h, t, t', id, now, bound);
    var pruned, pivot := BatchParts(w, t, t', id, now, bound);
    WrittenKeepsTables(w, h, t, id, pruned, pivot);
    CollectionKeepsTables(w, WithBlock(h, id), h, WrittenOf(w, t, id, pruned, pivot), now, bound);
  }
}
