/**
 The proof storage of the light node: five tables of byte keys, one atomic batch per block, garbage
 collection by age, and a snapshot from which proof chains are built. Bags of cells are stored
 losslessly, so a row holds the cell itself.
 */
module ProofStorage {
  import opened Results
  import opened Bytes
  import opened Cells
  import opened BitStrings
  import opened Blocks
  import opened StorageKeys
  import opened Signatures
  import Dicts
  import TxProofs
  import McProofs
  import ProofChain

  const STORE_TIMINGS_STEP: nat := 100

  datatype StoredBlock = StoredBlock(fileHash: nat, cell: Cell)

  datatype StoredSignatures = StoredSignatures(vsetUtimeSince: nat, cell: Cell)

  datatype Tables = Tables(
    prunedBlocks: map<ByteString, StoredBlock>,
    pivotBlocks: map<ByteString, StoredBlock>,
    transactions: map<ByteString, ByteString>,
    signatures: map<ByteString, StoredSignatures>,
    timings: map<ByteString, ByteString>)

  const EMPTY: Tables := Tables(map[], map[], map[], map[], map[])

  /** A block as the node hands it over; `keyVset` is the validator set a key block sets. */
  datatype Block = Block(
    id: BlockIdShort,
    fileHash: nat,
    root: Cell,
    genUtime: nat,
    signatures: seq<Result<BlockSignature, Error>>,
    keyVset: Option<ValidatorSet>)
  {
    predicate IsMasterchain() {
      id.shard.workchain == -1
    }
  }

  datatype OutdatedBound = OutdatedBound(removeUntil: nat, lt: nat, blocks: seq<BlockIdShort>)

  datatype StorageError =
    | NoCurrentVset | InvalidBlock(error: Error)
    | BlockNotFound | TxNotFound | SignaturesNotFound | RefMcBlockNotFound
    | StrangeShardDescription | PivotNotFound | TaskPanicked

  predicate NumbersOk(b: Block) {
    && McProofs.ValidShard(b.id.shard) && 0 < b.id.seqno && b.id.seqno + 1 < U32_SPAN && b.genUtime < U32_SPAN
    && (b.IsMasterchain() <==> b.id.shard == MASTERCHAIN)
  }

  /** What holds of every block that passed validation. */
  predicate ValidBlock(b: Block) {
    NumbersOk(b) && AccountsMatchKeys(b.root)
  }

  predicate Keyable(id: BlockIdShort) {
    InKeyBounds(id.shard, id.seqno)
  }

  function KeyOf(id: BlockIdShort): ByteString
    requires Keyable(id)
  {
    BlockKey(id.shard, id.seqno)
  }

  /** An index value as `store_block` writes it; `build_proof` unwraps it without checks. */
  predicate IsIndexValue(value: ByteString) {
    |value| == BLOCK_KEY_LEN + 4 && ShardOfKey(value).prefix > 0 && SeqnoOfKey(value) + 1 < U32_SPAN
  }

  predicate WellFormed(t: Tables) {
    && (forall k | k in t.transactions :: IsIndexValue(t.transactions[k]))
    && (forall k | k in t.timings :: |t.timings[k]| == 4)
  }

  // --- Batches

  function SaturatingSub(a: nat, b: nat): nat {
    if a > b then a - b else 0
  }

  function DeleteRange<V>(m: map<ByteString, V>, from: ByteString, to: ByteString): map<ByteString, V> {
    map k | k in m && !InRange(k, from, to) :: m[k]
  }

  predicate AllInBounds(txs: seq<TxId>) {
    forall tx | tx in txs :: InTxBounds(tx)
  }

  /** The index with a row for each transaction. */
  function WithTxs(m: map<ByteString, ByteString>, workchain: int, txs: seq<TxId>,
                   value: ByteString): map<ByteString, ByteString>
    requires AllInBounds(txs)
  {
    if txs == [] then m
    else WithTxs(m, workchain, txs[..|txs| - 1], value)[TxKey(workchain, txs[|txs| - 1]) := value]
  }

  predicate BoundsOk(bound: OutdatedBound) {
    && bound.removeUntil < U32_SPAN && bound.lt < U64_SPAN
    && AllKeyable(bound.blocks)
  }

  /** Blocks that a collection looks at have keys. */
  predicate AllKeyable(blocks: seq<BlockIdShort>) {
    forall id | id in blocks && IsI8(id.shard.workchain) :: Keyable(id)
  }

  /** Deletes the rows of each shard up to its bound (`iter_block_keys`). */
  function WithoutBlocks<V>(m: map<ByteString, V>, blocks: seq<BlockIdShort>): map<ByteString, V>
    requires AllKeyable(blocks)
  {
    if blocks == [] then m
    else
      var rest := WithoutBlocks(m, blocks[..|blocks| - 1]);
      var id := blocks[|blocks| - 1];
      assert id in blocks;
      if IsI8(id.shard.workchain)
      then
        assert Keyable(id);
        DeleteRange(rest, BlockKey(id.shard, 0), BlockRangeEnd(id.shard, id.seqno))
      else rest
  }

  /** The batch of one block: its index, pruned block, pivot, and for masterchain blocks its
      signatures and, every hundredth one, its time. */
  function Written(t: Tables, b: Block, refByMcSeqno: nat, txs: seq<TxId>,
                   pruned: Cell, pivot: Cell, signatures: Option<StoredSignatures>): Tables
    requires Keyable(b.id) && refByMcSeqno < U32_SPAN && b.genUtime < U32_SPAN && AllInBounds(txs)
  {
    Tables(
      t.prunedBlocks[KeyOf(b.id) := StoredBlock(b.fileHash, pruned)],
      t.pivotBlocks[KeyOf(b.id) := StoredBlock(b.fileHash, pivot)],
      WithTxs(t.transactions, b.id.shard.workchain, txs, TxValue(b.id.shard, b.id.seqno, refByMcSeqno)),
      if signatures.Some? then t.signatures[U32Key(b.id.seqno) := signatures.value] else t.signatures,
      if TakesTiming(b) then t.timings[U32Key(b.genUtime) := SeqnoValue(b.id.seqno)] else t.timings)
  }

  predicate TakesTiming(b: Block) {
    b.IsMasterchain() && b.id.seqno % STORE_TIMINGS_STEP == 0
  }

  /** The deletions a bound adds to a batch. The signatures table is never collected. */
  function WithoutOutdated(t: Tables, bound: Option<OutdatedBound>): Tables
    requires bound.Some? ==> BoundsOk(bound.value)
  {
    if bound.None? then t
    else
      var b := bound.value;
      Tables(
        WithoutBlocks(t.prunedBlocks, b.blocks),
        WithoutBlocks(t.pivotBlocks, b.blocks),
        DeleteRange(t.transactions, Zeros(TX_KEY_LEN), TxRangeEnd(b.lt)),
        t.signatures,
        DeleteRange(t.timings, Zeros(4), TimingRangeEnd(b.removeUntil)))
  }

  /** `key` is the last timing that is not after `time` (`seek_for_prev`). */
  ghost predicate IsLastTiming(timings: map<ByteString, ByteString>, time: nat, key: ByteString)
    requires time < U32_SPAN
  {
    && key in timings && !Below(U32Key(time), key)
    && forall k | k in timings && !Below(U32Key(time), k) :: !Below(key, k)
  }

  /** What `find_outdated_bound` answers: the tops and the end time of the masterchain block of the
      last timing that is old enough, if its pivot is there. */
  ghost predicate IsOutdatedBound(t: Tables, removeUntil: nat, bound: Option<OutdatedBound>)
    requires WellFormed(t) && removeUntil < U32_SPAN
  {
    match bound
    case None =>
      forall key | IsLastTiming(t.timings, removeUntil, key) ::
        BlockKey(MASTERCHAIN, McSeqno(t.timings[key])) !in t.pivotBlocks
    case Some(b) =>
      exists key ::
        && IsLastTiming(t.timings, removeUntil, key)
        && BoundFrom(t, removeUntil, McSeqno(t.timings[key]), b)
  }

  function SeqnoValue(seqno: nat): (v: ByteString)
    requires seqno < U32_SPAN
    ensures |v| == 4
  {
    SpanValues();
    LittleEndian(seqno, 4)
  }

  /** The value of a timing: the seqno, little-endian. */
  lemma SeqnoValueLayout(seqno: nat, i: nat)
    requires seqno < U32_SPAN && i < 4
    ensures SeqnoValue(seqno)[i] == DigitAt(seqno, i)
  {
    SpanValues();
    LittleEndianDigits(seqno, 4, i);
  }

  function McSeqno(value: ByteString): (n: nat)
    requires |value| == 4
    ensures n < U32_SPAN
  {
    SpanValues();
    FromLittleEndian(value)
  }

  predicate BoundFrom(t: Tables, removeUntil: nat, seqno: nat, bound: OutdatedBound)
    requires seqno < U32_SPAN
  {
    var key := BlockKey(MASTERCHAIN, seqno);
    && key in t.pivotBlocks
    && var info := McProofs.LatestShardBlocks(t.pivotBlocks[key].cell);
       && info.Ok?
       && bound == OutdatedBound(removeUntil, info.value.endLt,
                                 info.value.shardIds + [BlockIdShort(MASTERCHAIN, seqno)])
  }

  /** What a block needs of its batch: its transactions can be listed, and the signatures of a
      masterchain block belong to the validator set. */
  predicate IsReadable(b: Block, vset: ValidatorSet) {
    && TxList(b.root).Ok? && AllInBounds(TxList(b.root).value) && Keyable(b.id)
    && (b.IsMasterchain() ==> Prepared(b.signatures, vset).Ok?)
  }

  /** A stored block changed the tables by its one batch, with this collection. */
  ghost predicate Stores(before: Tables, after: Tables, b: Block, refByMcSeqno: nat, vset: ValidatorSet,
                         now: nat, ttl: nat, bound: Option<OutdatedBound>)
    requires WellFormed(before) && now < U32_SPAN && refByMcSeqno < U32_SPAN && NumbersOk(b)
    requires IsI8(b.id.shard.workchain)
  {
    IsReadable(b, vset) && exists pruned, pivot ::
      StoresWith(before, after, b, refByMcSeqno, vset, now, ttl, pruned, pivot, bound)
  }

  ghost predicate StoresWith(before: Tables, after: Tables, b: Block, refByMcSeqno: nat, vset: ValidatorSet, now: nat,
                             ttl: nat, pruned: Cell, pivot: Cell, bound: Option<OutdatedBound>)
    requires WellFormed(before) && now < U32_SPAN && refByMcSeqno < U32_SPAN && NumbersOk(b)
    requires IsI8(b.id.shard.workchain)
    requires IsReadable(b, vset)
  {
    && IsPrunedBlock(b.root, pruned) && McProofs.IsPivot(b.root, b.IsMasterchain(), pivot)
    && (if TakesTiming(b) then IsOutdatedBound(before, SaturatingSub(now, ttl), bound) else bound.None?)
    && (bound.Some? ==> BoundsOk(bound.value))
    && var written := Written(before, b, refByMcSeqno, TxList(b.root).value, pruned, pivot, SignaturesRow(b, vset));
       after == WithoutOutdated(written, bound)
  }

  function SignaturesRow(b: Block, vset: ValidatorSet): Option<StoredSignatures>
    requires b.IsMasterchain() ==> Prepared(b.signatures, vset).Ok?
  {
    if b.IsMasterchain() then Some(StoredSignatures(vset.utimeSince, Prepared(b.signatures, vset).value)) else None
  }

  /** Blocks of workchains outside one byte and outdated blocks are not stored. */
  predicate Skips(b: Block, now: nat, ttl: nat) {
    !IsI8(b.id.shard.workchain) || SaturatingSub(now, b.genUtime) > ttl
  }

  /** The pivot that bounds a collection, if there is one, can be read. */
  ghost predicate BoundReads(t: Tables, removeUntil: nat)
    requires WellFormed(t) && removeUntil < U32_SPAN
  {
    forall key | IsLastTiming(t.timings, removeUntil, key) ::
      var mcKey := BlockKey(MASTERCHAIN, McSeqno(t.timings[key]));
      mcKey in t.pivotBlocks ==> McProofs.LatestShardBlocks(t.pivotBlocks[mcKey].cell).Ok?
  }

  /** Nothing is in the way of storing a block that is not skipped: it can be read, the signatures of
      a masterchain block are all of the validator set, and so can the bound of a collection. */
  ghost predicate Storable(t: Tables, b: Block, vset: ValidatorSet, now: nat, ttl: nat)
    requires WellFormed(t) && now < U32_SPAN
  {
    && TxList(b.root).Ok? && IsBlock(b.root)
    && (if b.IsMasterchain() then McProofs.ShardHashesReadable(b.root) else IsInfo(b.root.refs[0]))
    && (b.IsMasterchain() ==> Prepared(b.signatures, vset).Ok?)
    && (TakesTiming(b) ==> BoundReads(t, SaturatingSub(now, ttl)))
  }

  // --- Facts about batches

  lemma TxListInBounds(root: Cell)
    requires TxList(root).Ok? && AccountsMatchKeys(root)
    ensures AllInBounds(TxList(root).value)
  {
    forall tx | tx in TxList(root).value ensures InTxBounds(tx) {
      var accounts := AccountsOf(root).value;
      var entries := Dicts.Entries(accounts, ACCOUNT_BITS).value;
      var e := TxsOfFrom(entries, tx);
      var inner := Dicts.Entries(Transactions(e.leaf), LT_BITS).value;
      TxIdsMembers(e.leaf.data.value.account, inner, tx);
      var f: Dicts.Entry :| f in inner && ValueOf(f.key) == tx.lt;
      Dicts.EntryIsFound(accounts, ACCOUNT_BITS, e);
      Dicts.EntryIsFound(Transactions(e.leaf), LT_BITS, f);
      BitsRoundTrip(e.key);
      BitsRoundTrip(f.key);
      TxBounds(tx);
    }
  }

  /** `key` is the index key of one of the transactions. */
  ghost predicate IsTxKey(workchain: int, txs: seq<TxId>, key: ByteString)
    requires AllInBounds(txs)
  {
    exists tx: TxId :: tx in txs && key == TxKey(workchain, tx)
  }

  lemma IsTxKeyOfMore(workchain: int, txs: seq<TxId>, last: TxId, key: ByteString)
    requires AllInBounds(txs) && InTxBounds(last)
    ensures IsTxKey(workchain, txs + [last], key) <==> IsTxKey(workchain, txs, key) || key == TxKey(workchain, last)
  {
    assert last in txs + [last];
  }

  lemma {:induction false} WithTxsExact(m: map<ByteString, ByteString>, workchain: int, txs: seq<TxId>,
                                        value: ByteString, key: ByteString)
    requires AllInBounds(txs)
    ensures var r := WithTxs(m, workchain, txs, value);
            && (key in r <==> key in m || IsTxKey(workchain, txs, key))
            && (key in r ==> if IsTxKey(workchain, txs, key) then r[key] == value else key in m && r[key] == m[key])
  {
    if txs != [] {
      var init, last := txs[..|txs| - 1], txs[|txs| - 1];
      assert InTxBounds(last);
      WithTxsExact(m, workchain, init, value, key);
      IsTxKeyOfMore(workchain, init, last, key);
      assert txs == init + [last];
    }
  }

  /** A row survives the deletions exactly if it lies in none of the ranges. */
  lemma {:induction false} WithoutBlocksExact<V>(m: map<ByteString, V>, blocks: seq<BlockIdShort>, id: BlockIdShort)
    requires AllKeyable(blocks)
    requires Keyable(id)
    ensures var r := WithoutBlocks(m, blocks);
            && (KeyOf(id) in r <==> KeyOf(id) in m && forall b | b in blocks ::
                  b.shard == id.shard && b.seqno + 1 < U32_SPAN ==> id.seqno > b.seqno)
            && (KeyOf(id) in r ==> r[KeyOf(id)] == m[KeyOf(id)])
  {
    if blocks != [] {
      var init, last := blocks[..|blocks| - 1], blocks[|blocks| - 1];
      WithoutBlocksExact(m, init, id);
      if IsI8(last.shard.workchain) {
        assert last in blocks;
        BlockRangeExact(id.shard, id.seqno, last.shard, last.seqno);
      }
      assert blocks == init + [last];
    }
  }

  lemma BoundIsOk(t: Tables, removeUntil: nat, bound: Option<OutdatedBound>)
    requires WellFormed(t) && removeUntil < U32_SPAN && IsOutdatedBound(t, removeUntil, bound)
    ensures bound.Some? ==> BoundsOk(bound.value)
  {
    if bound.Some? {
      var b := bound.value;
      var key :| IsLastTiming(t.timings, removeUntil, key) && BoundFrom(t, removeUntil, McSeqno(t.timings[key]), b);
      var cell := t.pivotBlocks[BlockKey(MASTERCHAIN, McSeqno(t.timings[key]))].cell;
      forall id | id in b.blocks && IsI8(id.shard.workchain) ensures Keyable(id) {
        if id in McProofs.TopShardIds(cell).value {
          McProofs.TopIsFound(cell, id);
        }
      }
    }
  }

  lemma WrittenIsWellFormed(t: Tables, b: Block, refByMcSeqno: nat, txs: seq<TxId>, pruned: Cell, pivot: Cell,
                            signatures: Option<StoredSignatures>)
    requires WellFormed(t) && NumbersOk(b) && Keyable(b.id) && refByMcSeqno < U32_SPAN && AllInBounds(txs)
    ensures WellFormed(Written(t, b, refByMcSeqno, txs, pruned, pivot, signatures))
  {
    var value := TxValue(b.id.shard, b.id.seqno, refByMcSeqno);
    TxValueDecodes(b.id.shard, b.id.seqno, refByMcSeqno);
    forall k | k in WithTxs(t.transactions, b.id.shard.workchain, txs, value)
      ensures var v := WithTxs(t.transactions, b.id.shard.workchain, txs, value)[k];
              v == value || (k in t.transactions && v == t.transactions[k])
    {
      WithTxsExact(t.transactions, b.id.shard.workchain, txs, value, k);
    }
  }

  /** `seek_for_prev` */
  method SeekForPrev(m: map<ByteString, ByteString>, target: ByteString) returns (found: Option<ByteString>)
    ensures found.None? ==> forall k | k in m :: Below(target, k)
    ensures found.Some? ==> found.value in m && !Below(target, found.value) &&
                            forall k | k in m && !Below(target, k) :: !Below(found.value, k)
  {
    found := None;
    var keys := m.Keys;
    ghost var seen: set<ByteString> := {};
    while keys != {}
      invariant keys + seen == m.Keys
      invariant found.None? ==> forall k | k in seen :: Below(target, k)
      invariant found.Some? ==> found.value in m && !Below(target, found.value) &&
                                forall k | k in seen && !Below(target, k) :: !Below(found.value, k)
      decreases keys
    {
      var k :| k in keys;
      keys := keys - {k};
      seen := seen + {k};
      if !Below(target, k) && (found.None? || Below(found.value, k)) {
        if found.Some? {
          forall j | j in seen && !Below(target, j) ensures !Below(k, j) {
            if j == k {
              BelowIsIrreflexive(k);
            } else if Below(k, j) {
              BelowIsTransitive(found.value, k, j);
            }
          }
        } else {
          BelowIsIrreflexive(k);
        }
        found := Some(k);
      }
    }
  }

  /** `find_outdated_bound` */
  method FindOutdatedBound(db: Tables, removeUntil: nat) returns (r: Result<Option<OutdatedBound>, Error>)
    requires WellFormed(db) && removeUntil < U32_SPAN
    ensures r.Ok? <==> BoundReads(db, removeUntil)
    ensures r.Ok? ==> IsOutdatedBound(db, removeUntil, r.value)
  {
    var last := SeekForPrev(db.timings, U32Key(removeUntil));
    if last.None? {
      return Ok(None);
    }
    ghost var key := last.value;
    assert IsLastTiming(db.timings, removeUntil, key);
    forall k | IsLastTiming(db.timings, removeUntil, k) ensures k == key {
      BelowIsTotal(k, key);
    }
    var untilMcSeqno := McSeqno(db.timings[last.value]);
    var mcBlockKey := BlockKey(MASTERCHAIN, untilMcSeqno);
    if mcBlockKey !in db.pivotBlocks {
      return Ok(None);
    }
    var info :- McProofs.LatestShardBlocks(db.pivotBlocks[mcBlockKey].cell);
    var bound := OutdatedBound(removeUntil, info.endLt, info.shardIds + [BlockIdShort(MASTERCHAIN, untilMcSeqno)]);
    assert BoundFrom(db, removeUntil, McSeqno(db.timings[key]), bound);
    return Ok(Some(bound));
  }

  // --- Building proofs

  /** The block an index row tells. */
  function RowId(value: ByteString): (id: BlockIdShort)
    requires |value| == BLOCK_KEY_LEN + 4
    ensures Keyable(id)
  {
    BlockIdShort(ShardOfKey(value), SeqnoOfKey(value))
  }

  /** The pivots of a shard in the range are in the snapshot. */
  predicate HasPivots(snapshot: Tables, shard: ShardIdent, after: nat, upTo: nat)
    requires shard.prefix < U64_SPAN && upTo < U32_SPAN
  {
    forall s: nat | after < s <= upTo :: BlockKey(shard, s) in snapshot.pivotBlocks
  }

  /** They are these, newest first. */
  predicate AreWalked(snapshot: Tables, shard: ShardIdent, after: nat, upTo: nat, pivots: seq<Cell>)
    requires shard.prefix < U64_SPAN && after <= upTo < U32_SPAN && HasPivots(snapshot, shard, after, upTo)
  {
    && |pivots| == upTo - after
    && forall k | 0 <= k < upTo - after :: pivots[k] == snapshot.pivotBlocks[BlockKey(shard, upTo - k)].cell
  }

  /** The masterchain pivot and the intermediate shard pivots are in the snapshot. */
  predicate HasShardRows(snapshot: Tables, id: BlockIdShort, refByMcSeqno: nat)
    requires Keyable(id) && refByMcSeqno < U32_SPAN && id.shard.prefix > 0
  {
    var mcKey := BlockKey(MASTERCHAIN, refByMcSeqno);
    && mcKey in snapshot.pivotBlocks
    && var mcBlock := snapshot.pivotBlocks[mcKey].cell;
       && IsBlock(mcBlock) && IsInfo(mcBlock.refs[0])
       && var latest := McProofs.ShardSeqno(mcBlock, id.shard);
          latest.Ok? && id.seqno <= latest.value && HasPivots(snapshot, id.shard, id.seqno, latest.value)
  }

  /** The top of the shard in the masterchain pivot. */
  function LatestSeqno(snapshot: Tables, id: BlockIdShort, refByMcSeqno: nat): Uint32
    requires Keyable(id) && refByMcSeqno < U32_SPAN && id.shard.prefix > 0 && HasShardRows(snapshot, id, refByMcSeqno)
  {
    McProofs.ShardSeqno(snapshot.pivotBlocks[BlockKey(MASTERCHAIN, refByMcSeqno)].cell, id.shard).value
  }

  /** The rows of the snapshot that `build_proof` needs are there and lead to the transaction, and
      the chain can be packed. */
  predicate Buildable(snapshot: Tables, isMasterchain: bool, id: BlockIdShort, refByMcSeqno: nat, tx: TxId)
    requires Keyable(id) && refByMcSeqno < U32_SPAN && id.shard.prefix > 0
  {
    && KeyOf(id) in snapshot.prunedBlocks
    && FindTx(snapshot.prunedBlocks[KeyOf(id)].cell, tx, isMasterchain) == Ok(true)
    && U32Key(refByMcSeqno) in snapshot.signatures
    && (!isMasterchain ==>
        && HasShardRows(snapshot, id, refByMcSeqno)
        && ProofChain.Completes(LatestSeqno(snapshot, id, refByMcSeqno) - id.seqno + 1))
  }

  /** The masterchain proof and the pivots of all newer shard blocks, newest first. */
  ghost predicate AreShardProofs(snapshot: Tables, id: BlockIdShort, refByMcSeqno: nat, fileHash: nat, mcProof: Cell,
                                 proofs: seq<Cell>)
    requires Keyable(id) && refByMcSeqno < U32_SPAN && id.shard.prefix > 0 && HasShardRows(snapshot, id, refByMcSeqno)
  {
    var mcRow := snapshot.pivotBlocks[BlockKey(MASTERCHAIN, refByMcSeqno)];
    var latest := LatestSeqno(snapshot, id, refByMcSeqno);
    && fileHash == mcRow.fileHash && McProofs.IsMcProof(mcRow.cell, id.shard, mcProof)
    && AreWalked(snapshot, id.shard, id.seqno, latest, proofs)
  }

  /** `cell` is a proof chain made of exactly those rows: newest shard block first, the block of
      the transaction last. */
  ghost predicate IsProofOf(snapshot: Tables, isMasterchain: bool, id: BlockIdShort, refByMcSeqno: nat, tx: TxId,
                            cell: Cell)
    requires Keyable(id) && refByMcSeqno < U32_SPAN && id.shard.prefix > 0
    requires Buildable(snapshot, isMasterchain, id, refByMcSeqno, tx)
  {
    var block, row := snapshot.prunedBlocks[KeyOf(id)], snapshot.signatures[U32Key(refByMcSeqno)];
    && ProofChain.WellPacked(cell)
    && var chain := ProofChain.Unpack(cell);
       && chain.vsetUtimeSince == row.vsetUtimeSince && chain.signatures == row.cell
       && if isMasterchain then
            && chain.mcFileHash == block.fileHash && chain.shardBlocks == []
            && IsTxProof(block.cell, tx, true, chain.mcBlock)
          else
            var n := |chain.shardBlocks|;
            && n > 0
            && AreShardProofs(snapshot, id, refByMcSeqno, chain.mcFileHash, chain.mcBlock, chain.shardBlocks[..n - 1])
            && IsTxProof(block.cell, tx, false, chain.shardBlocks[n - 1])
  }

  class Storage {
    var db: Tables
    var snapshot: Tables
    var currentVset: Option<ValidatorSet>
    const minProofTtlSec: nat

    ghost predicate Valid()
      reads this
    {
      WellFormed(db) && WellFormed(snapshot)
    }

    constructor (db: Tables, minProofTtlSec: nat)
      requires WellFormed(db)
      ensures Valid() && this.db == db && snapshot == db && currentVset == None && this.minProofTtlSec == minProofTtlSec
    {
      this.db, this.snapshot, this.currentVset, this.minProofTtlSec := db, db, None, minProofTtlSec;
    }

    /** `update_snapshot` */
    method UpdateSnapshot()
      requires Valid()
      modifies this`snapshot
      ensures Valid() && snapshot == db
    {
      snapshot := db;
    }

    /** `set_current_vset` */
    method SetCurrentVset(vset: ValidatorSet)
      requires Valid()
      modifies this`currentVset
      ensures Valid() && currentVset == Some(vset)
    {
      currentVset := Some(vset);
    }

    /** `store_block`: skips blocks of wide workchains and outdated blocks, and otherwise writes one
        batch or, on any failure, nothing. */
    method StoreBlock(b: Block, refByMcSeqno: nat, now: nat, keptInPruned: Marks, keptInPivot: Marks)
      returns (r: Result<bool, StorageError>, ghost bound: Option<OutdatedBound>)
      requires Valid() && ValidBlock(b) && refByMcSeqno < U32_SPAN && now < U32_SPAN
      modifies this`db
      ensures Valid()
      ensures r == Ok(false) <==> !(-128 <= b.id.shard.workchain < 128) || now > b.genUtime + minProofTtlSec
      ensures r == Ok(false) <==> Skips(b, now, minProofTtlSec)
      ensures r != Ok(true) ==> db == old(db)
      ensures r == Ok(true) <==>
                && !Skips(b, now, minProofTtlSec) && currentVset.Some?
                && Storable(old(db), b, currentVset.value, now, minProofTtlSec)
      ensures r == Ok(true) ==> Stores(old(db), db, b, refByMcSeqno, currentVset.value, now, minProofTtlSec, bound)
    {
      bound := None;
      if !IsI8(b.id.shard.workchain) {
        return Ok(false), bound;
      }
      if SaturatingSub(now, b.genUtime) > minProofTtlSec {
        return Ok(false), bound;
      }
      if currentVset.None? {
        return Err(NoCurrentVset), bound;
      }
      var batch;
      batch, bound := MakeBatch(db, b, refByMcSeqno, currentVset.value, now, minProofTtlSec, keptInPruned, keptInPivot);
      if batch.Err? {
        return Err(InvalidBlock(batch.error)), bound;
      }
      db := batch.value;
      return Ok(true), bound;
    }

    /** The first part of `build_proof`: the index row is read from the live table. */
    method ReadIndex(workchain: int, tx: TxId) returns (value: Option<ByteString>)
      requires Valid() && InTxBounds(tx)
      ensures value.None? <==> TxKey(workchain, tx) !in db.transactions
      ensures value.Some? ==> value.value == db.transactions[TxKey(workchain, tx)] && IsIndexValue(value.value)
    {
      var key := TxKey(workchain, tx);
      return if key in db.transactions then Some(db.transactions[key]) else None;
    }

    /** The rest of `build_proof`, in a blocking thread: everything else is read from the snapshot
        as it is by then. */
    method BuildFromRow(workchain: int, tx: TxId, value: ByteString, keptInTx: Marks, keptInMc: Marks)
      returns (r: Result<Cell, StorageError>)
      requires Valid() && InTxBounds(tx) && IsIndexValue(value)
      ensures r.Ok? <==> Buildable(snapshot, workchain == -1, RowId(value), RefOfValue(value), tx)
      ensures r.Ok? ==> IsProofOf(snapshot, workchain == -1, RowId(value), RefOfValue(value), tx, r.value)
    {
      var id, refByMcSeqno := RowId(value), RefOfValue(value);
      var isMasterchain := workchain == -1;
      if KeyOf(id) !in snapshot.prunedBlocks {
        return Err(BlockNotFound);
      }
      var block := snapshot.prunedBlocks[KeyOf(id)];
      var txProof := TxProofs.MakeTxProof(block.cell, tx, isMasterchain, keptInTx);
      if txProof.Err? {
        return Err(InvalidBlock(txProof.error));
      }
      if txProof.value.None? {
        return Err(TxNotFound);
      }
      if U32Key(refByMcSeqno) !in snapshot.signatures {
        return Err(SignaturesNotFound);
      }
      r := FinishProof(snapshot, isMasterchain, id, refByMcSeqno, tx, txProof.value.value, keptInMc);
    }

    /** `build_proof`, when nothing happens between its two parts. */
    method BuildProof(workchain: int, tx: TxId, keptInTx: Marks, keptInMc: Marks)
      returns (r: Result<Option<Cell>, StorageError>)
      requires Valid() && InTxBounds(tx)
      ensures r == Ok(None) <==> TxKey(workchain, tx) !in db.transactions
      ensures TxKey(workchain, tx) in db.transactions ==>
                var value := db.transactions[TxKey(workchain, tx)];
                && (r.Ok? <==> Buildable(snapshot, workchain == -1, RowId(value), RefOfValue(value), tx))
                && (r.Ok? ==>
                      && r.value.Some?
                      && IsProofOf(snapshot, workchain == -1, RowId(value), RefOfValue(value), tx, r.value.value))
    {
      var value := ReadIndex(workchain, tx);
      if value.None? {
        return Ok(None);
      }
      var proof := BuildFromRow(workchain, tx, value.value, keptInTx, keptInMc);
      return if proof.Ok? then Ok(Some(proof.value)) else Err(proof.error);
    }
  }

  /** The rest of `build_proof` once the transaction proof is made and the signatures are found. */
  method FinishProof(snapshot: Tables, isMasterchain: bool, id: BlockIdShort, refByMcSeqno: nat, ghost tx: TxId,
                     txProof: Cell, keptInMc: Marks)
    returns (r: Result<Cell, StorageError>)
    requires Keyable(id) && refByMcSeqno < U32_SPAN && id.shard.prefix > 0
    requires KeyOf(id) in snapshot.prunedBlocks && U32Key(refByMcSeqno) in snapshot.signatures
    requires FindTx(snapshot.prunedBlocks[KeyOf(id)].cell, tx, isMasterchain) == Ok(true)
    requires IsTxProof(snapshot.prunedBlocks[KeyOf(id)].cell, tx, isMasterchain, txProof)
    ensures r.Ok? <==> Buildable(snapshot, isMasterchain, id, refByMcSeqno, tx)
    ensures r.Ok? ==> IsProofOf(snapshot, isMasterchain, id, refByMcSeqno, tx, r.value)
  {
    if isMasterchain {
      r := FinishMcProof(snapshot, id, refByMcSeqno, tx, txProof);
    } else {
      r := MakeShardProof(snapshot, id, refByMcSeqno, tx, txProof, keptInMc);
    }
  }

  method MakeShardProof(snapshot: Tables, id: BlockIdShort, refByMcSeqno: nat, ghost tx: TxId, txProof: Cell,
                        keptInMc: Marks)
    returns (r: Result<Cell, StorageError>)
    requires Keyable(id) && refByMcSeqno < U32_SPAN && id.shard.prefix > 0
    requires KeyOf(id) in snapshot.prunedBlocks && U32Key(refByMcSeqno) in snapshot.signatures
    requires FindTx(snapshot.prunedBlocks[KeyOf(id)].cell, tx, false) == Ok(true)
    requires IsTxProof(snapshot.prunedBlocks[KeyOf(id)].cell, tx, false, txProof)
    ensures r.Ok? <==> Buildable(snapshot, false, id, refByMcSeqno, tx)
    ensures r.Ok? ==> IsProofOf(snapshot, false, id, refByMcSeqno, tx, r.value)
  {
    var parts := ShardProofs(snapshot, id.shard, id.seqno, refByMcSeqno, keptInMc);
    if parts.Err? {
      return Err(parts.error);
    }
    r := FinishShardProof(snapshot, id, refByMcSeqno, tx, txProof, parts.value.0, parts.value.1, parts.value.2);
  }

  method FinishMcProof(snapshot: Tables, id: BlockIdShort, refByMcSeqno: nat, ghost tx: TxId, txProof: Cell)
    returns (r: Result<Cell, StorageError>)
    requires Keyable(id) && refByMcSeqno < U32_SPAN && id.shard.prefix > 0
    requires Buildable(snapshot, true, id, refByMcSeqno, tx)
    requires IsTxProof(snapshot.prunedBlocks[KeyOf(id)].cell, tx, true, txProof)
    ensures r.Ok? && IsProofOf(snapshot, true, id, refByMcSeqno, tx, r.value)
  {
    var row, fileHash := snapshot.signatures[U32Key(refByMcSeqno)], snapshot.prunedBlocks[KeyOf(id)].fileHash;
    // No shard blocks are needed besides the masterchain proof.
    var chain := ProofChain.MakeProofChain(fileHash, txProof, [], row.vsetUtimeSince, row.cell);
    return Ok(chain.cell);
  }

  method FinishShardProof(snapshot: Tables, id: BlockIdShort, refByMcSeqno: nat, ghost tx: TxId,
                          txProof: Cell, fileHash: nat, mcProof: Cell, newer: seq<Cell>)
    returns (r: Result<Cell, StorageError>)
    requires Keyable(id) && refByMcSeqno < U32_SPAN && id.shard.prefix > 0
    requires KeyOf(id) in snapshot.prunedBlocks && U32Key(refByMcSeqno) in snapshot.signatures
    requires FindTx(snapshot.prunedBlocks[KeyOf(id)].cell, tx, false) == Ok(true)
    requires IsTxProof(snapshot.prunedBlocks[KeyOf(id)].cell, tx, false, txProof)
    requires HasShardRows(snapshot, id, refByMcSeqno)
    requires AreShardProofs(snapshot, id, refByMcSeqno, fileHash, mcProof, newer)
    ensures r.Ok? <==> Buildable(snapshot, false, id, refByMcSeqno, tx)
    ensures r.Ok? ==> IsProofOf(snapshot, false, id, refByMcSeqno, tx, r.value)
  {
    BuildableIfPacked(snapshot, id, refByMcSeqno, tx, fileHash, mcProof, newer);
    var row, shardProofs := snapshot.signatures[U32Key(refByMcSeqno)], newer + [txProof];
    var chain := ProofChain.MakeProofChain(fileHash, mcProof, shardProofs, row.vsetUtimeSince, row.cell);
    if chain.Panicked? {
      return Err(TaskPanicked);
    }
    PackedIsProof(snapshot, id, refByMcSeqno, tx, txProof, fileHash, mcProof, newer, chain.cell);
    return Ok(chain.cell);
  }

  lemma BuildableIfPacked(snapshot: Tables, id: BlockIdShort, refByMcSeqno: nat, tx: TxId,
                          fileHash: nat, mcProof: Cell, newer: seq<Cell>)
    requires Keyable(id) && refByMcSeqno < U32_SPAN && id.shard.prefix > 0
    requires KeyOf(id) in snapshot.prunedBlocks && U32Key(refByMcSeqno) in snapshot.signatures
    requires FindTx(snapshot.prunedBlocks[KeyOf(id)].cell, tx, false) == Ok(true)
    requires HasShardRows(snapshot, id, refByMcSeqno)
    requires AreShardProofs(snapshot, id, refByMcSeqno, fileHash, mcProof, newer)
    ensures Buildable(snapshot, false, id, refByMcSeqno, tx) <==> ProofChain.Completes(|newer| + 1)
  {
  }

  lemma PackedIsProof(snapshot: Tables, id: BlockIdShort, refByMcSeqno: nat, tx: TxId, txProof: Cell,
                      fileHash: nat, mcProof: Cell, newer: seq<Cell>, cell: Cell)
    requires Keyable(id) && refByMcSeqno < U32_SPAN && id.shard.prefix > 0
    requires Buildable(snapshot, false, id, refByMcSeqno, tx)
    requires IsTxProof(snapshot.prunedBlocks[KeyOf(id)].cell, tx, false, txProof)
    requires AreShardProofs(snapshot, id, refByMcSeqno, fileHash, mcProof, newer)
    requires ProofChain.WellPacked(cell)
    requires var row := snapshot.signatures[U32Key(refByMcSeqno)];
             ProofChain.Unpack(cell)
             == ProofChain.Chain(fileHash, row.vsetUtimeSince, mcProof, row.cell, newer + [txProof])
    ensures IsProofOf(snapshot, false, id, refByMcSeqno, tx, cell)
  {
    assert (newer + [txProof])[..|newer + [txProof]| - 1] == newer;
  }

  /** The loop from the top of the shard down to the block above that of the transaction. */
  method WalkPivots(snapshot: Tables, shard: ShardIdent, latest: nat, txBlockSeqno: nat)
    returns (r: Result<seq<Cell>, StorageError>)
    requires shard.prefix < U64_SPAN && txBlockSeqno <= latest < U32_SPAN
    ensures r.Ok? <==> HasPivots(snapshot, shard, txBlockSeqno, latest)
    ensures r.Ok? ==> AreWalked(snapshot, shard, txBlockSeqno, latest, r.value)
  {
    var seqno, shardProofs := latest, [];
    while seqno > txBlockSeqno
      invariant txBlockSeqno <= seqno <= latest
      invariant HasPivots(snapshot, shard, seqno, latest) && AreWalked(snapshot, shard, seqno, latest, shardProofs)
    {
      if BlockKey(shard, seqno) !in snapshot.pivotBlocks {
        return Err(PivotNotFound);
      }
      shardProofs := shardProofs + [snapshot.pivotBlocks[BlockKey(shard, seqno)].cell];
      seqno := seqno - 1;
    }
    return Ok(shardProofs);
  }

  /** The part of `build_proof` for shard transactions: walks the pivots from the top of the shard
      down to the block after the transaction's. */
  method ShardProofs(snapshot: Tables, shard: ShardIdent, txBlockSeqno: nat, refByMcSeqno: nat, keptInMc: Marks)
    returns (r: Result<(nat, Cell, seq<Cell>), StorageError>)
    requires Keyable(BlockIdShort(shard, txBlockSeqno)) && refByMcSeqno < U32_SPAN && shard.prefix > 0
    ensures r.Ok? <==> HasShardRows(snapshot, BlockIdShort(shard, txBlockSeqno), refByMcSeqno)
    ensures r.Ok? ==>
              AreShardProofs(snapshot, BlockIdShort(shard, txBlockSeqno), refByMcSeqno, r.value.0, r.value.1, r.value.2)
  {
    var mcBlockKey := BlockKey(MASTERCHAIN, refByMcSeqno);
    if mcBlockKey !in snapshot.pivotBlocks {
      return Err(RefMcBlockNotFound);
    }
    var mcBlock := snapshot.pivotBlocks[mcBlockKey];
    var mc := McProofs.MakeMcProof(mcBlock.cell, shard, keptInMc);
    if mc.Err? {
      return Err(InvalidBlock(mc.error));
    }
    var latest: nat := mc.value.latestShardSeqno;
    if latest < txBlockSeqno {
      return Err(StrangeShardDescription);
    }
    var shardProofs := WalkPivots(snapshot, shard, latest, txBlockSeqno);
    if shardProofs.Err? {
      return Err(shardProofs.error);
    }
    return Ok((mcBlock.fileHash, mc.value.root, shardProofs.value));
  }

  /** The signatures of a masterchain block, prepared with the current validator set. */
  method RowOfSignatures(b: Block, vset: ValidatorSet) returns (r: Result<Option<StoredSignatures>, Error>)
    ensures r.Ok? <==> (b.IsMasterchain() ==> Prepared(b.signatures, vset).Ok?)
    ensures r.Ok? ==> r.value == SignaturesRow(b, vset)
  {
    if !b.IsMasterchain() {
      return Ok(None);
    }
    var prepared :- PrepareSignatures(b.signatures, vset);
    return Ok(Some(StoredSignatures(vset.utimeSince, prepared)));
  }

  /** Only every hundredth masterchain block looks for something to collect. */
  method BoundFor(db: Tables, b: Block, now: nat, ttl: nat) returns (r: Result<Option<OutdatedBound>, Error>)
    requires WellFormed(db) && now < U32_SPAN
    ensures r.Ok? <==> (TakesTiming(b) ==> BoundReads(db, SaturatingSub(now, ttl)))
    ensures r.Ok? ==> if TakesTiming(b) then IsOutdatedBound(db, SaturatingSub(now, ttl), r.value) else r.value.None?
    ensures r.Ok? && r.value.Some? ==> BoundsOk(r.value.value)
  {
    if !TakesTiming(b) {
      return Ok(None);
    }
    var removeUntil := SaturatingSub(now, ttl);
    var bound :- FindOutdatedBound(db, removeUntil);
    BoundIsOk(db, removeUntil, bound);
    return Ok(bound);
  }

  /** The blocking part of `store_block`: everything between the freshness check and the write. */
  method MakeBatch(db: Tables, b: Block, refByMcSeqno: nat, vset: ValidatorSet, now: nat, ttl: nat,
                   keptInPruned: Marks, keptInPivot: Marks)
    returns (r: Result<Tables, Error>, ghost bound: Option<OutdatedBound>)
    requires WellFormed(db) && ValidBlock(b) && refByMcSeqno < U32_SPAN && now < U32_SPAN && IsI8(b.id.shard.workchain)
    ensures r.Ok? <==> Storable(db, b, vset, now, ttl)
    ensures r.Ok? ==> WellFormed(r.value) && Stores(db, r.value, b, refByMcSeqno, vset, now, ttl, bound)
  {
    bound := None;
    var signatures := RowOfSignatures(b, vset);
    if signatures.Err? {
      return Err(signatures.error), bound;
    }
    var pivot := McProofs.MakePivotBlockProof(b.IsMasterchain(), b.root, keptInPivot);
    if pivot.Err? {
      return Err(pivot.error), bound;
    }
    var outdated := BoundFor(db, b, now, ttl);
    if outdated.Err? {
      return Err(outdated.error), bound;
    }
    var pruned := TxProofs.MakePrunedBlock(b.root, keptInPruned);
    if pruned.Err? {
      return Err(pruned.error), bound;
    }
    TxListInBounds(b.root);
    bound := outdated.value;
    var batch := FillBatch(db, b, refByMcSeqno, pruned.value.1, pruned.value.0, pivot.value, signatures.value,
                           outdated.value);
    assert StoresWith(db, batch, b, refByMcSeqno, vset, now, ttl, pruned.value.0, pivot.value, bound);
    return Ok(batch), bound;
  }

  method FillBatch(db: Tables, b: Block, refByMcSeqno: nat, txs: seq<TxId>, pruned: Cell, pivot: Cell,
                   signatures: Option<StoredSignatures>, bound: Option<OutdatedBound>) returns (batch: Tables)
    requires WellFormed(db) && NumbersOk(b) && Keyable(b.id) && refByMcSeqno < U32_SPAN && AllInBounds(txs)
    requires bound.Some? ==> BoundsOk(bound.value)
    ensures batch == WithoutOutdated(Written(db, b, refByMcSeqno, txs, pruned, pivot, signatures), bound)
    ensures WellFormed(batch)
  {
    WrittenIsWellFormed(db, b, refByMcSeqno, txs, pruned, pivot, signatures);
    batch := WriteBlock(db, b, refByMcSeqno, txs, pruned, pivot, signatures);
    if bound.Some? {
      batch := Collect(batch, bound.value);
    }
  }

  /** The writing half of the batch; `on_tx` puts one index row after the other. */
  method WriteBlock(t: Tables, b: Block, refByMcSeqno: nat, txs: seq<TxId>, pruned: Cell, pivot: Cell,
                    signatures: Option<StoredSignatures>)
    returns (batch: Tables)
    requires Keyable(b.id) && refByMcSeqno < U32_SPAN && b.genUtime < U32_SPAN && AllInBounds(txs)
    ensures batch == Written(t, b, refByMcSeqno, txs, pruned, pivot, signatures)
  {
    batch := t;
    if TakesTiming(b) {
      batch := batch.(timings := batch.timings[U32Key(b.genUtime) := SeqnoValue(b.id.seqno)]);
    }
    var value := TxValue(b.id.shard, b.id.seqno, refByMcSeqno);
    var index := t.transactions;
    for k := 0 to |txs|
      invariant AllInBounds(txs[..k]) && index == WithTxs(t.transactions, b.id.shard.workchain, txs[..k], value)
    {
      assert txs[..k + 1][..k] == txs[..k];
      index := index[TxKey(b.id.shard.workchain, txs[k]) := value];
    }
    assert txs[..|txs|] == txs;
    batch := batch.(transactions := index,
                    prunedBlocks := batch.prunedBlocks[KeyOf(b.id) := StoredBlock(b.fileHash, pruned)]);
    if signatures.Some? {
      batch := batch.(signatures := batch.signatures[U32Key(b.id.seqno) := signatures.value]);
    }
    batch := batch.(pivotBlocks := batch.pivotBlocks[KeyOf(b.id) := StoredBlock(b.fileHash, pivot)]);
  }

  /** The deleting half of the batch. */
  method Collect(t: Tables, bound: OutdatedBound) returns (batch: Tables)
    requires BoundsOk(bound)
    ensures batch == WithoutOutdated(t, Some(bound))
    ensures WellFormed(t) ==> WellFormed(batch)
  {
    batch := t.(timings := DeleteRange(t.timings, Zeros(4), TimingRangeEnd(bound.removeUntil)),
                transactions := DeleteRange(t.transactions, Zeros(TX_KEY_LEN), TxRangeEnd(bound.lt)));
    var pruned, pivots := CollectBlocks(t.prunedBlocks, t.pivotBlocks, bound.blocks);
    batch := batch.(pivotBlocks := pivots, prunedBlocks := pruned);
  }

  /** The loop over the shards. */
  method CollectBlocks(prunedBlocks: map<ByteString, StoredBlock>, pivotBlocks: map<ByteString, StoredBlock>,
                       blocks: seq<BlockIdShort>)
    returns (pruned: map<ByteString, StoredBlock>, pivots: map<ByteString, StoredBlock>)
    requires AllKeyable(blocks)
    ensures pruned == WithoutBlocks(prunedBlocks, blocks) && pivots == WithoutBlocks(pivotBlocks, blocks)
  {
    pruned, pivots := prunedBlocks, pivotBlocks;
    for k := 0 to |blocks|
      invariant AllKeyable(blocks[..k])
      invariant pruned == WithoutBlocks(prunedBlocks, blocks[..k]) && pivots == WithoutBlocks(pivotBlocks, blocks[..k])
    {
      assert blocks[..k + 1][..k] == blocks[..k];
      var id := blocks[k];
      if IsI8(id.shard.workchain) {
        assert id in blocks && Keyable(id);
        pivots := DeleteRange(pivots, BlockKey(id.shard, 0), BlockRangeEnd(id.shard, id.seqno));
        pruned := DeleteRange(pruned, BlockKey(id.shard, 0), BlockRangeEnd(id.shard, id.seqno));
      }
    }
    assert blocks[..|blocks|] == blocks;
  }
}
