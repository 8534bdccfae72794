/**
 The proofs the light node hands out. When one can be built is told by what the snapshot has seen;
 what it shows is told by the chain, and checks itself against the hash of its masterchain block.
 The index row may be read in one state of the node, and the snapshot in another.
 */
module LightProofs {
  import opened Results
  import opened Bytes
  import opened Cells
  import opened Blocks
  import opened StorageKeys
  import opened Signatures
  import opened ProofStorage
  import opened World
  import opened TableRows
  import opened LightNode
  import opened LightCollection
  import McProofs
  import ProofChain
  import TxProofs
  import Verifier

  // --- When a proof can be built

  /** All rows that a proof for `id` needs are there: of the block, of its masterchain block, and of the
      blocks from the top of the shard down to it. */
  ghost predicate AllThere(w: World, h: History, id: BlockIdShort)
    requires id in w.blocks
  {
    && Has(w, h, id) && Has(w, h, McOf(w, id))
    && (id.shard != MASTERCHAIN ==> HasWalk(w, h, id, w.blocks[id].top))
  }

  ghost predicate HasWalk(w: World, h: History, id: BlockIdShort, top: nat) {
    forall s: nat | id.seqno <= s <= top :: Has(w, h, BlockIdShort(id.shard, s))
  }

  /** The snapshot has seen every block that a proof for `id` needs. */
  ghost predicate AllSeen(w: World, seen: set<BlockIdShort>, id: BlockIdShort)
    requires id in w.blocks
  {
    && id in seen && McOf(w, id) in seen
    && (id.shard != MASTERCHAIN ==> SeesWalk(seen, id, w.blocks[id].top))
  }

  ghost predicate SeesWalk(seen: set<BlockIdShort>, id: BlockIdShort, top: nat) {
    forall s: nat | id.seqno <= s <= top :: BlockIdShort(id.shard, s) in seen
  }

  /** No block that a proof for `id` needs was skipped as outdated. */
  ghost predicate NothingSkipped(w: World, skipped: set<BlockIdShort>, id: BlockIdShort)
    requires id in w.blocks
  {
    && id !in skipped && McOf(w, id) !in skipped
    && (id.shard != MASTERCHAIN ==>
          forall s: nat | id.seqno <= s <= w.blocks[id].top :: BlockIdShort(id.shard, s) !in skipped)
  }

  /** The shard proofs for `id` can be packed. */
  ghost predicate CanBePacked(w: World, id: BlockIdShort)
    requires id in w.blocks
  {
    id.shard != MASTERCHAIN ==>
      id.seqno <= w.blocks[id].top && ProofChain.Completes(w.blocks[id].top - id.seqno + 1)
  }

  /** What was seen of a masterchain block after all collections is there. */
  lemma SeenIsThere(w: World, h: History, id: BlockIdShort)
    requires LinksOk(w) && TopsCover(w) && IsChainBlock(w, id) && AllBefore(h, w.blocks[id].refBy)
    ensures AllThere(w, h, id) <==> AllSeen(w, Stored(h), id)
  {
    assert LinkOk(w, McOf(w, id));
    StoredIsThere(w, h, id);
    StoredIsThere(w, h, McOf(w, id));
    if id.shard != MASTERCHAIN {
      WalkIsThere(w, h, id);
    }
  }

  lemma WalkIsThere(w: World, h: History, id: BlockIdShort)
    requires LinksOk(w) && TopsCover(w) && IsChainBlock(w, id) && id.shard != MASTERCHAIN
    requires AllBefore(h, w.blocks[id].refBy)
    ensures HasWalk(w, h, id, w.blocks[id].top) <==> SeesWalk(Stored(h), id, w.blocks[id].top)
  {
    forall s: nat | id.seqno <= s <= w.blocks[id].top
      ensures Has(w, h, BlockIdShort(id.shard, s)) <==> BlockIdShort(id.shard, s) in Stored(h)
    {
      assert LinkOk(w, BlockIdShort(id.shard, s));
      StoredIsThere(w, h, BlockIdShort(id.shard, s));
    }
  }

  /** Once a masterchain block is handled, what the snapshot has not seen of it was skipped. */
  lemma HandledIsSeen(w: World, n: Node, id: BlockIdShort)
    requires LinksOk(w) && Bookkeeping(w, n) && IsChainBlock(w, id) && w.blocks[id].refBy <= n.handled
    ensures AllSeen(w, Stored(n.seen), id) <==> NothingSkipped(w, n.skipped, id)
  {
    var l := w.blocks[id];
    assert LinkOk(w, McOf(w, id));
    SeenUnlessSkipped(w, n, id);
    SeenUnlessSkipped(w, n, McOf(w, id));
    if id.shard != MASTERCHAIN {
      forall s: nat | id.seqno <= s <= l.top
        ensures BlockIdShort(id.shard, s) in Stored(n.seen) <==> BlockIdShort(id.shard, s) !in n.skipped
      {
        SeenUnlessSkipped(w, n, BlockIdShort(id.shard, s));
      }
    }
  }

  lemma SeenUnlessSkipped(w: World, n: Node, id: BlockIdShort)
    requires Bookkeeping(w, n) && id in w.blocks && w.blocks[id].refBy <= n.handled
    ensures id in Stored(n.seen) <==> id !in n.skipped
  {
    assert id in UpTo(w, n.handled);
  }

  // --- What rows show

  /** The pruned block of a block leads to each of its transactions. */
  lemma PrunedRowLeadsToTx(l: Linked, row: StoredBlock, tx: TxId)
    requires ContentOk(l) && IsPrunedRow(l.block, row) && tx in l.txs && InTxBounds(tx)
    ensures FindTx(row.cell, tx, l.block.id.shard.workchain == -1) == Ok(true)
    ensures Hash(row.cell) == Hash(l.block.root)
  {
    TxBounds(tx);
    TxProofs.PruningComposes(l.block.root, row.cell, tx, l.block.id.shard.workchain == -1);
  }

  /** A pivot of a masterchain block tells the top of a shard like the block itself. */
  lemma McPivotReads(l: Linked, row: StoredBlock, shard: ShardIdent)
    requires ContentOk(l) && l.block.id.shard == MASTERCHAIN && IsPivotRow(l.block, row)
    requires McProofs.ValidShard(shard) && McProofs.TopDescr(l.block.root, shard).Ok?
    ensures IsBlock(row.cell) && IsInfo(row.cell.refs[0])
    ensures McProofs.TopDescr(row.cell, shard) == McProofs.TopDescr(l.block.root, shard)
  {
    BoundsOfPivot(l, row);
    McProofs.PivotTopDescr(l.block.root, row.cell, shard);
  }

  /** A masterchain proof made from such a pivot has the block's hash and info, and tells the top. */
  lemma McProofReads(l: Linked, row: StoredBlock, shard: ShardIdent, proof: Cell)
    requires ContentOk(l) && l.block.id.shard == MASTERCHAIN && IsPivotRow(l.block, row)
    requires McProofs.ValidShard(shard) && McProofs.TopDescr(l.block.root, shard).Ok?
    requires McProofs.IsMcProof(row.cell, shard, proof)
    ensures Hash(proof) == Hash(l.block.root) && IsBlock(proof) && IsInfo(proof.refs[0])
    ensures McProofs.TopDescr(proof, shard) == McProofs.TopDescr(l.block.root, shard)
  {
    McProofs.McProofOfPivotOpens(l.block.root, row.cell, shard, proof);
  }

  /** A pivot of a shard block has its hash and shows the hash of the block before it. */
  lemma ShardPivotReads(l: Linked, row: StoredBlock)
    requires ContentOk(l) && IsPivotRow(l.block, row)
    ensures Hash(row.cell) == Hash(l.block.root) && PrevRootHash(row.cell) == PrevRootHash(l.block.root)
  {
    McProofs.PivotKeepsInfo(l.block.root, row.cell, l.block.IsMasterchain());
  }

  // --- The shard rows

  /** The masterchain pivot tells the top of the shard. */
  lemma LatestIsTop(w: World, h: History, t: Tables, id: BlockIdShort)
    requires BlocksOk(w) && ExactRows(w, h, t) && IsChainBlock(w, id) && id.shard != MASTERCHAIN
    requires KeyOf(McOf(w, id)) in t.pivotBlocks
    ensures var cell := t.pivotBlocks[KeyOf(McOf(w, id))].cell;
            && IsBlock(cell) && IsInfo(cell.refs[0])
            && McProofs.ShardSeqno(cell, id.shard) == Ok(w.blocks[id].top)
  {
    var mc := McOf(w, id);
    assert LinkOk(w, mc) && ContentOk(w.blocks[mc]) && RowsOk(w, h, t, mc);
    McPivotReads(w.blocks[mc], t.pivotBlocks[KeyOf(mc)], id.shard);
  }

  lemma WalkBlock(w: World, id: BlockIdShort, s: nat)
    requires LinksOk(w) && IsChainBlock(w, id) && Keyable(id) && id.shard != MASTERCHAIN
    requires id.seqno <= s <= w.blocks[id].top
    ensures var b := BlockIdShort(id.shard, s);
            && b in w.blocks && LinkOk(w, b) && Keyable(b) && KeyOf(b) == BlockKey(id.shard, s)
            && w.blocks[b].refBy == w.blocks[id].refBy
  {
    assert LinkOk(w, BlockIdShort(id.shard, s));
  }

  lemma WalkRows(w: World, h: History, t: Tables, id: BlockIdShort)
    requires LinksOk(w) && ExactRows(w, h, t)
    requires IsChainBlock(w, id) && Keyable(id) && id.shard != MASTERCHAIN && Has(w, h, id)
    ensures w.blocks[id].top < U32_SPAN
    ensures HasPivots(t, id.shard, id.seqno, w.blocks[id].top) <==> HasWalk(w, h, id, w.blocks[id].top)
  {
    var top := w.blocks[id].top;
    forall s: nat | id.seqno <= s <= top
      ensures s < U32_SPAN && (BlockKey(id.shard, s) in t.pivotBlocks <==> Has(w, h, BlockIdShort(id.shard, s)))
    {
      WalkBlock(w, id, s);
      assert RowsOk(w, h, t, BlockIdShort(id.shard, s));
    }
    assert top < U32_SPAN;
    if HasPivots(t, id.shard, id.seqno, top) {
      forall s: nat | id.seqno <= s <= top ensures Has(w, h, BlockIdShort(id.shard, s)) {
        assert s == id.seqno ==> BlockIdShort(id.shard, s) == id;
      }
    }
    if HasWalk(w, h, id, top) {
      forall s: nat | id.seqno < s <= top ensures BlockKey(id.shard, s) in t.pivotBlocks {
        assert Has(w, h, BlockIdShort(id.shard, s));
      }
    }
  }

  lemma ShardRows(w: World, h: History, t: Tables, id: BlockIdShort)
    requires BlocksOk(w) && ExactRows(w, h, t)
    requires IsChainBlock(w, id) && Keyable(id) && id.shard != MASTERCHAIN && Has(w, h, id)
    ensures HasShardRows(t, id, w.blocks[id].refBy) <==> Has(w, h, McOf(w, id)) && HasWalk(w, h, id, w.blocks[id].top)
    ensures HasShardRows(t, id, w.blocks[id].refBy) ==> LatestSeqno(t, id, w.blocks[id].refBy) == w.blocks[id].top
  {
    var mc := McOf(w, id);
    assert LinkOk(w, mc) && KeyOf(mc) == BlockKey(MASTERCHAIN, w.blocks[id].refBy) && RowsOk(w, h, t, mc);
    if Has(w, h, mc) {
      LatestIsTop(w, h, t, id);
      WalkRows(w, h, t, id);
      HasShardRowsIsWalk(t, id, w.blocks[id].refBy, w.blocks[id].top);
    }
  }

  lemma HasShardRowsIsWalk(t: Tables, id: BlockIdShort, refBy: nat, top: nat)
    requires Keyable(id) && refBy < U32_SPAN && id.shard.prefix > 0 && id.seqno <= top < U32_SPAN
    requires BlockKey(MASTERCHAIN, refBy) in t.pivotBlocks
    requires var cell := t.pivotBlocks[BlockKey(MASTERCHAIN, refBy)].cell;
             IsBlock(cell) && IsInfo(cell.refs[0]) && McProofs.ShardSeqno(cell, id.shard) == Ok(top)
    ensures HasShardRows(t, id, refBy) <==> HasPivots(t, id.shard, id.seqno, top)
  {
  }

  lemma McBuildable(w: World, h: History, t: Tables, id: BlockIdShort, tx: TxId)
    requires id in w.blocks && LinkOk(w, id) && Keyable(id) && id.shard == MASTERCHAIN
    requires KeyOf(id) in t.prunedBlocks && FindTx(t.prunedBlocks[KeyOf(id)].cell, tx, true) == Ok(true)
    requires Has(w, h, id) && U32Key(w.blocks[id].refBy) in t.signatures
    ensures Buildable(t, true, id, w.blocks[id].refBy, tx) <==> AllThere(w, h, id) && CanBePacked(w, id)
  {
  }

  /** What building a shard proof needs, when the top of the shard is known. */
  lemma ShardRowsBuild(t: Tables, id: BlockIdShort, refBy: nat, tx: TxId, top: nat)
    requires Keyable(id) && refBy < U32_SPAN && id.shard.prefix > 0 && id.seqno <= top
    requires KeyOf(id) in t.prunedBlocks && FindTx(t.prunedBlocks[KeyOf(id)].cell, tx, false) == Ok(true)
    requires HasShardRows(t, id, refBy) ==> LatestSeqno(t, id, refBy) == top
    ensures Buildable(t, false, id, refBy, tx) <==>
              && U32Key(refBy) in t.signatures && HasShardRows(t, id, refBy)
              && ProofChain.Completes(top - id.seqno + 1)
  {
  }

  /** What a shard proof needs beyond the rows of its block. */
  ghost predicate WayIsThere(w: World, h: History, id: BlockIdShort)
    requires id in w.blocks && id.seqno <= w.blocks[id].top
  {
    && Has(w, h, McOf(w, id)) && HasWalk(w, h, id, w.blocks[id].top)
    && ProofChain.Completes(w.blocks[id].top - id.seqno + 1)
  }

  lemma AllThereInShard(w: World, h: History, id: BlockIdShort)
    requires id in w.blocks && id.shard != MASTERCHAIN && Has(w, h, id) && id.seqno <= w.blocks[id].top
    ensures AllThere(w, h, id) && CanBePacked(w, id) <==> WayIsThere(w, h, id)
  {
  }

  lemma WayBuilds(w: World, h: History, t: Tables, id: BlockIdShort, tx: TxId)
    requires id in w.blocks && LinkOk(w, id) && Keyable(id) && id.shard != MASTERCHAIN && id.seqno <= w.blocks[id].top
    requires KeyOf(id) in t.prunedBlocks && FindTx(t.prunedBlocks[KeyOf(id)].cell, tx, false) == Ok(true)
    requires Has(w, h, id) && (U32Key(w.blocks[id].refBy) in t.signatures <==> McOf(w, id) in h.since)
    requires HasShardRows(t, id, w.blocks[id].refBy) <==>
               Has(w, h, McOf(w, id)) && HasWalk(w, h, id, w.blocks[id].top)
    requires HasShardRows(t, id, w.blocks[id].refBy) ==> LatestSeqno(t, id, w.blocks[id].refBy) == w.blocks[id].top
    ensures Buildable(t, false, id, w.blocks[id].refBy, tx) <==> WayIsThere(w, h, id)
  {
    ShardRowsBuild(t, id, w.blocks[id].refBy, tx, w.blocks[id].top);
  }

  lemma ShardBuildable(w: World, h: History, t: Tables, id: BlockIdShort, tx: TxId)
    requires BlocksOk(w) && ExactRows(w, h, t) && RightSignatures(w, h, t)
    requires IsChainBlock(w, id) && Keyable(id) && id.shard != MASTERCHAIN && Has(w, h, id)
    requires KeyOf(id) in t.prunedBlocks && FindTx(t.prunedBlocks[KeyOf(id)].cell, tx, false) == Ok(true)
    ensures Buildable(t, false, id, w.blocks[id].refBy, tx) <==> WayIsThere(w, h, id)
  {
    SignaturesAreThere(w, h, t, id);
    ShardRows(w, h, t, id);
    WayBuilds(w, h, t, id, tx);
  }

  /** A proof can be built exactly when the rows it needs are there and it can be packed. */
  lemma BuildableFromRows(w: World, h: History, t: Tables, id: BlockIdShort, tx: TxId)
    requires BlocksOk(w) && ExactRows(w, h, t) && RightSignatures(w, h, t)
    requires IsChainBlock(w, id) && Keyable(id) && tx in w.blocks[id].txs && InTxBounds(tx)
    ensures Buildable(t, id.shard.workchain == -1, id, w.blocks[id].refBy, tx) <==>
              AllThere(w, h, id) && CanBePacked(w, id)
  {
    assert RowsOk(w, h, t, id);
    if Has(w, h, id) {
      assert ContentOk(w.blocks[id]);
      PrunedRowLeadsToTx(w.blocks[id], t.prunedBlocks[KeyOf(id)], tx);
      if id.shard == MASTERCHAIN {
        SignaturesAreThere(w, h, t, id);
        McBuildable(w, h, t, id, tx);
      } else {
        ShardBuildable(w, h, t, id, tx);
        AllThereInShard(w, h, id);
      }
    }
  }

  lemma SignaturesAreThere(w: World, h: History, t: Tables, id: BlockIdShort)
    requires RightSignatures(w, h, t) && id in w.blocks && LinkOk(w, id)
    ensures U32Key(w.blocks[id].refBy) in t.signatures <==> McOf(w, id) in h.since
    ensures McOf(w, id) in h.since ==>
              IsSignaturesRow(w.blocks[McOf(w, id)].block, SigningVset(w, id), t.signatures[U32Key(w.blocks[id].refBy)])
  {
  }

  /** For an index row of any state of any run and the snapshot of any other state: a proof can be built
      exactly when all rows it needs are there, each of a block that no collection since its storing
      takes, and the chain can be packed. If all collections of the snapshot are bound before the
      row's masterchain block, that is when the snapshot has seen all these blocks; and if that
      masterchain block is handled, that is when none of them was skipped. */
  lemma BuildableExactly(w: World, at: Node, n: Node, workchain: int, tx: TxId) returns (id: BlockIdShort)
    requires ValidWorld(w) && Recorded(w, at) && Recorded(w, n)
    requires IsI8(workchain) && InTxBounds(tx) && TxKey(workchain, tx) in at.db.transactions
    ensures IsChainBlock(w, id) && Survives(w, at.live, workchain, tx, id)
    ensures var value := at.db.transactions[TxKey(workchain, tx)];
            && RowId(value) == id && RefOfValue(value) == w.blocks[id].refBy
            && (Buildable(n.snapshot, workchain == -1, id, w.blocks[id].refBy, tx) <==>
                  AllThere(w, n.seen, id) && CanBePacked(w, id))
    ensures AllBefore(n.seen, w.blocks[id].refBy) ==> (AllThere(w, n.seen, id) <==> AllSeen(w, Stored(n.seen), id))
    ensures w.blocks[id].refBy <= n.handled ==>
              (AllSeen(w, Stored(n.seen), id) <==> NothingSkipped(w, n.skipped, id))
  {
    id := IndexRowTells(w, at.live, at.db, workchain, tx);
    ChainBlock(w, id);
    BuildableFromRows(w, n.seen, n.snapshot, id, tx);
    if AllBefore(n.seen, w.blocks[id].refBy) {
      SeenIsThere(w, n.seen, id);
    }
    if w.blocks[id].refBy <= n.handled {
      HandledIsSeen(w, n, id);
    }
  }

  /** As long as no collection is bound ahead, collection takes no part in the answer for a row and a
      snapshot of one state. */
  lemma OwnSnapshotIsBefore(w: World, n: Node, workchain: int, tx: TxId, id: BlockIdShort)
    requires OrderedWorld(w) && Inv(w, n) && Survives(w, n.live, workchain, tx, id) && LinkOk(w, id)
    ensures AllBefore(n.seen, w.blocks[id].refBy)
  {
    RowIsAfter(w, n, workchain, tx, id);
    forall j: nat | j < |n.seen.collections| ensures n.seen.collections[j] < w.blocks[id].refBy {
      assert n.seen.collections[j] == n.live.collections[j];
    }
  }

  lemma ChainBlock(w: World, id: BlockIdShort)
    requires ValidWorld(w) && id in w.blocks
    ensures IsChainBlock(w, id)
  {
    assert LinkOk(w, id);
    assert id.shard != MASTERCHAIN ==> ShardBlockOk(w, id);
  }

  // --- What a proof shows

  /** The parts have the hashes of the blocks from the top of the shard down to this block. */
  ghost predicate PartsAreRight(w: World, id: BlockIdShort, parts: seq<Cell>)
    requires id in w.blocks && WalkOk(w, id)
  {
    && |parts| == w.blocks[id].top - id.seqno + 1
    && forall k | 0 <= k < |parts| ::
          Hash(parts[k]) == Hash(w.blocks[BlockIdShort(id.shard, w.blocks[id].top - k)].block.root)
  }

  /** What the caller of `build_proof` gets for a transaction of block `id`: a proof that checks
      itself against the hash of the masterchain block, made of the chain's own blocks from the top
      of the shard down to this one, with the signatures of the right validator set. */
  ghost predicate ProvesTx(w: World, id: BlockIdShort, tx: TxId, cell: Cell)
    requires IsChainBlock(w, id)
  {
    var mc, vset := w.blocks[McOf(w, id)].block, SigningVset(w, id);
    && ProofChain.WellPacked(cell)
    && var p := ProofChain.Unpack(cell);
       && p.mcFileHash == mc.fileHash && Hash(p.mcBlock) == Hash(mc.root)
       && p.vsetUtimeSince == vset.utimeSince && Prepared(mc.signatures, vset) == Ok(p.signatures)
       && Verifier.Verifies(p.mcBlock, p.shardBlocks, id.shard, tx)
       && (id.shard != MASTERCHAIN ==> PartsAreRight(w, id, p.shardBlocks))
  }

  /** Blocks that follow each other show it. */
  lemma NewerShowsOlder(w: World, id: BlockIdShort, s: nat)
    requires BlocksOk(w) && ShardsOk(w) && id in w.blocks && id.shard != MASTERCHAIN && WalkOk(w, id)
    requires id.seqno < s <= w.blocks[id].top
    ensures PrevRootHash(w.blocks[BlockIdShort(id.shard, s)].block.root)
            == Some(Hash(w.blocks[BlockIdShort(id.shard, s - 1)].block.root))
  {
    var b := BlockIdShort(id.shard, s);
    assert ShardBlockOk(w, b) && PrevId(b) == BlockIdShort(id.shard, s - 1) && ContentOk(w.blocks[b]);
    NamedPrevIsRead(w.blocks[b].block.root, Hash(w.blocks[PrevId(b)].block.root));
  }

  /** A part has the hash of a block and shows the hash of the block before it. */
  predicate Shows(part: Cell, root: Cell) {
    Hash(part) == Hash(root) && PrevRootHash(part) == PrevRootHash(root)
  }

  /** The parts before the last show the blocks from the top of the shard down. */
  ghost predicate ArePivots(w: World, id: BlockIdShort, parts: seq<Cell>)
    requires id in w.blocks && WalkOk(w, id)
  {
    && |parts| == w.blocks[id].top - id.seqno + 1
    && forall k | 0 <= k < |parts| - 1 ::
         Shows(parts[k], w.blocks[BlockIdShort(id.shard, w.blocks[id].top - k)].block.root)
  }

  lemma PartHash(w: World, id: BlockIdShort, parts: seq<Cell>, k: nat)
    requires id in w.blocks && WalkOk(w, id) && ArePivots(w, id, parts) && k < |parts|
    requires Hash(parts[|parts| - 1]) == Hash(w.blocks[id].block.root)
    ensures Hash(parts[k]) == Hash(w.blocks[BlockIdShort(id.shard, w.blocks[id].top - k)].block.root)
  {
    if k == |parts| - 1 {
      assert BlockIdShort(id.shard, w.blocks[id].top - k) == id;
    }
  }

  lemma PartLinks(w: World, id: BlockIdShort, parts: seq<Cell>, k: nat)
    requires BlocksOk(w) && ShardsOk(w) && id in w.blocks && id.shard != MASTERCHAIN && WalkOk(w, id)
    requires ArePivots(w, id, parts) && k < |parts| - 1
    requires Hash(parts[|parts| - 1]) == Hash(w.blocks[id].block.root)
    ensures PrevRootHash(parts[k]) == Some(Hash(parts[k + 1]))
  {
    var s := w.blocks[id].top - k;
    PartHash(w, id, parts, k + 1);
    NewerShowsOlder(w, id, s);
    assert Shows(parts[k], w.blocks[BlockIdShort(id.shard, s)].block.root);
  }

  lemma PivotsLinkDown(w: World, id: BlockIdShort, parts: seq<Cell>)
    requires BlocksOk(w) && ShardsOk(w) && id in w.blocks && id.shard != MASTERCHAIN && WalkOk(w, id)
    requires ArePivots(w, id, parts)
    requires Hash(parts[|parts| - 1]) == Hash(w.blocks[id].block.root)
    ensures PartsAreRight(w, id, parts) && Verifier.LinksDown(parts)
  {
    forall k | 0 <= k < |parts|
      ensures Hash(parts[k]) == Hash(w.blocks[BlockIdShort(id.shard, w.blocks[id].top - k)].block.root)
    {
      PartHash(w, id, parts, k);
    }
    forall k | 0 <= k < |parts| - 1 ensures PrevRootHash(parts[k]) == Some(Hash(parts[k + 1])) {
      PartLinks(w, id, parts, k);
    }
  }

  /** A shard row of the snapshot, if it is there, shows the chain's block. */
  ghost predicate RowShows(w: World, t: Tables, shard: ShardIdent, s: nat)
    requires BlockIdShort(shard, s) in w.blocks && shard.prefix < U64_SPAN
  {
    && s < U32_SPAN
    && (BlockKey(shard, s) in t.pivotBlocks ==>
          Shows(t.pivotBlocks[BlockKey(shard, s)].cell, w.blocks[BlockIdShort(shard, s)].block.root))
  }

  lemma RowIsPivot(w: World, h: History, t: Tables, id: BlockIdShort, s: nat)
    requires BlocksOk(w) && ExactRows(w, h, t) && IsChainBlock(w, id) && Keyable(id) && id.shard != MASTERCHAIN
    requires id.seqno <= s <= w.blocks[id].top
    ensures RowShows(w, t, id.shard, s)
  {
    var b := BlockIdShort(id.shard, s);
    WalkBlock(w, id, s);
    assert ContentOk(w.blocks[b]) && RowsOk(w, h, t, b);
    if KeyOf(b) in t.pivotBlocks {
      ShardPivotReads(w.blocks[b], t.pivotBlocks[KeyOf(b)]);
    }
  }

  /** The parts before the last are the rows of the walk, newest first. */
  ghost predicate AreRows(t: Tables, id: BlockIdShort, top: nat, parts: seq<Cell>)
    requires Keyable(id) && top < U32_SPAN
  {
    && id.seqno <= top && |parts| == top - id.seqno + 1
    && forall k | 0 <= k < |parts| - 1 :: IsRow(t, id.shard, top - k, parts[k])
  }

  predicate IsRow(t: Tables, shard: ShardIdent, s: nat, part: Cell)
    requires shard.prefix < U64_SPAN && s < U32_SPAN
  {
    BlockKey(shard, s) in t.pivotBlocks && part == t.pivotBlocks[BlockKey(shard, s)].cell
  }

  lemma RowsArePivots(w: World, t: Tables, id: BlockIdShort, parts: seq<Cell>)
    requires id in w.blocks && WalkOk(w, id) && Keyable(id) && w.blocks[id].top < U32_SPAN
    requires forall s: nat | id.seqno <= s <= w.blocks[id].top :: RowShows(w, t, id.shard, s)
    requires AreRows(t, id, w.blocks[id].top, parts)
    ensures ArePivots(w, id, parts)
  {
    var top := w.blocks[id].top;
    forall k | 0 <= k < |parts| - 1 ensures Shows(parts[k], w.blocks[BlockIdShort(id.shard, top - k)].block.root) {
      assert RowShows(w, t, id.shard, top - k);
      assert IsRow(t, id.shard, top - k, parts[k]);
    }
  }

  /** The masterchain part shows its info and names the top of the shard. */
  lemma McPartIsRight(w: World, h: History, t: Tables, id: BlockIdShort, mcProof: Cell)
    requires BlocksOk(w) && ExactRows(w, h, t) && IsChainBlock(w, id) && id.shard != MASTERCHAIN
    requires KeyOf(McOf(w, id)) in t.pivotBlocks
    requires McProofs.IsMcProof(t.pivotBlocks[KeyOf(McOf(w, id))].cell, id.shard, mcProof)
    ensures var mc, top := w.blocks[McOf(w, id)].block, BlockIdShort(id.shard, w.blocks[id].top);
            && Hash(mcProof) == Hash(mc.root) && IsBlock(mcProof) && IsInfo(mcProof.refs[0])
            && t.pivotBlocks[KeyOf(McOf(w, id))].fileHash == mc.fileHash
            && McProofs.ShardRootHash(mcProof, id.shard) == Ok(Hash(w.blocks[top].block.root))
  {
    var mc := McOf(w, id);
    assert LinkOk(w, mc) && ContentOk(w.blocks[mc]) && RowsOk(w, h, t, mc);
    assert TopNamed(w, w.blocks[id].refBy, id.shard);
    McProofReads(w.blocks[mc], t.pivotBlocks[KeyOf(mc)], id.shard, mcProof);
  }

  lemma RightMcProof(w: World, h: History, t: Tables, id: BlockIdShort, tx: TxId, cell: Cell)
    requires IsChainBlock(w, id) && Keyable(id) && id.shard == MASTERCHAIN && RightSignatures(w, h, t)
    requires Buildable(t, true, id, w.blocks[id].refBy, tx) && IsProofOf(t, true, id, w.blocks[id].refBy, tx, cell)
    requires t.prunedBlocks[KeyOf(id)].fileHash == w.blocks[id].block.fileHash
    requires Hash(t.prunedBlocks[KeyOf(id)].cell) == Hash(w.blocks[id].block.root)
    ensures ProvesTx(w, id, tx, cell)
  {
    SignaturesAreThere(w, h, t, id);
    TxProofs.TxProofOpens(t.prunedBlocks[KeyOf(id)].cell, tx, true, ProofChain.Unpack(cell).mcBlock);
  }

  /** The parts of a shard proof, told by the tables it is made from. */
  lemma ProofParts(t: Tables, id: BlockIdShort, refBy: nat, tx: TxId, cell: Cell)
    requires Keyable(id) && refBy < U32_SPAN && id.shard.prefix > 0
    requires Buildable(t, false, id, refBy, tx) && IsProofOf(t, false, id, refBy, tx, cell)
    ensures HasShardRows(t, id, refBy) && BlockKey(MASTERCHAIN, refBy) in t.pivotBlocks
    ensures var p, mcRow := ProofChain.Unpack(cell), t.pivotBlocks[BlockKey(MASTERCHAIN, refBy)];
            && p.mcFileHash == mcRow.fileHash && McProofs.IsMcProof(mcRow.cell, id.shard, p.mcBlock)
            && |p.shardBlocks| > 0
            && AreShardProofs(t, id, refBy, p.mcFileHash, p.mcBlock, p.shardBlocks[..|p.shardBlocks| - 1])
            && IsTxProof(t.prunedBlocks[KeyOf(id)].cell, tx, false, p.shardBlocks[|p.shardBlocks| - 1])
  {
  }

  lemma NewerAreRows(t: Tables, id: BlockIdShort, top: nat, newer: seq<Cell>, parts: seq<Cell>)
    requires Keyable(id) && id.seqno <= top < U32_SPAN
    requires HasPivots(t, id.shard, id.seqno, top) && AreWalked(t, id.shard, id.seqno, top, newer)
    requires |parts| > 0 && newer == parts[..|parts| - 1]
    ensures AreRows(t, id, top, parts)
  {
    forall k | 0 <= k < |parts| - 1 ensures IsRow(t, id.shard, top - k, parts[k]) {
      assert parts[k] == newer[k];
    }
  }

  lemma ShardProofsAreRows(t: Tables, id: BlockIdShort, refBy: nat, fileHash: nat, mcProof: Cell, parts: seq<Cell>)
    requires Keyable(id) && refBy < U32_SPAN && id.shard.prefix > 0 && HasShardRows(t, id, refBy) && |parts| > 0
    requires AreShardProofs(t, id, refBy, fileHash, mcProof, parts[..|parts| - 1])
    ensures AreRows(t, id, LatestSeqno(t, id, refBy), parts)
  {
    NewerAreRows(t, id, LatestSeqno(t, id, refBy), parts[..|parts| - 1], parts);
  }

  lemma RightShardParts(w: World, h: History, t: Tables, id: BlockIdShort, parts: seq<Cell>, tx: TxId)
    requires BlocksOk(w) && ShardsOk(w) && ExactRows(w, h, t)
    requires IsChainBlock(w, id) && Keyable(id) && id.shard != MASTERCHAIN
    requires KeyOf(id) in t.prunedBlocks && FindTx(t.prunedBlocks[KeyOf(id)].cell, tx, false) == Ok(true)
    requires Hash(t.prunedBlocks[KeyOf(id)].cell) == Hash(w.blocks[id].block.root)
    requires w.blocks[id].top < U32_SPAN && AreRows(t, id, w.blocks[id].top, parts)
    requires IsTxProof(t.prunedBlocks[KeyOf(id)].cell, tx, false, parts[|parts| - 1])
    ensures PartsAreRight(w, id, parts) && Verifier.LinksDown(parts)
    ensures FindTx(parts[|parts| - 1], tx, false) == Ok(true)
  {
    TxProofs.TxProofOpens(t.prunedBlocks[KeyOf(id)].cell, tx, false, parts[|parts| - 1]);
    forall s: nat | id.seqno <= s <= w.blocks[id].top ensures RowShows(w, t, id.shard, s) {
      RowIsPivot(w, h, t, id, s);
    }
    RowsArePivots(w, t, id, parts);
    PivotsLinkDown(w, id, parts);
  }

  /** The parts of the proof of a shard transaction, all but its signatures. */
  ghost predicate ShardPartsProve(w: World, id: BlockIdShort, tx: TxId, p: ProofChain.Chain)
    requires IsChainBlock(w, id) && id.shard != MASTERCHAIN
  {
    var mc := w.blocks[McOf(w, id)].block;
    && p.mcFileHash == mc.fileHash && Hash(p.mcBlock) == Hash(mc.root)
    && Verifier.Verifies(p.mcBlock, p.shardBlocks, id.shard, tx) && PartsAreRight(w, id, p.shardBlocks)
  }

  lemma RightParts(w: World, h: History, t: Tables, id: BlockIdShort, tx: TxId, cell: Cell)
    requires BlocksOk(w) && ShardsOk(w) && ExactRows(w, h, t)
    requires IsChainBlock(w, id) && Keyable(id) && id.shard != MASTERCHAIN
    requires Buildable(t, false, id, w.blocks[id].refBy, tx) && IsProofOf(t, false, id, w.blocks[id].refBy, tx, cell)
    requires Hash(t.prunedBlocks[KeyOf(id)].cell) == Hash(w.blocks[id].block.root)
    ensures ShardPartsProve(w, id, tx, ProofChain.Unpack(cell))
  {
    var refBy, p := w.blocks[id].refBy, ProofChain.Unpack(cell);
    McKey(w, id);
    ProofParts(t, id, refBy, tx, cell);
    LatestIsTop(w, h, t, id);
    ShardProofsAreRows(t, id, refBy, p.mcFileHash, p.mcBlock, p.shardBlocks);
    RightShardParts(w, h, t, id, p.shardBlocks, tx);
    McPartIsRight(w, h, t, id, p.mcBlock);
    TopPart(w, id, p.shardBlocks);
  }

  lemma McKey(w: World, id: BlockIdShort)
    requires LinksOk(w) && id in w.blocks && LinkOk(w, id)
    ensures LinkOk(w, McOf(w, id)) && Keyable(McOf(w, id))
    ensures KeyOf(McOf(w, id)) == BlockKey(MASTERCHAIN, w.blocks[id].refBy)
  {
    assert LinkOk(w, McOf(w, id));
  }

  lemma TopPart(w: World, id: BlockIdShort, parts: seq<Cell>)
    requires id in w.blocks && WalkOk(w, id) && PartsAreRight(w, id, parts)
    ensures |parts| > 0 && Hash(parts[0]) == Hash(w.blocks[BlockIdShort(id.shard, w.blocks[id].top)].block.root)
  {
    assert w.blocks[id].top - 0 == w.blocks[id].top;
  }

  lemma RightShardProof(w: World, h: History, t: Tables, id: BlockIdShort, tx: TxId, cell: Cell)
    requires RightSignatures(w, h, t) && IsChainBlock(w, id) && Keyable(id) && id.shard != MASTERCHAIN
    requires Buildable(t, false, id, w.blocks[id].refBy, tx) && IsProofOf(t, false, id, w.blocks[id].refBy, tx, cell)
    requires ShardPartsProve(w, id, tx, ProofChain.Unpack(cell))
    ensures ProvesTx(w, id, tx, cell)
  {
    SignaturesAreThere(w, h, t, id);
  }

  /** Whatever is built proves the transaction, for an index row of any state of any run and the
      snapshot of any other, earlier or later, whatever has been collected. */
  lemma ProofIsRight(w: World, at: Node, n: Node, workchain: int, tx: TxId, cell: Cell) returns (id: BlockIdShort)
    requires ValidWorld(w) && Recorded(w, at) && Recorded(w, n)
    requires IsI8(workchain) && InTxBounds(tx) && TxKey(workchain, tx) in at.db.transactions
    requires var value := at.db.transactions[TxKey(workchain, tx)];
             && Buildable(n.snapshot, workchain == -1, RowId(value), RefOfValue(value), tx)
             && IsProofOf(n.snapshot, workchain == -1, RowId(value), RefOfValue(value), tx, cell)
    ensures IsChainBlock(w, id) && id.shard.workchain == workchain && tx in w.blocks[id].txs
    ensures id == RowId(at.db.transactions[TxKey(workchain, tx)])
    ensures ProvesTx(w, id, tx, cell)
  {
    id := IndexRowTells(w, at.live, at.db, workchain, tx);
    ChainBlock(w, id);
    RightProof(w, n.seen, n.snapshot, id, tx, cell);
  }

  lemma RightProof(w: World, h: History, t: Tables, id: BlockIdShort, tx: TxId, cell: Cell)
    requires ValidWorld(w) && TablesOk(w, h, t)
    requires IsChainBlock(w, id) && Keyable(id) && tx in w.blocks[id].txs && InTxBounds(tx)
    requires Buildable(t, id.shard.workchain == -1, id, w.blocks[id].refBy, tx)
    requires IsProofOf(t, id.shard.workchain == -1, id, w.blocks[id].refBy, tx, cell)
    ensures ProvesTx(w, id, tx, cell)
  {
    assert ContentOk(w.blocks[id]) && RowsOk(w, h, t, id);
    PrunedRowLeadsToTx(w.blocks[id], t.prunedBlocks[KeyOf(id)], tx);
    if id.shard == MASTERCHAIN {
      RightMcProof(w, h, t, id, tx, cell);
    } else {
      RightParts(w, h, t, id, tx, cell);
      RightShardProof(w, h, t, id, tx, cell);
    }
  }

  // --- What a proof proves

  /** The chain has this many blocks of the shard, from the top down. */
  ghost predicate HasBlocksDown(w: World, shard: ShardIdent, top: nat, count: nat) {
    0 < count <= top + 1 && forall s: nat | top - count < s <= top :: BlockIdShort(shard, s) in w.blocks
  }

  /** Each part has the hash of the chain's block at its place, as far as the chain's blocks are known
      without a gap below the top of the shard. */
  ghost predicate PartsAreGenuine(w: World, shard: ShardIdent, top: nat, parts: seq<Cell>) {
    forall k: nat | k < |parts| && HasBlocksDown(w, shard, top, k + 1) ::
      Hash(parts[k]) == Hash(w.blocks[BlockIdShort(shard, top - k)].block.root)
  }

  /** Soundness of the check, for any cells whatever: what verifies against the hash of a masterchain
      block of the chain is made of the chain's blocks from the top of the shard down, as far as these
      are known; and if all of them are, the transaction is one of the block it ends at. */
  lemma VerifiedIsGenuine(w: World, m: nat, shard: ShardIdent, mcBlock: Cell, parts: seq<Cell>, tx: TxId)
    returns (top: nat)
    requires ValidWorld(w) && McId(m) in w.blocks && McProofs.ValidShard(shard) && InTxBounds(tx)
    requires Hash(mcBlock) == Hash(w.blocks[McId(m)].block.root) && Verifier.Verifies(mcBlock, parts, shard, tx)
    ensures shard == MASTERCHAIN ==> tx in w.blocks[McId(m)].txs
    ensures shard != MASTERCHAIN ==>
              && McProofs.ShardSeqno(w.blocks[McId(m)].block.root, shard) == Ok(top)
              && |parts| > 0 && PartsAreGenuine(w, shard, top, parts)
              && (HasBlocksDown(w, shard, top, |parts|) ==>
                    tx in w.blocks[BlockIdShort(shard, top - (|parts| - 1))].txs)
  {
    top := m;
    if shard == MASTERCHAIN {
      assert ContentOk(w.blocks[McId(m)]);
      OpenedTxIsListed(w.blocks[McId(m)], mcBlock, tx, true);
    } else {
      top := ShardTxIsGenuine(w, m, shard, mcBlock, parts, tx);
    }
  }

  lemma ShardTxIsGenuine(w: World, m: nat, shard: ShardIdent, mcBlock: Cell, parts: seq<Cell>, tx: TxId)
    returns (top: nat)
    requires ValidWorld(w) && McId(m) in w.blocks && McProofs.ValidShard(shard) && shard != MASTERCHAIN
    requires InTxBounds(tx)
    requires Hash(mcBlock) == Hash(w.blocks[McId(m)].block.root)
    requires |parts| > 0 && McProofs.ShardRootHash(mcBlock, shard) == Ok(Hash(parts[0])) && Verifier.LinksDown(parts)
    requires FindTx(parts[|parts| - 1], tx, false) == Ok(true)
    ensures McProofs.ShardSeqno(w.blocks[McId(m)].block.root, shard) == Ok(top)
    ensures PartsAreGenuine(w, shard, top, parts)
    ensures HasBlocksDown(w, shard, top, |parts|) ==> tx in w.blocks[BlockIdShort(shard, top - (|parts| - 1))].txs
  {
    top := TopIsGenuine(w, m, shard, mcBlock, parts[0]);
    AllPartsAreGenuine(w, shard, top, parts);
    if HasBlocksDown(w, shard, top, |parts|) {
      LastPartIsGenuine(w, shard, top, parts, tx);
    }
  }

  lemma AllPartsAreGenuine(w: World, shard: ShardIdent, top: nat, parts: seq<Cell>)
    requires BlocksOk(w) && ShardsOk(w) && shard != MASTERCHAIN && |parts| > 0 && Verifier.LinksDown(parts)
    requires BlockIdShort(shard, top) in w.blocks ==>
               Hash(parts[0]) == Hash(w.blocks[BlockIdShort(shard, top)].block.root)
    ensures PartsAreGenuine(w, shard, top, parts)
  {
    forall k: nat | k < |parts| && HasBlocksDown(w, shard, top, k + 1)
      ensures Hash(parts[k]) == Hash(w.blocks[BlockIdShort(shard, top - k)].block.root)
    {
      assert BlockIdShort(shard, top) in w.blocks;
      LinkedPartsAreGenuine(w, shard, top, parts, k);
    }
  }

  lemma LastPartIsGenuine(w: World, shard: ShardIdent, top: nat, parts: seq<Cell>, tx: TxId)
    requires BlocksOk(w) && InTxBounds(tx) && |parts| > 0
    requires HasBlocksDown(w, shard, top, |parts|) && PartsAreGenuine(w, shard, top, parts)
    requires FindTx(parts[|parts| - 1], tx, false) == Ok(true)
    ensures tx in w.blocks[BlockIdShort(shard, top - (|parts| - 1))].txs
  {
    var id := BlockIdShort(shard, top - (|parts| - 1));
    assert HasBlocksDown(w, shard, top, |parts| - 1 + 1);
    assert ContentOk(w.blocks[id]);
    OpenedTxIsListed(w.blocks[id], parts[|parts| - 1], tx, false);
  }

  /** The first shard part is the block that the masterchain block names. */
  lemma TopIsGenuine(w: World, m: nat, shard: ShardIdent, mcBlock: Cell, first: Cell) returns (top: nat)
    requires ValidWorld(w) && McId(m) in w.blocks && McProofs.ValidShard(shard)
    requires Hash(mcBlock) == Hash(w.blocks[McId(m)].block.root)
    requires McProofs.ShardRootHash(mcBlock, shard) == Ok(Hash(first))
    ensures McProofs.ShardSeqno(mcBlock, shard) == Ok(top)
    ensures McProofs.ShardSeqno(w.blocks[McId(m)].block.root, shard) == Ok(top)
    ensures BlockIdShort(shard, top) in w.blocks ==> Hash(first) == Hash(w.blocks[BlockIdShort(shard, top)].block.root)
  {
    assert ContentOk(w.blocks[McId(m)]) && TopNamed(w, m, shard);
    Verifier.TopDescrOpens(mcBlock, w.blocks[McId(m)].block.root, shard);
    top := McProofs.ShardSeqno(mcBlock, shard).value;
  }

  lemma OpenedTxIsListed(l: Linked, part: Cell, tx: TxId, includeInfo: bool)
    requires ContentOk(l) && Hash(part) == Hash(l.block.root) && FindTx(part, tx, includeInfo) == Ok(true)
    requires InTxBounds(tx)
    ensures tx in l.txs
  {
    Verifier.FindTxOpens(part, l.block.root, tx, includeInfo);
    TxBounds(tx);
    LookupMatchesList(l.block.root, tx);
  }

  /** A part that links to the next one of the chain's blocks. */
  lemma NextPartIsGenuine(w: World, newer: BlockIdShort, part: Cell, next: Cell)
    requires BlocksOk(w) && ShardsOk(w) && newer in w.blocks && newer.shard != MASTERCHAIN
    requires newer.seqno > 0 && PrevId(newer) in w.blocks
    requires Hash(part) == Hash(w.blocks[newer].block.root) && PrevRootHash(part) == Some(Hash(next))
    ensures Hash(next) == Hash(w.blocks[PrevId(newer)].block.root)
  {
    assert ShardBlockOk(w, newer) && ContentOk(w.blocks[newer]);
    NamedPrevIsRead(w.blocks[newer].block.root, Hash(w.blocks[PrevId(newer)].block.root));
    Verifier.PrevRootHashOpens(part, w.blocks[newer].block.root);
  }

  lemma {:induction false} LinkedPartsAreGenuine(w: World, shard: ShardIdent, top: nat, parts: seq<Cell>, k: nat)
    requires BlocksOk(w) && ShardsOk(w) && shard != MASTERCHAIN && Verifier.LinksDown(parts) && k < |parts|
    requires HasBlocksDown(w, shard, top, k + 1)
    requires Hash(parts[0]) == Hash(w.blocks[BlockIdShort(shard, top)].block.root)
    ensures BlockIdShort(shard, top - k) in w.blocks
    ensures Hash(parts[k]) == Hash(w.blocks[BlockIdShort(shard, top - k)].block.root)
  {
    if k > 0 {
      LinkedPartsAreGenuine(w, shard, top, parts, k - 1);
      var newer := BlockIdShort(shard, top - (k - 1));
      assert PrevId(newer) == BlockIdShort(shard, top - k);
      assert PrevRootHash(parts[k - 1]) == Some(Hash(parts[k - 1 + 1]));
      NextPartIsGenuine(w, newer, parts[k - 1], parts[k]);
    }
  }
}
