/**
 The block subscriber of the light node: the order in which it drives the proof storage makes every
 sequence of its calls a run, and so every proof it hands out is right, whatever is collected.
 Each call tells when it keeps the invariant under which collection strands nothing.
 */
module LightSubscriber {
  import opened Results
  import opened Bytes
  import opened Cells
  import opened Blocks
  import opened StorageKeys
  import opened Signatures
  import opened ProofStorage
  import opened World
  import opened TableRows
  import opened LightNode
  import opened LightCollection
  import opened LightProofs

  datatype SubscriberError = NoSignatures | StorageFailed(error: StorageError)

  class Subscriber {
    const proofs: Storage
    ghost const w: World
    /** The state that the run has reached. */
    ghost var node: Node

    ghost predicate Valid()
      reads this, proofs
    {
      && proofs.Valid() && proofs.minProofTtlSec == w.ttl && ValidWorld(w) && Recorded(w, node)
      && node.db == proofs.db && node.snapshot == proofs.snapshot && proofs.currentVset == Some(node.vset)
    }

    /** `init` of a fresh storage, with the validator set of the latest key block. */
    constructor (minProofTtlSec: nat, currentVset: ValidatorSet, ghost w: World)
      requires ValidWorld(w) && w.ttl == minProofTtlSec && w.initial == currentVset
      ensures Valid() && fresh(proofs) && this.w == w && node == Fresh(w) && Inv(w, node)
    {
      var storage := new Storage(EMPTY, minProofTtlSec);
      storage.SetCurrentVset(currentVset);
      FreshKeepsInv(w);
      this.proofs, this.w, this.node := storage, w, Fresh(w);
    }

    /** `init` on the database of an earlier run, to go on after masterchain block `m`, with the
        validator set of the latest key block up to there. */
    constructor Restarted(db: Tables, minProofTtlSec: nat, currentVset: ValidatorSet, ghost w: World, ghost n: Node,
                          ghost m: nat)
      requires ValidWorld(w) && w.ttl == minProofTtlSec && Recorded(w, n) && n.db == db
      requires w.start <= m <= n.handled && currentVset == VsetAt(w, m)
      ensures Valid() && fresh(proofs) && this.w == w && Restarts(w, n, node, m)
      ensures Inv(w, n) ==> (Inv(w, node) <==> AllBefore(n.live, m + 1))
    {
      var storage := new Storage(db, minProofTtlSec);
      storage.SetCurrentVset(currentVset);
      ghost var n' := Restarting(w, n, m);
      this.proofs, this.w, this.node := storage, w, n';
    }

    /** `prepare_block`: stores the proofs of one block of the next masterchain block, with the
        signatures of its own proof if it is the masterchain block itself. It may be called again
        for the same block, at any time. */
    method PrepareBlock(b: Block, proofSignatures: Option<seq<Result<BlockSignature, Error>>>, mcSeqno: nat, now: nat,
                        keptInPruned: Marks, keptInPivot: Marks)
      returns (r: Result<(), SubscriberError>)
      requires Valid() && now + 1 < U32_SPAN
      requires b.id in w.blocks && mcSeqno == w.blocks[b.id].refBy == node.handled + 1 && w.blocks[b.id].block == b
      requires b.IsMasterchain() && proofSignatures.Some? ==> proofSignatures.value == b.signatures
      modifies this`node, proofs`db
      ensures Valid()
      ensures r.Ok? <==>
                && (b.IsMasterchain() ==> proofSignatures.Some?)
                && (Skips(b, now, w.ttl) || (b.IsMasterchain() ==> Prepared(b.signatures, old(node).vset).Ok?))
      ensures r.Ok? ==> Prepares(w, old(node), node, b.id, now)
      ensures r.Err? ==> node == old(node)
      ensures r.Ok? && Inv(w, old(node)) ==> (Inv(w, node) <==> !Ahead(w, old(node), b.id, now))
    {
      if b.IsMasterchain() && proofSignatures.None? {
        return Err(NoSignatures);
      }
      CanBePrepared(w, node, b.id, now);
      r := StoreProofs(b, mcSeqno, now, keptInPruned, keptInPivot);
    }

    /** The last step of `prepare_block`. */
    method StoreProofs(b: Block, mcSeqno: nat, now: nat, keptInPruned: Marks, keptInPivot: Marks)
      returns (r: Result<(), SubscriberError>)
      requires Valid() && ValidBlock(b) && CanPrepare(w, node, b.id, now)
      requires w.blocks[b.id].block == b && mcSeqno == w.blocks[b.id].refBy
      modifies this`node, proofs`db
      ensures Valid()
      ensures r.Ok? <==> Skips(b, now, w.ttl) || Storable(old(node).db, b, old(node).vset, now, w.ttl)
      ensures r.Ok? ==> Prepares(w, old(node), node, b.id, now)
      ensures r.Err? ==> node == old(node)
      ensures r.Ok? && Inv(w, old(node)) ==> (Inv(w, node) <==> !Ahead(w, old(node), b.id, now))
    {
      var stored;
      ghost var bound;
      stored, bound := proofs.StoreBlock(b, mcSeqno, now, keptInPruned, keptInPivot);
      if stored.Err? {
        return Err(StorageFailed(stored.error));
      }
      if stored.value {
        node := StoringPrepares(w, node, b.id, now, proofs.db, bound);
      } else {
        node := SkippingPrepares(w, node, b.id, now);
      }
      return Ok(());
    }

    /** `handle_block` of the next masterchain block: renews the snapshot, and then a key block
        replaces the current validator set. */
    method HandleBlock(b: Block, isKeyBlock: bool) returns (r: Result<(), SubscriberError>)
      requires Valid()
      requires b.id == McId(node.handled + 1) && b.id in w.blocks && w.blocks[b.id].block == b
      requires isKeyBlock == b.keyVset.Some?
      requires forall id | id in w.blocks && w.blocks[id].refBy == node.handled + 1 :: id in node.prepared
      modifies this`node, proofs`snapshot, proofs`currentVset
      ensures r.Ok? && Valid() && Handles(w, old(node), node)
      ensures Inv(w, old(node)) ==> Inv(w, node)
    {
      ghost var before := node;
      if b.IsMasterchain() {
        proofs.UpdateSnapshot();
      }
      if isKeyBlock {
        proofs.SetCurrentVset(b.keyVset.value);
      }
      node := Handling(w, before);
      return Ok(());
    }

    /** The first part of `build_proof`, at any moment of a run: there is an index row exactly for a
        transaction of a stored block that no collection since has reached. */
    method ReadIndex(workchain: int, tx: TxId) returns (value: Option<ByteString>)
      requires Valid() && IsI8(workchain) && InTxBounds(tx)
      ensures value.Some? <==> IsIndexed(w, node.live, workchain, tx)
      ensures value.Some? ==> IsRowOf(node, workchain, tx, value.value)
    {
      value := proofs.ReadIndex(workchain, tx);
      IndexedExactly(w, node, workchain, tx);
    }

    /** The rest of `build_proof`, at any other moment: it builds a proof exactly when the snapshot has
        all rows on the way and the chain can be packed, and whatever it builds proves the
        transaction. */
    method BuildFromRow(workchain: int, tx: TxId, value: ByteString, keptInTx: Marks, keptInMc: Marks, ghost at: Node)
      returns (r: Result<Cell, StorageError>, ghost id: BlockIdShort)
      requires Valid() && IsI8(workchain) && InTxBounds(tx) && Recorded(w, at) && IsRowOf(at, workchain, tx, value)
      ensures IsChainBlock(w, id) && Survives(w, at.live, workchain, tx, id)
      ensures r.Ok? <==> AllThere(w, node.seen, id) && CanBePacked(w, id)
      ensures ThereAsSeen(w, node, id)
      ensures r.Ok? ==> ProvesTx(w, id, tx, r.value)
    {
      r := proofs.BuildFromRow(workchain, tx, value, keptInTx, keptInMc);
      id := AnswerIsRight(w, at, node, workchain, tx, value, r);
    }

    /** `build_proof` when nothing happens between its parts: nothing exactly for a transaction that
        is not indexed, and otherwise a proof exactly when the snapshot has all rows on the way and the
        chain can be packed. As long as no collection is bound ahead, collection never makes it fail:
        it then has them if it has seen them, and as far as the block is handled that is if none
        was skipped. */
    method BuildProof(workchain: int, tx: TxId, keptInTx: Marks, keptInMc: Marks)
      returns (r: Result<Option<Cell>, StorageError>, ghost id: BlockIdShort)
      requires Valid() && IsI8(workchain) && InTxBounds(tx)
      ensures r == Ok(None) <==> !IsIndexed(w, node.live, workchain, tx)
      ensures r != Ok(None) ==>
                && IsChainBlock(w, id) && Survives(w, node.live, workchain, tx, id)
                && (r.Ok? <==> AllThere(w, node.seen, id) && CanBePacked(w, id))
                && (r.Ok? ==> r.value.Some? && ProvesTx(w, id, tx, r.value.value))
                && ThereAsSeen(w, node, id) && (Inv(w, node) ==> AllBefore(node.seen, w.blocks[id].refBy))
    {
      id := BlockIdShort(MASTERCHAIN, 0);
      var value := ReadIndex(workchain, tx);
      if value.None? {
        return Ok(None), id;
      }
      var proof;
      proof, id := BuildFromRow(workchain, tx, value.value, keptInTx, keptInMc, node);
      OwnSnapshot(w, node, workchain, tx, id);
      return if proof.Ok? then Ok(Some(proof.value)) else Err(proof.error), id;
    }
  }

  // --- The steps of the calls

  lemma CanBePrepared(w: World, n: Node, id: BlockIdShort, now: nat)
    requires BlocksOk(w) && Recorded(w, n)
    requires now + 1 < U32_SPAN && id in w.blocks && w.blocks[id].refBy == n.handled + 1
    ensures CanPrepare(w, n, id, now) && ValidBlock(w.blocks[id].block)
    ensures var b := w.blocks[id].block;
            Storable(n.db, b, n.vset, now, w.ttl) <==> b.IsMasterchain() ==> Prepared(b.signatures, n.vset).Ok?
  {
    assert LinkOk(w, id) && ContentOk(w.blocks[id]);
    StorableExactly(w, n, id, now);
  }

  lemma StoringPrepares(w: World, n: Node, id: BlockIdShort, now: nat, db: Tables, bound: Option<OutdatedBound>)
    returns (n': Node)
    requires OrderedWorld(w) && Recorded(w, n) && CanPrepare(w, n, id, now)
    requires !Skips(w.blocks[id].block, now, w.ttl)
    requires Stores(n.db, db, w.blocks[id].block, w.blocks[id].refBy, n.vset, now, w.ttl, bound)
    ensures n' == Storing(n, id, now, db, bound) && Prepares(w, n, n', id, now) && Recorded(w, n')
    ensures Inv(w, n) ==> (Inv(w, n') <==> !Ahead(w, n, id, now))
  {
    n' := Storing(n, id, now, db, bound);
    StoringIsStep(w, n, id, now, db, bound);
    StoringIsRecorded(w, n, id, now, db, bound);
    if Inv(w, n) {
      StoringKeepsInv(w, n, id, now, db, bound);
    }
  }

  lemma StoringIsStep(w: World, n: Node, id: BlockIdShort, now: nat, db: Tables, bound: Option<OutdatedBound>)
    requires WellFormed(n.db) && CanPrepare(w, n, id, now) && !Skips(w.blocks[id].block, now, w.ttl)
    requires Stores(n.db, db, w.blocks[id].block, w.blocks[id].refBy, n.vset, now, w.ttl, bound)
    ensures Prepares(w, n, Storing(n, id, now, db, bound), id, now)
  {
  }

  lemma SkippingPrepares(w: World, n: Node, id: BlockIdShort, now: nat) returns (n': Node)
    requires OrderedWorld(w) && Recorded(w, n) && CanPrepare(w, n, id, now) && Skips(w.blocks[id].block, now, w.ttl)
    ensures n' == Skipping(n, id, now) && Prepares(w, n, n', id, now) && Recorded(w, n')
    ensures Inv(w, n) ==> (Inv(w, n') <==> !Ahead(w, n, id, now))
  {
    n' := Skipping(n, id, now);
    SkippingIsRecorded(w, n, id, now);
    if Inv(w, n) {
      PrepareKeepsInv(w, n, n', id, now);
    }
  }

  lemma Handling(w: World, n: Node) returns (n': Node)
    requires LinksOk(w) && Recorded(w, n) && McId(n.handled + 1) in w.blocks
    requires forall id | id in w.blocks && w.blocks[id].refBy == n.handled + 1 :: id in n.prepared
    ensures Handles(w, n, n') && Recorded(w, n') && (Inv(w, n) ==> Inv(w, n'))
  {
    var key := w.blocks[McId(n.handled + 1)].block.keyVset;
    n' := n.(snapshot := n.db, seen := n.live, handled := n.handled + 1, prepared := {},
             vset := if key.Some? then key.value else n.vset);
    HandleIsRecorded(w, n, n');
    if Inv(w, n) {
      HandleKeepsInv(w, n, n');
    }
  }

  lemma Restarting(w: World, n: Node, m: nat) returns (n': Node)
    requires Recorded(w, n) && w.start <= m <= n.handled
    ensures Restarts(w, n, n', m) && Recorded(w, n')
    ensures Inv(w, n) ==> (Inv(w, n') <==> AllBefore(n.live, m + 1))
  {
    n' := n.(snapshot := n.db, seen := n.live, handled := m, prepared := {}, vset := VsetAt(w, m));
    RestartIsRecorded(w, n, n', m);
    if Inv(w, n) {
      RestartKeepsInv(w, n, n', m);
    }
  }

  // --- The answers

  /** What of the way is there: if all collections that the snapshot knows are bound before the block,
      all that it has seen; and if the block is handled, all that was not skipped. */
  ghost predicate ThereAsSeen(w: World, n: Node, id: BlockIdShort)
    requires id in w.blocks
  {
    && (AllBefore(n.seen, w.blocks[id].refBy) ==> (AllThere(w, n.seen, id) <==> AllSeen(w, Stored(n.seen), id)))
    && (w.blocks[id].refBy <= n.handled ==>
          (AllSeen(w, Stored(n.seen), id) <==> NothingSkipped(w, n.skipped, id)))
  }

  lemma AnswerIsRight(w: World, at: Node, n: Node, workchain: int, tx: TxId, value: ByteString,
                      r: Result<Cell, StorageError>)
    returns (id: BlockIdShort)
    requires ValidWorld(w) && Recorded(w, at) && Recorded(w, n)
    requires IsI8(workchain) && InTxBounds(tx) && IsRowOf(at, workchain, tx, value)
    requires r.Ok? <==> Buildable(n.snapshot, workchain == -1, RowId(value), RefOfValue(value), tx)
    requires r.Ok? ==> IsProofOf(n.snapshot, workchain == -1, RowId(value), RefOfValue(value), tx, r.value)
    ensures IsChainBlock(w, id) && Survives(w, at.live, workchain, tx, id)
    ensures r.Ok? <==> AllThere(w, n.seen, id) && CanBePacked(w, id)
    ensures ThereAsSeen(w, n, id)
    ensures r.Ok? ==> ProvesTx(w, id, tx, r.value)
  {
    id := BuildableExactly(w, at, n, workchain, tx);
    if r.Ok? {
      var same := ProofIsRight(w, at, n, workchain, tx, r.value);
    }
  }

  lemma OwnSnapshot(w: World, n: Node, workchain: int, tx: TxId, id: BlockIdShort)
    requires OrderedWorld(w) && Survives(w, n.live, workchain, tx, id) && LinkOk(w, id)
    ensures Inv(w, n) ==> AllBefore(n.seen, w.blocks[id].refBy)
  {
    if Inv(w, n) {
      OwnSnapshotIsBefore(w, n, workchain, tx, id);
    }
  }

  /** What `build_proof` read from the live table in some state of the node. */
  ghost predicate IsRowOf(n: Node, workchain: int, tx: TxId, value: ByteString)
    requires InTxBounds(tx)
  {
    var key := TxKey(workchain, tx);
    key in n.db.transactions && value == n.db.transactions[key] && IsIndexValue(value)
  }
}
