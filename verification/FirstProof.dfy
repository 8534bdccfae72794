/**
 The smallest chain with a shard: one masterchain block that names one shard block, which has one
 transaction. It meets all that is assumed of a chain, and the light node, driven over it, hands out
 a proof of the transaction.
 */
module FirstProof {
  import opened Results
  import opened Bytes
  import opened Cells
  import opened BitStrings
  import opened Blocks
  import opened StorageKeys
  import opened Signatures
  import opened ProofStorage
  import opened World
  import opened TableRows
  import opened LightNode
  import opened LightProofs
  import opened LightSubscriber
  import Dicts
  import ShardTree
  import McProofs

  const SHARD: ShardIdent := ShardIdent(0, ShardTree.HIGH_BIT)
  const SHARD_BLOCK: BlockIdShort := BlockIdShort(SHARD, 1)
  const NOTHING: Cell := Ordinary(Raw([]), [])
  const NODE: nat := 11

  const VSET: ValidatorSet := ValidatorSetData(0, 100, 1, 1, [Validator(NODE, 1)])

  // --- The blocks

  function Info(endLt: Uint64): Cell {
    Ordinary(BlockInfo(false, false, 1, endLt), [Ordinary(BlockRef(0, Hash(NOTHING)), [])])
  }

  /** The dictionary of account blocks, with one account and its one transaction. */
  function Accounts(tx: TxId): Cell {
    var transactions := DictLeaf(BitsOf(tx.lt, LT_BITS), TransactionRef);
    Ordinary(DictLeaf(BitsOf(tx.account, ACCOUNT_BITS), AccountBlock(tx.account, transactions)), [NOTHING])
  }

  function ShardRoot(endLt: Uint64, tx: TxId): Cell {
    var accounts := Ordinary(DictRoot(true), [Accounts(tx)]);
    Ordinary(BlockRoot, [Info(endLt), NOTHING, NOTHING, Ordinary(BlockExtra(false), [NOTHING, NOTHING, accounts])])
  }

  /** The dictionary of workchains, with one workchain and its one shard. */
  function Shards(top: Cell): Cell {
    Ordinary(DictLeaf(McProofs.WorkchainKey(0), WorkchainShards), [Ordinary(ShardLeaf(0xb, 1, Hash(top)), [])])
  }

  function McRoot(endLt: Uint64, top: Cell): Cell {
    var custom := Ordinary(McExtra(true), [Shards(top)]);
    var extra := Ordinary(BlockExtra(true), [NOTHING, NOTHING, Ordinary(DictRoot(false), []), custom]);
    Ordinary(BlockRoot, [Info(endLt), NOTHING, NOTHING, extra])
  }

  function ShardBlock(endLt: Uint64, tx: TxId): Block {
    Block(SHARD_BLOCK, 1, ShardRoot(endLt, tx), 50, [], None)
  }

  function McBlock(endLt: Uint64, tx: TxId): Block {
    Block(McId(1), 2, McRoot(endLt, ShardRoot(endLt, tx)), 50, [Ok(BlockSignature(NodeIdOf(NODE), 99))], None)
  }

  function Chain(endLt: Uint64, tx: TxId): World {
    World(map[SHARD_BLOCK := Linked(ShardBlock(endLt, tx), 1, [tx], McProofs.McBlockBoundInfo(0, []), 1),
              McId(1) := Linked(McBlock(endLt, tx), 1, [], McProofs.McBlockBoundInfo(endLt, [SHARD_BLOCK]), 0)],
          0, VSET, 100)
  }

  // --- What can be read from them

  lemma AccountsRead(tx: TxId)
    requires InTxBounds(tx)
    ensures Dicts.Entries(Accounts(tx), ACCOUNT_BITS)
            == Ok([Dicts.Entry(BitsOf(tx.account, ACCOUNT_BITS), [], Accounts(tx))])
    ensures IsAccountLeaf(Accounts(tx)) && ValueOf(BitsOf(tx.account, ACCOUNT_BITS)) == tx.account
    ensures TxsOfAccount(Accounts(tx)) == Ok([tx])
  {
    TxBounds(tx);
    ValueRoundTrip(tx.account, ACCOUNT_BITS);
    ValueRoundTrip(tx.lt, LT_BITS);
    var inner := Dicts.Entry(BitsOf(tx.lt, LT_BITS), [], Transactions(Accounts(tx)));
    assert Dicts.Entries(Transactions(Accounts(tx)), LT_BITS) == Ok([inner]);
    OneTxId(tx.account, inner);
  }

  lemma ShardRootReads(endLt: Uint64, tx: TxId)
    requires InTxBounds(tx)
    ensures TxList(ShardRoot(endLt, tx)) == Ok([tx]) && AccountsMatchKeys(ShardRoot(endLt, tx))
  {
    AccountsRead(tx);
    assert AccountsOf(ShardRoot(endLt, tx)) == Some(Accounts(tx));
    OneAccount(Dicts.Entry(BitsOf(tx.account, ACCOUNT_BITS), [], Accounts(tx)), tx);
  }

  lemma ShardRootIsFull(endLt: Uint64, tx: TxId)
    ensures IsFull(ShardRoot(endLt, tx))
  {
    var root := ShardRoot(endLt, tx);
    assert IsFull(NOTHING) && IsFull(Accounts(tx));
    assert IsFull(root.refs[3].refs[2]);
    assert IsFull(root.refs[3]);
    InfoIsFull(endLt);
    forall i | 0 <= i < |root.refs| ensures IsFull(root.refs[i]) {
    }
  }

  lemma OneTxId(account: nat, e: Dicts.Entry)
    requires IsTxLeaf(e.leaf)
    ensures TxIds(account, [e]) == Ok([TxId(account, ValueOf(e.key))])
  {
    assert [e][..|[e]| - 1] == [] && TxIds(account, []) == Ok([]);
    assert [e][|[e]| - 1] == e;
    assert [] + [TxId(account, ValueOf(e.key))] == [TxId(account, ValueOf(e.key))];
  }

  lemma OneAccount(e: Dicts.Entry, tx: TxId)
    requires TxsOfAccount(e.leaf) == Ok([tx])
    ensures TxsOf([e]) == Ok([tx])
  {
    assert [e][..|[e]| - 1] == [] && TxsOf([]) == Ok([]);
    assert [e][|[e]| - 1] == e && [] + [tx] == [tx];
  }

  lemma ShardsRead(top: Cell)
    ensures McProofs.TopIdsOfAll([Dicts.Entry(McProofs.WorkchainKey(0), [], Shards(top))]) == Ok([SHARD_BLOCK])
    ensures Dicts.Entries(Shards(top), WORKCHAIN_BITS)
            == Ok([Dicts.Entry(McProofs.WorkchainKey(0), [], Shards(top))])
    ensures McProofs.ShardDescr(Shards(top), McProofs.WorkchainKey(0), [])
            == Ok(Ordinary(ShardLeaf(0xb, 1, Hash(top)), []))
  {
    var e := Dicts.Entry(McProofs.WorkchainKey(0), [], Shards(top));
    var leaf := ShardTree.ShardEntry([], Ordinary(ShardLeaf(0xb, 1, Hash(top)), []));
    McProofs.WorkchainOfKey(0);
    assert ShardTree.Leaves(Shards(top).refs[0]) == Ok([leaf]);
    assert [leaf][1..] == [] && McProofs.TopIds(0, []) == Ok([]);
    assert McProofs.TopIds(0, [leaf]) == Ok([SHARD_BLOCK] + []);
    assert [SHARD_BLOCK] + [] == [SHARD_BLOCK];
    assert McProofs.TopIdsOf(e) == Ok([SHARD_BLOCK]);
    assert [e][1..] == [] && McProofs.TopIdsOfAll([]) == Ok([]);
  }

  lemma McRootIsFull(endLt: Uint64, top: Cell)
    ensures IsFull(McRoot(endLt, top))
  {
    var root := McRoot(endLt, top);
    assert IsFull(Shards(top).refs[0]) && IsFull(Shards(top));
    assert IsFull(root.refs[3].refs[3]) && IsFull(root.refs[3].refs[2]) && IsFull(NOTHING);
    assert IsFull(root.refs[3]);
    InfoIsFull(endLt);
    forall i | 0 <= i < |root.refs| ensures IsFull(root.refs[i]) {
    }
  }

  lemma McRootHasNoTxs(endLt: Uint64, top: Cell)
    ensures TxList(McRoot(endLt, top)) == Ok([]) && AccountsMatchKeys(McRoot(endLt, top))
  {
  }

  lemma McRootNamesTop(endLt: Uint64, top: Cell)
    ensures McProofs.TopShardIds(McRoot(endLt, top)) == Ok([SHARD_BLOCK])
    ensures McProofs.TopDescr(McRoot(endLt, top), SHARD) == Ok(ShardLeaf(0xb, 1, Hash(top)))
  {
    var root := McRoot(endLt, top);
    assert HasShards(root) && ShardsOf(root) == Some(Shards(top));
    assert ShardTree.PathBits(SHARD.prefix) == [];
    ShardsRead(top);
  }

  lemma InfoIsFull(endLt: Uint64)
    ensures IsFull(Info(endLt)) && IsInfo(Info(endLt))
  {
    assert IsFull(Info(endLt).refs[0]);
  }

  // --- It is a valid chain

  lemma ShardBlockIsOk(endLt: Uint64, tx: TxId)
    requires InTxBounds(tx) && endLt + 1 < U64_SPAN
    ensures var w := Chain(endLt, tx);
            && LinkOk(w, SHARD_BLOCK) && ContentOk(w.blocks[SHARD_BLOCK])
            && LinkOk(w, McId(1)) && ContentOk(w.blocks[McId(1)])
  {
    var top := ShardRoot(endLt, tx);
    InfoIsFull(endLt);
    ShardRootReads(endLt, tx);
    ShardRootIsFull(endLt, tx);
    McRootHasNoTxs(endLt, top);
    McRootNamesTop(endLt, top);
    McRootIsFull(endLt, top);
  }

  /** The same, without what is in the blocks. */
  ghost predicate IsSmallest(w: World, endLt: Uint64, tx: TxId, top: Cell) {
    && w.blocks.Keys == {SHARD_BLOCK, McId(1)}
    && w.blocks[SHARD_BLOCK].refBy == 1 && w.blocks[SHARD_BLOCK].txs == [tx] && w.blocks[SHARD_BLOCK].top == 1
    && w.blocks[SHARD_BLOCK].block.root == top
    && w.blocks[McId(1)].refBy == 1 && w.blocks[McId(1)].txs == []
    && w.blocks[McId(1)].bounds == McProofs.McBlockBoundInfo(endLt, [SHARD_BLOCK])
    && LinkOk(w, SHARD_BLOCK) && LinkOk(w, McId(1))
  }

  lemma ChainIsSmallest(endLt: Uint64, tx: TxId)
    requires InTxBounds(tx) && endLt + 1 < U64_SPAN
    ensures IsSmallest(Chain(endLt, tx), endLt, tx, ShardRoot(endLt, tx))
  {
    ShardBlockIsOk(endLt, tx);
  }

  lemma OnlyMcId(m: nat)
    ensures McId(m) in {SHARD_BLOCK, McId(1)} <==> m == 1
  {
  }

  lemma SmallestIsInTime(w: World, endLt: Uint64, tx: TxId, top: Cell)
    requires IsSmallest(w, endLt, tx, top) && tx.lt <= endLt
    ensures TimesGrow(w) && TxsInTime(w)
  {
    forall m: nat, n: nat | m <= n && McId(m) in w.blocks && McId(n) in w.blocks ensures m == n {
      OnlyMcId(m);
      OnlyMcId(n);
    }
  }

  lemma SmallestIsCovered(w: World, endLt: Uint64, tx: TxId, top: Cell)
    requires IsSmallest(w, endLt, tx, top)
    ensures LinksOk(w) && TopsCover(w)
  {
    forall id, m: nat, t | id in w.blocks && McId(m) in w.blocks && t in w.blocks[McId(m)].bounds.shardIds
      ensures w.blocks[id].refBy <= m
    {
      OnlyMcId(m);
    }
  }

  lemma OnlyShardIsNamed(endLt: Uint64, top: Cell, shard: ShardIdent)
    requires McProofs.ValidShard(shard)
    ensures var descr := McProofs.TopDescr(McRoot(endLt, top), shard);
            descr.Ok? ==> descr == Ok(ShardLeaf(0xb, 1, Hash(top))) && shard.workchain == 0
  {
    McProofs.WorkchainOfKey(0);
    McProofs.WorkchainOfKey(shard.workchain);
  }

  lemma SmallestIsNamed(w: World, endLt: Uint64, tx: TxId, top: Cell, m: nat, shard: ShardIdent)
    requires IsSmallest(w, endLt, tx, top) && w.blocks[McId(1)].block.root == McRoot(endLt, top)
    ensures TopNamed(w, m, shard)
  {
    OnlyMcId(m);
    if m == 1 && McProofs.ValidShard(shard) {
      OnlyShardIsNamed(endLt, top, shard);
      OnlyFirst(shard);
    }
  }

  lemma OnlyFirst(shard: ShardIdent)
    requires McProofs.ValidShard(shard)
    ensures BlockIdShort(shard, 1) in {SHARD_BLOCK, McId(1)} ==> shard == SHARD || shard == MASTERCHAIN
  {
  }

  lemma SmallestShardIsOk(w: World, endLt: Uint64, tx: TxId, top: Cell)
    requires IsSmallest(w, endLt, tx, top) && w.blocks[McId(1)].block.root == McRoot(endLt, top)
    ensures ShardsOk(w)
  {
    McRootNamesTop(endLt, top);
    SmallestIsNamed(w, endLt, tx, top, 1, SHARD);
    forall s: nat | 1 <= s <= 1
      ensures BlockIdShort(SHARD, s) in w.blocks && w.blocks[BlockIdShort(SHARD, s)].refBy == 1
    {
      assert BlockIdShort(SHARD, s) == SHARD_BLOCK;
    }
    assert WalkOk(w, SHARD_BLOCK) && TopOk(w, SHARD_BLOCK) && PrevOk(w, SHARD_BLOCK);
    assert ShardBlockOk(w, SHARD_BLOCK);
  }

  lemma ChainIsOrdered(endLt: Uint64, tx: TxId)
    requires InTxBounds(tx) && tx.lt <= endLt && endLt + 1 < U64_SPAN
    ensures OrderedWorld(Chain(endLt, tx))
  {
    var w, top := Chain(endLt, tx), ShardRoot(endLt, tx);
    ChainIsSmallest(endLt, tx);
    ShardBlockIsOk(endLt, tx);
    SmallestIsInTime(w, endLt, tx, top);
    SmallestIsCovered(w, endLt, tx, top);
  }

  /** The chain meets all that is assumed of a chain. */
  lemma ChainIsValid(endLt: Uint64, tx: TxId)
    requires InTxBounds(tx) && tx.lt <= endLt && endLt + 1 < U64_SPAN
    ensures ValidWorld(Chain(endLt, tx))
  {
    var w, top := Chain(endLt, tx), ShardRoot(endLt, tx);
    ChainIsOrdered(endLt, tx);
    ChainIsSmallest(endLt, tx);
    SmallestShardIsOk(w, endLt, tx, top);
    forall m: nat, shard ensures TopNamed(w, m, shard) {
      SmallestIsNamed(w, endLt, tx, top, m, shard);
    }
  }

  // --- The light node over it

  lemma StoredWithoutCollection(w: World, n: Node, n': Node, id: BlockIdShort, now: nat)
    requires Prepares(w, n, n', id, now) && !Skips(w.blocks[id].block, now, w.ttl)
    requires LinkOk(w, id) && !TakesTiming(w.blocks[id].block)
    ensures n'.live == WithBlock(n.live, id) && n'.prepared == n.prepared + {id} && n'.handled == n.handled
  {
    var l := w.blocks[id];
    var bound :| && Stores(n.db, n'.db, l.block, l.refBy, n.vset, now, w.ttl, bound)
                 && n' == Storing(n, id, now, n'.db, bound);
    var pruned, pivot :| StoresWith(n.db, n'.db, l.block, l.refBy, n.vset, now, w.ttl, pruned, pivot, bound);
  }

  lemma SignaturesArePrepared(endLt: Uint64, tx: TxId)
    ensures Prepared(McBlock(endLt, tx).signatures, VSET).Ok?
  {
    var signatures := McBlock(endLt, tx).signatures;
    forall id | id in SignerIds(signatures) ensures exists i :: 0 <= i < |VSET.list| && IdOf(VSET.list[i]) == id {
      assert IdOf(VSET.list[0]) == id;
    }
    PreparedExactly(signatures, VSET);
  }

  /** Stores a block that brings no collection. */
  method StoreOne(node: Subscriber, b: Block, signatures: Option<seq<Result<BlockSignature, Error>>>, now: nat)
    requires node.Valid() && now + 1 < U32_SPAN && b.id in node.w.blocks && node.w.blocks[b.id].block == b
    requires node.w.blocks[b.id].refBy == 1 == node.node.handled + 1 && !TakesTiming(b) && !Skips(b, now, node.w.ttl)
    requires b.IsMasterchain() ==> signatures == Some(b.signatures) && Prepared(b.signatures, node.node.vset).Ok?
    modifies node`node, node.proofs`db
    ensures node.Valid() && node.node.live == WithBlock(old(node.node.live), b.id)
    ensures node.node.prepared == old(node.node.prepared) + {b.id} && node.node.handled == 0
    ensures node.node.vset == old(node.node.vset)
  {
    ghost var n := node.node;
    assert LinkOk(node.w, b.id);
    var stored := node.PrepareBlock(b, signatures, 1, now, Skipped, Skipped);
    StoredWithoutCollection(node.w, n, node.node, b.id, now);
  }

  /** Both blocks are stored, and nothing was collected. */
  ghost predicate HasStoredBoth(w: World, n: Node) {
    n.live == WithBlock(WithBlock(NOTHING_STORED, SHARD_BLOCK), McId(1)) && n.prepared == {SHARD_BLOCK, McId(1)}
  }

  /** The two blocks of such a chain, none of which brings a collection or is outdated. */
  ghost predicate AreBlocks(w: World, block: Block, mcBlock: Block, now: nat) {
    && w.blocks.Keys == {SHARD_BLOCK, McId(1)} && w.start == 0
    && w.blocks[SHARD_BLOCK].block == block && w.blocks[McId(1)].block == mcBlock
    && block.id == SHARD_BLOCK && mcBlock.id == McId(1)
    && w.blocks[SHARD_BLOCK].refBy == 1 && w.blocks[McId(1)].refBy == 1
    && !TakesTiming(block) && !TakesTiming(mcBlock) && !Skips(block, now, w.ttl) && !Skips(mcBlock, now, w.ttl)
    && Prepared(mcBlock.signatures, w.initial).Ok? && mcBlock.keyVset == None
  }

  lemma BlocksCanBeStored(endLt: Uint64, tx: TxId, now: nat)
    requires InTxBounds(tx) && endLt + 1 < U64_SPAN && now <= 150
    ensures AreBlocks(Chain(endLt, tx), ShardBlock(endLt, tx), McBlock(endLt, tx), now)
  {
    SignaturesArePrepared(endLt, tx);
  }

  lemma BothAreThere(w: World, endLt: Uint64, tx: TxId, top: Cell, n: Node)
    requires IsSmallest(w, endLt, tx, top)
    requires n.live == n.seen == WithBlock(WithBlock(NOTHING_STORED, SHARD_BLOCK), McId(1))
    ensures Survives(w, n.live, 0, tx, SHARD_BLOCK) && IsIndexed(w, n.live, 0, tx)
    ensures forall id | Survives(w, n.live, 0, tx, id) :: id == SHARD_BLOCK
    ensures AllThere(w, n.seen, SHARD_BLOCK) && CanBePacked(w, SHARD_BLOCK)
  {
    assert Survives(w, n.live, 0, tx, SHARD_BLOCK);
    forall s: nat | 1 <= s <= 1 ensures Has(w, n.seen, BlockIdShort(SHARD, s)) {
      assert BlockIdShort(SHARD, s) == SHARD_BLOCK;
    }
  }

  /** Both blocks are stored, the masterchain block is handled, and then the proof is there. */
  method ProveFirst(endLt: Uint64, tx: TxId, now: nat) returns (proof: Cell)
    requires InTxBounds(tx) && tx.lt <= endLt && endLt + 1 < U64_SPAN && now <= 150
    ensures ValidWorld(Chain(endLt, tx)) && IsChainBlock(Chain(endLt, tx), SHARD_BLOCK)
    ensures ProvesTx(Chain(endLt, tx), SHARD_BLOCK, tx, proof)
  {
    ghost var w := Chain(endLt, tx);
    ChainIsValid(endLt, tx);
    ChainIsSmallest(endLt, tx);
    BlocksCanBeStored(endLt, tx, now);
    var node := new Subscriber(100, VSET, w);
    proof := ProveWith(node, ShardBlock(endLt, tx), McBlock(endLt, tx), endLt, tx, now);
  }

  method StoreBoth(node: Subscriber, block: Block, mcBlock: Block, now: nat)
    requires node.Valid() && node.node == Fresh(node.w) && AreBlocks(node.w, block, mcBlock, now) && now + 1 < U32_SPAN
    modifies node`node, node.proofs`db
    ensures node.Valid() && HasStoredBoth(node.w, node.node) && node.node.handled == 0
  {
    StoreOne(node, block, None, now);
    StoreSecond(node, block, mcBlock, now);
  }

  method StoreSecond(node: Subscriber, ghost block: Block, mcBlock: Block, now: nat)
    requires node.Valid() && AreBlocks(node.w, block, mcBlock, now) && now + 1 < U32_SPAN && node.node.handled == 0
    requires node.node.live == WithBlock(NOTHING_STORED, SHARD_BLOCK) && node.node.prepared == {SHARD_BLOCK}
    requires node.node.vset == node.w.initial
    modifies node`node, node.proofs`db
    ensures node.Valid() && HasStoredBoth(node.w, node.node) && node.node.handled == 0
  {
    StoreOne(node, mcBlock, Some(mcBlock.signatures), now);
  }

  method ProveWith(node: Subscriber, block: Block, mcBlock: Block, ghost endLt: Uint64, tx: TxId, now: nat)
    returns (proof: Cell)
    requires node.Valid() && node.node == Fresh(node.w) && AreBlocks(node.w, block, mcBlock, now) && now + 1 < U32_SPAN
    requires IsSmallest(node.w, endLt, tx, block.root) && InTxBounds(tx)
    modifies node, node.proofs
    ensures IsChainBlock(node.w, SHARD_BLOCK) && ProvesTx(node.w, SHARD_BLOCK, tx, proof)
  {
    StoreBoth(node, block, mcBlock, now);
    HandleBoth(node, mcBlock);
    proof := BuildFirst(node, endLt, tx, block.root);
  }

  method HandleBoth(node: Subscriber, mcBlock: Block)
    requires node.Valid() && node.node.handled == 0 && HasStoredBoth(node.w, node.node)
    requires node.w.blocks.Keys == {SHARD_BLOCK, McId(1)} && node.w.blocks[McId(1)].block == mcBlock
    requires mcBlock.id == McId(1) && mcBlock.keyVset == None
    modifies node`node, node.proofs
    ensures node.Valid() && node.node.live == node.node.seen == old(node.node.live)
  {
    var handled := node.HandleBlock(mcBlock, false);
  }

  method BuildFirst(node: Subscriber, ghost endLt: Uint64, tx: TxId, ghost top: Cell) returns (proof: Cell)
    requires node.Valid() && InTxBounds(tx) && IsSmallest(node.w, endLt, tx, top)
    requires node.node.live == node.node.seen == WithBlock(WithBlock(NOTHING_STORED, SHARD_BLOCK), McId(1))
    ensures IsChainBlock(node.w, SHARD_BLOCK) && ProvesTx(node.w, SHARD_BLOCK, tx, proof)
  {
    BothAreThere(node.w, endLt, tx, top, node.node);
    var built, id := node.BuildProof(0, tx, Skipped, Skipped);
    return built.value.value;
  }
}
