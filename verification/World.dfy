/**
 What the light node works on: the blocks of a chain, each with the masterchain block it belongs
 to, and what the network guarantees about them.
 */
module World {
  import opened Results
  import opened Bytes
  import opened Cells
  import opened Blocks
  import opened Signatures
  import opened ProofStorage
  import McProofs

  /** A block with the masterchain block it belongs to, and what can be read from it: its
      transactions, the end time and the shard tops of a masterchain block, and the top of a shard
      block's shard in its masterchain block. */
  datatype Linked = Linked(
    block: Block,
    refBy: nat,
    txs: seq<TxId>,
    bounds: McProofs.McBlockBoundInfo,
    top: nat)

  /** The blocks after masterchain block `start`, the validator set at that block, and how long the
      node keeps proofs. */
  datatype World = World(blocks: map<BlockIdShort, Linked>, start: nat, initial: ValidatorSet, ttl: nat)

  function McId(seqno: nat): BlockIdShort {
    BlockIdShort(MASTERCHAIN, seqno)
  }

  /** The masterchain block that a block belongs to. */
  function McOf(w: World, id: BlockIdShort): BlockIdShort
    requires id in w.blocks
  {
    McId(w.blocks[id].refBy)
  }

  // --- What each block guarantees

  ghost predicate LinkOk(w: World, id: BlockIdShort)
    requires id in w.blocks
  {
    var b, refBy := w.blocks[id].block, w.blocks[id].refBy;
    && b.id == id && NumbersOk(b)
    && w.start < refBy && refBy + 1 < U32_SPAN && McId(refBy) in w.blocks
    && (id.shard == MASTERCHAIN ==> id.seqno == refBy && w.blocks[id].bounds.endLt + 1 < U64_SPAN)
  }

  ghost predicate ContentOk(l: Linked) {
    && ValidBlock(l.block) && IsFull(l.block.root)
    && TxList(l.block.root) == Ok(l.txs) && IsInfo(l.block.root.refs[0])
    && (l.block.id.shard == MASTERCHAIN ==>
          && l.block.root.refs[0].data.endLt == l.bounds.endLt
          && McProofs.TopShardIds(l.block.root) == Ok(l.bounds.shardIds))
  }

  ghost predicate LinksOk(w: World) {
    forall id {:trigger LinkOk(w, id)} | id in w.blocks :: LinkOk(w, id)
  }

  ghost predicate BlocksOk(w: World) {
    LinksOk(w) && forall id {:trigger ContentOk(w.blocks[id])} | id in w.blocks :: ContentOk(w.blocks[id])
  }

  /** No split or merge between a block and the top of its shard in its masterchain block: the
      walk from that top down to the block stays in the shard and in the chain. */
  ghost predicate WalkOk(w: World, id: BlockIdShort)
    requires id in w.blocks
  {
    && id.seqno <= w.blocks[id].top
    && forall s: nat | id.seqno <= s <= w.blocks[id].top ::
         BlockIdShort(id.shard, s) in w.blocks && w.blocks[BlockIdShort(id.shard, s)].refBy == w.blocks[id].refBy
  }

  /** The masterchain block of a block names the top of its shard. */
  ghost predicate TopOk(w: World, id: BlockIdShort)
    requires id in w.blocks && McOf(w, id) in w.blocks && McProofs.ValidShard(id.shard)
  {
    McProofs.ShardSeqno(w.blocks[McOf(w, id)].block.root, id.shard) == Ok(w.blocks[id].top)
  }

  /** The top block that a masterchain block names for a shard, by its seqno and its hash. */
  ghost predicate TopNamed(w: World, m: nat, shard: ShardIdent) {
    McId(m) in w.blocks && McProofs.ValidShard(shard) ==>
      var descr := McProofs.TopDescr(w.blocks[McId(m)].block.root, shard);
      descr.Ok? && BlockIdShort(shard, descr.value.topSeqno) in w.blocks ==>
        descr.value.rootHash == Hash(w.blocks[BlockIdShort(shard, descr.value.topSeqno)].block.root)
  }

  function PrevId(id: BlockIdShort): BlockIdShort
    requires id.seqno > 0
  {
    BlockIdShort(id.shard, id.seqno - 1)
  }

  /** A block names the hash of the block before it in its shard, by the reference that comes after the
      one to a masterchain block, if there is one. */
  ghost predicate PrevOk(w: World, id: BlockIdShort)
    requires id in w.blocks
  {
    id.seqno > 0 && PrevId(id) in w.blocks ==>
      NamesPrev(w.blocks[id].block.root, Hash(w.blocks[PrevId(id)].block.root))
  }

  ghost predicate NamesPrev(root: Cell, hash: Digest) {
    IsBlock(root) && root.refs[0].Ordinary? && root.refs[0].data.BlockInfo? ==>
      var info := root.refs[0];
      if info.data.withMasterRef then |info.refs| > 1 && IsRefTo(info.refs[1], hash)
      else |info.refs| > 0 && IsRefTo(info.refs[0], hash)
  }

  predicate IsRefTo(ref: Cell, hash: Digest) {
    ref.Ordinary? && ref.data.BlockRef? && ref.data.rootHash == hash
  }

  lemma NamedPrevIsRead(root: Cell, hash: Digest)
    requires IsBlock(root) && IsInfo(root.refs[0]) && NamesPrev(root, hash)
    ensures PrevRootHash(root) == Some(hash)
  {
  }

  ghost predicate ShardBlockOk(w: World, id: BlockIdShort)
    requires id in w.blocks
  {
    LinkOk(w, id) && WalkOk(w, id) && TopOk(w, id) && PrevOk(w, id) && TopNamed(w, w.blocks[id].refBy, id.shard)
  }

  /** What holds of every block of a valid chain. */
  ghost predicate IsChainBlock(w: World, id: BlockIdShort) {
    id in w.blocks && LinkOk(w, id) && (id.shard != MASTERCHAIN ==> ShardBlockOk(w, id))
  }

  // --- What the blocks guarantee together

  /** End times and generation times of masterchain blocks never decrease. */
  ghost predicate TimesGrow(w: World) {
    forall m: nat, n: nat | m <= n && McId(m) in w.blocks && McId(n) in w.blocks ::
      && w.blocks[McId(m)].bounds.endLt <= w.blocks[McId(n)].bounds.endLt
      && w.blocks[McId(m)].block.genUtime <= w.blocks[McId(n)].block.genUtime
  }

  /** A transaction is not later than the end of the masterchain block of its block. */
  ghost predicate TxsInTime(w: World) {
    forall id, tx | id in w.blocks && McOf(w, id) in w.blocks && tx in w.blocks[id].txs ::
      tx.lt <= w.blocks[McOf(w, id)].bounds.endLt
  }

  /** What a masterchain block has under a shard top belongs to it or to an earlier one. */
  ghost predicate TopsCover(w: World) {
    forall id, m: nat, top | id in w.blocks && McId(m) in w.blocks && top in w.blocks[McId(m)].bounds.shardIds ::
      top.shard == id.shard && id.seqno <= top.seqno ==> w.blocks[id].refBy <= m
  }

  ghost predicate ShardsOk(w: World) {
    forall id {:trigger ShardBlockOk(w, id)} | id in w.blocks && id.shard != MASTERCHAIN :: ShardBlockOk(w, id)
  }

  /** What collections rely on: the order of times, and that a masterchain block covers what is under
      its tops. Shards may split and merge. */
  ghost predicate OrderedWorld(w: World) {
    BlocksOk(w) && TimesGrow(w) && TxsInTime(w) && TopsCover(w)
  }

  /** What the network guarantees about the blocks after masterchain block `start`. */
  ghost predicate ValidWorld(w: World) {
    && OrderedWorld(w)
    && ShardsOk(w) && (forall m: nat, shard {:trigger TopNamed(w, m, shard)} :: TopNamed(w, m, shard))
  }

  /** The validator set after masterchain block `m`: that of the latest key block. */
  function VsetAt(w: World, m: nat): ValidatorSet {
    if m <= w.start then w.initial
    else if McId(m) in w.blocks && w.blocks[McId(m)].block.keyVset.Some? then w.blocks[McId(m)].block.keyVset.value
    else VsetAt(w, m - 1)
  }

  /** The set that signs a block's masterchain block: the one before it. */
  function SigningVset(w: World, id: BlockIdShort): ValidatorSet
    requires id in w.blocks && w.blocks[id].refBy > 0
  {
    VsetAt(w, w.blocks[id].refBy - 1)
  }

  /** It is the set of the latest key block up to `m`, or the initial one if there is none. */
  lemma {:induction false} VsetIsOfLatestKeyBlock(w: World, m: nat)
    ensures var vset := VsetAt(w, m);
            || (vset == w.initial && forall k | w.start < k <= m && McId(k) in w.blocks ::
                  w.blocks[McId(k)].block.keyVset.None?)
            || (exists k :: w.start < k <= m && McId(k) in w.blocks && w.blocks[McId(k)].block.keyVset == Some(vset)
                  && forall j | k < j <= m && McId(j) in w.blocks :: w.blocks[McId(j)].block.keyVset.None?)
  {
    if m > w.start && !(McId(m) in w.blocks && w.blocks[McId(m)].block.keyVset.Some?) {
      VsetIsOfLatestKeyBlock(w, m - 1);
    }
  }
}
