/**
 The light node over whole runs. For each masterchain block, its shard blocks and the block itself
 are prepared in any order, any of them more than once (each time one batch in the storage), and
 then the masterchain block is handled: the snapshot is renewed, and a key block replaces the
 current validator set. At any time the node may restart on its database.

 In every state such a run can reach, the tables and the snapshot hold exactly what the history of
 blocks and collections says.
 */
module LightNode {
  import opened Results
  import opened Bytes
  import opened Blocks
  import opened StorageKeys
  import opened Signatures
  import opened ProofStorage
  import opened World
  import opened TableRows
  import McProofs

  /** The storage, and what has happened so far. Masterchain blocks up to `handled` are handled;
      `prepared` are the blocks of the next one that are prepared. The live tables have the history
      `live` and the snapshot the history `seen`; the blocks in `skipped` were prepared but never
      stored. No clock reading was later than `clock`. */
  datatype Node = Node(
    db: Tables,
    snapshot: Tables,
    vset: ValidatorSet,
    handled: nat,
    prepared: set<BlockIdShort>,
    skipped: set<BlockIdShort>,
    live: History,
    seen: History,
    clock: nat)

  function Fresh(w: World): Node {
    Node(EMPTY, EMPTY, w.initial, w.start, {}, {}, NOTHING_STORED, NOTHING_STORED, 0)
  }

  function Max(a: nat, b: nat): nat {
    if a > b then a else b
  }

  // --- Steps

  ghost predicate CanPrepare(w: World, n: Node, id: BlockIdShort, now: nat) {
    id in w.blocks && LinkOk(w, id) && w.blocks[id].refBy == n.handled + 1 && now + 1 < U32_SPAN
  }

  /** `prepare_block` of a block that is outdated by now. */
  function Skipping(n: Node, id: BlockIdShort, now: nat): Node {
    n.(prepared := n.prepared + {id}, clock := Max(n.clock, now),
       skipped := if id in n.live.since then n.skipped else n.skipped + {id})
  }

  /** `prepare_block` of a block whose batch gives these tables. */
  function Storing(n: Node, id: BlockIdShort, now: nat, db: Tables, bound: Option<OutdatedBound>): Node {
    n.(db := db, prepared := n.prepared + {id}, clock := Max(n.clock, now),
       skipped := n.skipped - {id}, live := CollectedBy(WithBlock(n.live, id), bound))
  }

  /** `prepare_block`, for a block of the next masterchain block. */
  ghost predicate Prepares(w: World, n: Node, n': Node, id: BlockIdShort, now: nat) {
    && CanPrepare(w, n, id, now) && WellFormed(n.db)
    && var l := w.blocks[id];
       if Skips(l.block, now, w.ttl) then n' == Skipping(n, id, now)
       else exists bound ::
              && Stores(n.db, n'.db, l.block, l.refBy, n.vset, now, w.ttl, bound)
              && n' == Storing(n, id, now, n'.db, bound)
  }

  /** `handle_block` of the next masterchain block, once all its blocks are prepared. */
  ghost predicate Handles(w: World, n: Node, n': Node) {
    var m := n.handled + 1;
    && McId(m) in w.blocks
    && (forall id | id in w.blocks && w.blocks[id].refBy == m :: id in n.prepared)
    && n' == n.(snapshot := n.db, seen := n.live, handled := m, prepared := {},
                vset := if w.blocks[McId(m)].block.keyVset.Some? then w.blocks[McId(m)].block.keyVset.value else n.vset)
  }

  /** A restart opens the database with a new snapshot, finds the validator set of the latest key
      block, and goes on after masterchain block `m`, which may have been handled a while ago. */
  ghost predicate Restarts(w: World, n: Node, n': Node, m: nat) {
    && w.start <= m <= n.handled
    && n' == n.(snapshot := n.db, seen := n.live, handled := m, prepared := {}, vset := VsetAt(w, m))
  }

  ghost predicate Steps(w: World, n: Node, n': Node) {
    || Handles(w, n, n')
    || (exists m :: Restarts(w, n, n', m))
    || (exists id, now :: Prepares(w, n, n', id, now))
  }

  ghost predicate IsRun(w: World, run: seq<Node>) {
    && |run| > 0
    && if |run| == 1 then run[0] == Fresh(w)
       else IsRun(w, run[..|run| - 1]) && Steps(w, run[|run| - 2], run[|run| - 1])
  }

  // --- What holds in every reachable state

  function UpTo(w: World, m: nat): set<BlockIdShort> {
    set id | id in w.blocks && w.blocks[id].refBy <= m
  }

  ghost predicate Bookkeeping(w: World, n: Node) {
    && Stored(n.live) <= w.blocks.Keys && n.skipped <= w.blocks.Keys
    && Stored(n.live) !! n.skipped && Stored(n.seen) <= Stored(n.live)
    && n.seen.collections <= n.live.collections
    && n.prepared <= Stored(n.live) + n.skipped
    && UpTo(w, n.handled) <= Stored(n.live) + n.skipped
    && UpTo(w, n.handled) * Stored(n.live) <= Stored(n.seen)
  }

  /** Every collection so far was bound by a masterchain block at least as old as proofs are kept, and
      removed no younger timings. */
  ghost predicate BoundsAreOld(w: World, n: Node) {
    && (forall j: nat | j < |n.live.collections| :: IsOld(w, n.live.collections[j], n.clock))
    && (forall j: nat | j < |n.live.times| :: n.live.times[j] <= SaturatingSub(n.clock, w.ttl))
    && (forall j: nat | j < |n.live.times| :: IsDated(w, n.live, j))
  }

  /** The masterchain block that bounds a collection is not younger than the timings removed. */
  ghost predicate IsDated(w: World, h: History, j: nat)
    requires j < |h.times|
  {
    j < |h.collections| ==>
      McId(h.collections[j]) in w.blocks && w.blocks[McId(h.collections[j])].block.genUtime <= h.times[j]
  }

  /** The live tables and the snapshot hold exactly what their histories say, and nothing young was
      collected. */
  ghost predicate Recorded(w: World, n: Node) {
    && Bookkeeping(w, n) && BoundsAreOld(w, n) && n.vset == VsetAt(w, n.handled)
    && TablesOk(w, n.live, n.db) && TablesOk(w, n.seen, n.snapshot)
  }

  lemma FreshIsRecorded(w: World)
    requires LinksOk(w)
    ensures Recorded(w, Fresh(w))
  {
    forall id | id in w.blocks ensures w.blocks[id].refBy > w.start {
      assert LinkOk(w, id);
    }
  }

  lemma StoringKeepsBookkeeping(w: World, n: Node, id: BlockIdShort, now: nat, db: Tables, bound: Option<OutdatedBound>)
    requires Bookkeeping(w, n) && CanPrepare(w, n, id, now)
    ensures Bookkeeping(w, Storing(n, id, now, db, bound))
  {
  }

  lemma SkippingKeepsBookkeeping(w: World, n: Node, id: BlockIdShort, now: nat)
    requires Bookkeeping(w, n) && CanPrepare(w, n, id, now)
    ensures Bookkeeping(w, Skipping(n, id, now))
  {
  }

  lemma StoringKeepsBounds(w: World, n: Node, id: BlockIdShort, now: nat, db: Tables, bound: Option<OutdatedBound>)
    requires HistoryOk(w, n.live) && BoundsAreOld(w, n) && BoundOk(w, n.live, now, bound)
    ensures BoundsAreOld(w, Storing(n, id, now, db, bound))
  {
    var n' := Storing(n, id, now, db, bound);
    forall j: nat | j < |n'.live.collections| ensures IsOld(w, n'.live.collections[j], n'.clock) {
      if j < |n.live.collections| {
        assert IsOld(w, n.live.collections[j], n.clock);
      }
    }
    forall j: nat | j < |n'.live.times| ensures IsDated(w, n'.live, j) {
      if j < |n.live.times| {
        assert IsDated(w, n.live, j);
      }
    }
  }

  /** The current validator set is the one that signs the masterchain block being prepared. */
  lemma VsetSigns(w: World, n: Node, id: BlockIdShort, now: nat)
    requires CanPrepare(w, n, id, now) && n.vset == VsetAt(w, n.handled)
    ensures n.vset == SigningVset(w, id)
  {
  }

  lemma StoringIsRecorded(w: World, n: Node, id: BlockIdShort, now: nat, db: Tables, bound: Option<OutdatedBound>)
    requires BlocksOk(w) && Recorded(w, n) && CanPrepare(w, n, id, now) && IsI8(id.shard.workchain)
    requires Stores(n.db, db, w.blocks[id].block, w.blocks[id].refBy, n.vset, now, w.ttl, bound)
    ensures Recorded(w, Storing(n, id, now, db, bound)) && BoundOk(w, n.live, now, bound)
    ensures bound.Some? ==> TakesTiming(w.blocks[id].block)
  {
    VsetSigns(w, n, id, now);
    StoreKeepsTables(w, n.live, n.db, db, id, now, bound);
    StoringKeepsBounds(w, n, id, now, db, bound);
    StoringKeepsBookkeeping(w, n, id, now, db, bound);
  }

  lemma SkippingIsRecorded(w: World, n: Node, id: BlockIdShort, now: nat)
    requires Recorded(w, n) && CanPrepare(w, n, id, now)
    ensures Recorded(w, Skipping(n, id, now))
  {
    SkippingKeepsBookkeeping(w, n, id, now);
    var n' := Skipping(n, id, now);
    forall j: nat | j < |n'.live.collections| ensures IsOld(w, n'.live.collections[j], n'.clock) {
      assert IsOld(w, n.live.collections[j], n.clock);
    }
  }

  lemma PrepareIsRecorded(w: World, n: Node, n': Node, id: BlockIdShort, now: nat)
    requires BlocksOk(w) && Recorded(w, n) && Prepares(w, n, n', id, now)
    ensures Recorded(w, n')
  {
    var l := w.blocks[id];
    if Skips(l.block, now, w.ttl) {
      SkippingIsRecorded(w, n, id, now);
    } else {
      var bound :| && Stores(n.db, n'.db, l.block, l.refBy, n.vset, now, w.ttl, bound)
                   && n' == Storing(n, id, now, n'.db, bound);
      StoringIsRecorded(w, n, id, now, n'.db, bound);
    }
  }

  lemma HandleIsRecorded(w: World, n: Node, n': Node)
    requires LinksOk(w) && Recorded(w, n) && Handles(w, n, n')
    ensures Recorded(w, n')
  {
    assert LinkOk(w, McId(n'.handled));
  }

  lemma RestartIsRecorded(w: World, n: Node, n': Node, m: nat)
    requires Recorded(w, n) && Restarts(w, n, n', m)
    ensures Recorded(w, n')
  {
  }

  /** Every state of every run from an empty storage, whatever is collected. */
  lemma {:induction false} RunIsRecorded(w: World, run: seq<Node>)
    requires BlocksOk(w) && IsRun(w, run)
    ensures Recorded(w, run[|run| - 1])
  {
    if |run| == 1 {
      FreshIsRecorded(w);
    } else {
      var init := run[..|run| - 1];
      RunIsRecorded(w, init);
      StepIsRecorded(w, init[|init| - 1], run[|run| - 1]);
    }
  }

  lemma StepIsRecorded(w: World, n: Node, n': Node)
    requires BlocksOk(w) && Recorded(w, n) && Steps(w, n, n')
    ensures Recorded(w, n')
  {
    if Handles(w, n, n') {
      HandleIsRecorded(w, n, n');
    } else if m :| Restarts(w, n, n', m) {
      RestartIsRecorded(w, n, n', m);
    } else {
      var id, now :| Prepares(w, n, n', id, now);
      PrepareIsRecorded(w, n, n', id, now);
    }
  }

  /** A block of the chain can be stored exactly when it has no signatures or they all belong to the
      current validator set: nothing else ever stands in its way. */
  lemma StorableExactly(w: World, n: Node, id: BlockIdShort, now: nat)
    requires BlocksOk(w) && Recorded(w, n) && id in w.blocks && now < U32_SPAN
    ensures var b := w.blocks[id].block;
            Storable(n.db, b, n.vset, now, w.ttl) <==> b.IsMasterchain() ==> Prepared(b.signatures, n.vset).Ok?
  {
    var b := w.blocks[id].block;
    BoundAlwaysReads(w, n.live, n.db, SaturatingSub(now, w.ttl));
    assert LinkOk(w, id) && ContentOk(w.blocks[id]);
    if b.IsMasterchain() {
      McProofs.ListedAreReadable(b.root);
    }
  }

  /** Which block rows are there, exactly: those of a stored block that no collection since its last
      storing takes. Old rows go with the first collection whose bound for their shard is at or above
      them; rows of a shard that no later collection has a bound for stay forever. */
  lemma BlockRowsExactly(w: World, n: Node, id: BlockIdShort)
    requires Recorded(w, n) && id in w.blocks && Keyable(id)
    ensures KeyOf(id) in n.db.prunedBlocks <==> Has(w, n.live, id)
    ensures KeyOf(id) in n.db.pivotBlocks <==> Has(w, n.live, id)
  {
    assert RowsOk(w, n.live, n.db, id);
  }

  /** Which timings are there, exactly: those of the stored hundredth masterchain blocks since whose
      storing no collection has removed timings of their time. */
  lemma TimingRowsExactly(w: World, n: Node, time: nat)
    requires Recorded(w, n) && time < U32_SPAN
    ensures U32Key(time) in n.db.timings <==> IsTimed(w, n.live, time)
  {
    assert ExactTimings(w, n.live, n.db);
  }

  /** No timing is lost before its time: a stored hundredth masterchain block has its timing as long as
      it is younger than proofs are kept. */
  lemma YoungTimingStays(w: World, n: Node, m: nat)
    requires LinksOk(w) && Recorded(w, n) && McId(m) in n.live.since && McId(m) in w.blocks && m % 100 == 0
    requires w.blocks[McId(m)].block.genUtime > SaturatingSub(n.clock, w.ttl)
    ensures LinkOk(w, McId(m)) && U32Key(w.blocks[McId(m)].block.genUtime) in n.db.timings
  {
    var time := w.blocks[McId(m)].block.genUtime;
    assert LinkOk(w, McId(m));
    assert IsTimedBy(w, n.live, time, m);
    TimingRowsExactly(w, n, time);
  }

  /** A collection takes every block row of a shard up to what the bounding masterchain block names, and
      no row of a shard that it does not name. */
  lemma TakenUpToTop(w: World, m: nat, id: BlockIdShort, top: nat)
    requires McId(m) in w.blocks && BlockIdShort(id.shard, top) in w.blocks[McId(m)].bounds.shardIds
    requires id.seqno <= top && top + 1 < U32_SPAN
    ensures Takes(w, m, id)
  {
    assert IsAbove(BlockIdShort(id.shard, top), id);
  }

  lemma VanishedShardStays(w: World, m: nat, id: BlockIdShort)
    requires McId(m) in w.blocks && id.shard != MASTERCHAIN
    requires forall b | b in w.blocks[McId(m)].bounds.shardIds :: b.shard != id.shard
    ensures !Takes(w, m, id)
  {
  }

  /** Which transactions are indexed, exactly: those of a stored block since whose last storing no
      collection is bound by a masterchain block that ended at or after the transaction. In
      particular that is when a transaction of a young masterchain block loses its row early. */
  lemma IndexedExactly(w: World, n: Node, workchain: int, tx: TxId)
    requires LinksOk(w) && Recorded(w, n) && IsI8(workchain) && InTxBounds(tx)
    ensures TxKey(workchain, tx) in n.db.transactions <==> IsIndexed(w, n.live, workchain, tx)
  {
    if TxKey(workchain, tx) in n.db.transactions {
      var id := IndexRowTells(w, n.live, n.db, workchain, tx);
    }
  }

  /** What a row of the index tells: the block of a transaction that survives, and its masterchain block. */
  lemma IndexRowTells(w: World, h: History, t: Tables, workchain: int, tx: TxId) returns (id: BlockIdShort)
    requires LinksOk(w) && SoundIndex(w, h, t)
    requires IsI8(workchain) && InTxBounds(tx) && TxKey(workchain, tx) in t.transactions
    ensures Survives(w, h, workchain, tx, id) && LinkOk(w, id) && Keyable(id)
    ensures var value := t.transactions[TxKey(workchain, tx)];
            && |value| == BLOCK_KEY_LEN + 4 && RowId(value) == id && RefOfValue(value) == w.blocks[id].refBy
            && value == TxValue(id.shard, id.seqno, w.blocks[id].refBy)
  {
    var key := TxKey(workchain, tx);
    var other;
    id, other :| IsIndexRow(w, h, key, t.transactions[key], id, other);
    TxKeyIsInjective(workchain, tx, id.shard.workchain, other);
    TxValueDecodes(id.shard, id.seqno, w.blocks[id].refBy);
    assert LinkOk(w, id);
  }

  /** Retention: a stored transaction stays indexed as long as every masterchain block that is old
      by now ended before it. */
  lemma YoungIsRetained(w: World, n: Node, id: BlockIdShort, tx: TxId)
    requires Recorded(w, n) && id in n.live.since && id in w.blocks && tx in w.blocks[id].txs
    requires IsI8(id.shard.workchain) && InTxBounds(tx)
    requires forall m: nat | IsOld(w, m, n.clock) :: !Reaches(w, m, tx.lt)
    ensures TxKey(id.shard.workchain, tx) in n.db.transactions
  {
    forall j: nat | j < |n.live.collections| ensures !Reaches(w, n.live.collections[j], tx.lt) {
      assert IsOld(w, n.live.collections[j], n.clock);
    }
    assert Survives(w, n.live, id.shard.workchain, tx, id);
    assert IsIndexed(w, n.live, id.shard.workchain, tx);
  }
}
