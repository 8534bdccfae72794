/**
 What a proof chain shows to someone who trusts nothing but the hash of its masterchain block: each
 part opens to the hash of the next one, and the last one leads to the transaction. Because the
 hash is collision-free, what an opened part shows is what the full block has.
 */
module Verifier {
  import opened Results
  import opened Cells
  import opened BitStrings
  import opened Blocks
  import Dicts
  import ShardTree
  import McProofs

  /** Each part shows the hash of the next, which is the block before it. */
  predicate LinksDown(parts: seq<Cell>) {
    forall k | 0 <= k < |parts| - 1 :: PrevRootHash(parts[k]) == Some(Hash(parts[k + 1]))
  }

  /** The check of a proof: the masterchain part shows its info and the hash of the first shard part,
      the shard parts link down, and the last part leads to the transaction. */
  predicate Verifies(mcBlock: Cell, parts: seq<Cell>, shard: ShardIdent, tx: TxId)
    requires McProofs.ValidShard(shard)
  {
    && IsBlock(mcBlock) && IsInfo(mcBlock.refs[0])
    && if shard == MASTERCHAIN then parts == [] && FindTx(mcBlock, tx, true) == Ok(true)
       else
         && |parts| > 0 && McProofs.ShardRootHash(mcBlock, shard) == Ok(Hash(parts[0])) && LinksDown(parts)
         && FindTx(parts[|parts| - 1], tx, false) == Ok(true)
  }

  // --- What an opening shows is true of the full block

  lemma {:induction false} GetOpens(c: Cell, full: Cell, key: Bits)
    requires Opens(c, full) && Dicts.Get(c, key).Found?
    ensures var found, whole := Dicts.Get(c, key), Dicts.Get(full, key);
            whole.Found? && found.leaf.Ordinary? && Opens(found.leaf, whole.leaf)
    decreases c
  {
    OpeningShows(c, full);
    if Dicts.IsFork(c) {
      var edge := c.data.edge;
      var i := if key[|edge|] then 1 else 0;
      GetOpens(c.refs[i], full.refs[i], key[|edge| + 1..]);
    }
  }

  lemma TransactionsOpen(leaf: Cell, full: Cell)
    requires Opens(leaf, full) && IsAccountLeaf(leaf)
    ensures IsAccountLeaf(full) && Opens(Transactions(leaf), Transactions(full))
  {
    OpeningShows(leaf, full);
    var a, b := Transactions(leaf), Transactions(full);
    assert Hash(a).children == Hash(b).children;
  }

  lemma LeadsToTxOpens(accounts: Cell, full: Cell, account: Bits, lt: Bits)
    requires Opens(accounts, full) && LeadsToTx(accounts, account, lt)
    ensures LeadsToTx(full, account, lt)
  {
    GetOpens(accounts, full, account);
    var leaf, whole := Dicts.Get(accounts, account).leaf, Dicts.Get(full, account).leaf;
    TransactionsOpen(leaf, whole);
    GetOpens(Transactions(leaf), Transactions(whole), lt);
    OpeningShows(Dicts.Get(Transactions(leaf), lt).leaf, Dicts.Get(Transactions(whole), lt).leaf);
  }

  /** Whoever is led to a transaction by an opened block is led to it by the full block. */
  lemma FindTxOpens(c: Cell, full: Cell, tx: TxId, includeInfo: bool)
    requires Opens(c, full) && FindTx(c, tx, includeInfo) == Ok(true)
    ensures FindTx(full, tx, false) == Ok(true)
  {
    OpeningShows(c, full);
    OpeningShows(c.refs[3], full.refs[3]);
    OpeningShows(c.refs[3].refs[2], full.refs[3].refs[2]);
    LeadsToTxOpens(AccountsOf(c).value, AccountsOf(full).value, BitsOf(tx.account, ACCOUNT_BITS),
                   BitsOf(tx.lt, LT_BITS));
  }

  /** An opened block shows the hash of the block before it. */
  lemma PrevRootHashOpens(c: Cell, full: Cell)
    requires Opens(c, full) && PrevRootHash(c).Some?
    ensures PrevRootHash(full) == PrevRootHash(c)
  {
    OpeningShows(c, full);
    OpeningShows(c.refs[0], full.refs[0]);
    var i := PrevRef(c.refs[0].data);
    OpeningShows(c.refs[0].refs[i], full.refs[0].refs[i]);
  }

  lemma {:induction false} DescendOpens(node: Cell, full: Cell, path: Bits)
    requires Opens(node, full) && ShardTree.Descend(node, path).Ok?
    ensures ShardTree.Descend(full, path).Ok?
    ensures var leaf, whole := ShardTree.Descend(node, path).value, ShardTree.Descend(full, path).value;
            leaf.Ordinary? && whole.Ordinary? && leaf.data == whole.data
    decreases node
  {
    OpeningShows(node, full);
    if path != [] {
      var i := if path[0] then 1 else 0;
      DescendOpens(node.refs[i], full.refs[i], path[1..]);
    }
  }

  lemma ShardsOpen(c: Cell, full: Cell)
    requires Opens(c, full) && HasShards(c) && ShardsOf(c).Some?
    ensures HasShards(full) && ShardsOf(full).Some? && Opens(ShardsOf(c).value, ShardsOf(full).value)
  {
    OpeningShows(c, full);
    OpeningShows(c.refs[3], full.refs[3]);
    OpeningShows(c.refs[3].refs[3], full.refs[3].refs[3]);
  }

  /** An opened masterchain block shows the top block of a shard as the full one names it. */
  lemma TopDescrOpens(c: Cell, full: Cell, shard: ShardIdent)
    requires Opens(c, full) && McProofs.ValidShard(shard) && McProofs.TopDescr(c, shard).Ok?
    ensures McProofs.TopDescr(full, shard) == McProofs.TopDescr(c, shard)
  {
    ShardsOpen(c, full);
    var shards, whole := ShardsOf(c).value, ShardsOf(full).value;
    var key := McProofs.WorkchainKey(shard.workchain);
    GetOpens(shards, whole, key);
    var leaf, wholeLeaf := Dicts.Get(shards, key).leaf, Dicts.Get(whole, key).leaf;
    OpeningShows(leaf, wholeLeaf);
    DescendOpens(leaf.refs[0], wholeLeaf.refs[0], ShardTree.PathBits(shard.prefix));
  }
}
