/**
 Block proofs: which cells of a block each kind of proof reads and keeps, and why the proofs
 compose. Every proof is the block with unread branches pruned; the pruning library may keep more
 than was read, never less.
 */
module Blocks {
  import opened Results
  import opened Cells
  import opened BitStrings
  import Dicts
  import ShardTree

  const ACCOUNT_BITS: nat := 256
  const LT_BITS: nat := 64
  const WORKCHAIN_BITS: nat := 32
  const MAX_SPLIT_DEPTH: nat := 60

  datatype TxId = TxId(account: nat, lt: nat)

  datatype ShardIdent = ShardIdent(workchain: int, prefix: nat)

  datatype BlockIdShort = BlockIdShort(shard: ShardIdent, seqno: nat)

  const MASTERCHAIN: ShardIdent := ShardIdent(-1, ShardTree.HIGH_BIT)

  // --- Layout

  predicate IsBlock(root: Cell) {
    root.Ordinary? && root.data.BlockRoot? && |root.refs| >= 4
  }

  /** `load_info`, with the position of the previous block reference. */
  predicate IsInfo(info: Cell) {
    info.Ordinary? && info.data.BlockInfo? && |info.refs| > PrevRef(info.data)
  }

  function PrevRef(info: Data): nat {
    if info.BlockInfo? && info.withMasterRef then 1 else 0
  }

  /** The root hash of the block before this one, as the info of this one shows it. */
  function PrevRootHash(root: Cell): Option<Digest> {
    if !IsBlock(root) || !IsInfo(root.refs[0]) then None
    else
      var prev := root.refs[0].refs[PrevRef(root.refs[0].data)];
      if prev.Ordinary? && prev.data.BlockRef? then Some(prev.data.rootHash) else None
  }

  predicate IsExtra(extra: Cell) {
    extra.Ordinary? && extra.data.BlockExtra? && |extra.refs| >= (if extra.data.hasCustom then 4 else 3)
  }

  predicate IsDictRoot(c: Cell) {
    c.Ordinary? && c.data.DictRoot? && (c.data.nonEmpty ==> |c.refs| >= 1)
  }

  predicate IsMcExtra(custom: Cell) {
    custom.Ordinary? && custom.data.McExtra? && (custom.data.hasShards ==> |custom.refs| >= 1)
  }

  predicate IsAccountLeaf(leaf: Cell) {
    Dicts.IsLeaf(leaf) && leaf.data.value.AccountBlock?
  }

  predicate IsTxLeaf(leaf: Cell) {
    Dicts.IsLeaf(leaf) && leaf.data.value.TransactionRef? && |leaf.refs| >= 1
  }

  predicate IsShardsLeaf(leaf: Cell) {
    Dicts.IsLeaf(leaf) && leaf.data.value.WorkchainShards? && |leaf.refs| >= 1
  }

  /** The transactions dictionary of an account block: its root is inline in the leaf, so the
      library makes a new cell of it. */
  function Transactions(leaf: Cell): Cell
    requires IsAccountLeaf(leaf)
  {
    Ordinary(leaf.data.value.transactions, leaf.refs)
  }

  predicate HasAccounts(root: Cell) {
    IsBlock(root) && IsExtra(root.refs[3]) && IsDictRoot(root.refs[3].refs[2])
  }

  predicate HasCustom(root: Cell) {
    IsBlock(root) && IsExtra(root.refs[3]) && root.refs[3].data.hasCustom
  }

  predicate HasShards(root: Cell) {
    HasCustom(root) && IsMcExtra(root.refs[3].refs[3])
  }

  function AccountsOf(root: Cell): Option<Cell>
    requires HasAccounts(root)
  {
    var dict := root.refs[3].refs[2];
    if dict.data.nonEmpty then Some(dict.refs[0]) else None
  }

  function ShardsOf(root: Cell): Option<Cell>
    requires HasShards(root)
  {
    var custom := root.refs[3].refs[3];
    if custom.data.hasShards then Some(custom.refs[0]) else None
  }

  // --- Transactions

  function TxIds(account: nat, entries: seq<Dicts.Entry>): (r: Result<seq<TxId>, Error>)
    ensures r.Ok? ==> |r.value| == |entries| && forall k | 0 <= k < |entries| ::
                      IsTxLeaf(entries[k].leaf) && r.value[k] == TxId(account, ValueOf(entries[k].key))
  {
    if entries == [] then Ok([])
    else
      var init :- TxIds(account, entries[..|entries| - 1]);
      var last := entries[|entries| - 1];
      if IsTxLeaf(last.leaf) then Ok(init + [TxId(account, ValueOf(last.key))]) else Err(CellUnderflow)
  }

  /** The transactions of an account can be listed exactly if each leaf has the cell of its transaction. */
  lemma {:induction false} TxIdsReadable(account: nat, entries: seq<Dicts.Entry>)
    ensures TxIds(account, entries).Ok? <==>
              forall k | 0 <= k < |entries| ::
                && entries[k].leaf.Ordinary? && entries[k].leaf.data.DictLeaf?
                && entries[k].leaf.data.value.TransactionRef? && entries[k].leaf.refs != []
  {
    if entries != [] {
      var init := entries[..|entries| - 1];
      TxIdsReadable(account, init);
      assert forall k | 0 <= k < |init| :: init[k] == entries[k];
    }
  }

  /** The transactions of one account block, under the account it names. */
  function TxsOfAccount(leaf: Cell): Result<seq<TxId>, Error> {
    if !IsAccountLeaf(leaf) then Err(InvalidTag)
    else
      var entries :- Dicts.Entries(Transactions(leaf), LT_BITS);
      TxIds(leaf.data.value.account, entries)
  }

  function TxsOf(entries: seq<Dicts.Entry>): Result<seq<TxId>, Error> {
    if entries == [] then Ok([])
    else
      var init :- TxsOf(entries[..|entries| - 1]);
      var last :- TxsOfAccount(entries[|entries| - 1].leaf);
      Ok(init + last)
  }

  /** All transactions of a block, in dictionary order. */
  function TxList(root: Cell): Result<seq<TxId>, Error> {
    if !HasAccounts(root) then Err(CellUnderflow)
    else if AccountsOf(root).None? then Ok([])
    else
      var entries :- Dicts.Entries(AccountsOf(root).value, ACCOUNT_BITS);
      TxsOf(entries)
  }

  /** Account blocks sit under the account they name (a validity rule of blocks). */
  predicate AccountsMatchKeys(root: Cell) {
    HasAccounts(root) && AccountsOf(root).Some? && Dicts.Entries(AccountsOf(root).value, ACCOUNT_BITS).Ok? ==>
      forall e | e in Dicts.Entries(AccountsOf(root).value, ACCOUNT_BITS).value ::
        IsAccountLeaf(e.leaf) ==> e.leaf.data.value.account == ValueOf(e.key)
  }

  /** Whether the dictionary of account blocks leads to the transaction. */
  predicate LeadsToTx(accounts: Cell, account: Bits, lt: Bits) {
    var found := Dicts.Get(accounts, account);
    && found.Found? && IsAccountLeaf(found.leaf)
    && var tx := Dicts.Get(Transactions(found.leaf), lt);
       tx.Found? && IsTxLeaf(tx.leaf)
  }

  /** What `make_tx_proof` answers for a block: whether the transaction is there. */
  function FindTx(root: Cell, tx: TxId, includeInfo: bool): Result<bool, Error> {
    if !IsBlock(root) then Err(CellUnderflow)
    else if includeInfo && !IsInfo(root.refs[0]) then Err(CellUnderflow)
    else if !HasAccounts(root) then Err(CellUnderflow)
    else Ok(AccountsOf(root).Some? &&
            LeadsToTx(AccountsOf(root).value, BitsOf(tx.account, ACCOUNT_BITS), BitsOf(tx.lt, LT_BITS)))
  }

  // --- What each proof reads

  /** Every account block and every node of its transactions dictionary. */
  function AccountNodes(node: Cell): Marks {
    if Dicts.IsFork(node) then Visited([AccountNodes(node.refs[0]), AccountNodes(node.refs[1])])
    else if IsAccountLeaf(node) then Dicts.Nodes(Transactions(node))
    else Visited([])
  }

  /** The single branch to one transaction. */
  function TxNodes(node: Cell, account: Bits, lt: Bits): Marks {
    if Dicts.IsFork(node) && |node.data.edge| < |account| && node.data.edge <= account then
      var i := if account[|node.data.edge|] then 1 else 0;
      Dicts.OneBranch(i, TxNodes(node.refs[i], account[|node.data.edge| + 1..], lt))
    else if IsAccountLeaf(node) && node.data.edge == account then TxLeafNodes(Transactions(node), lt)
    else Visited([])
  }

  /** The way down to a transaction; its leaf is read. */
  function TxLeafNodes(transactions: Cell, lt: Bits): Marks {
    Dicts.GetNodes(transactions, lt)
  }

  function AccountsMarks(dict: Cell, below: Cell -> Marks): Marks {
    if dict.Ordinary? && dict.data.DictRoot? && dict.data.nonEmpty && |dict.refs| >= 1
    then Visited([below(dict.refs[0])])
    else Visited([])
  }

  /** The marks of a block whose information and extra parts were read as given. */
  function BlockMarks(info: Marks, accounts: Marks, custom: Marks): Marks {
    Visited([info, Skipped, Skipped, Visited([Skipped, Skipped, accounts, custom])])
  }

  /** `make_pruned_block`: all transaction leaves, and the whole block info of masterchain blocks. */
  function PrunedBlockMarks(root: Cell): Marks
    requires HasAccounts(root)
  {
    BlockMarks(if HasCustom(root) then AllMarks(root.refs[0]) else Skipped,
               AccountsMarks(root.refs[3].refs[2], AccountNodes),
               Skipped)
  }

  /** Block info with its previous block reference. */
  function InfoMarks(info: Cell): Marks {
    if info.Ordinary? then Dicts.OneBranch(PrevRef(info.data), Visited([])) else Visited([])
  }

  /** `make_tx_proof` */
  function TxProofMarks(root: Cell, tx: TxId, includeInfo: bool): Marks
    requires HasAccounts(root)
  {
    BlockMarks(if includeInfo then InfoMarks(root.refs[0]) else Skipped,
               AccountsMarks(root.refs[3].refs[2],
                 node => TxNodes(node, BitsOf(tx.account, ACCOUNT_BITS), BitsOf(tx.lt, LT_BITS))),
               Skipped)
  }

  // --- Lookups are iterations

  lemma TxIdsMembers(account: nat, entries: seq<Dicts.Entry>, tx: TxId)
    requires TxIds(account, entries).Ok?
    ensures tx in TxIds(account, entries).value <==>
            tx.account == account && exists e: Dicts.Entry :: e in entries && ValueOf(e.key) == tx.lt
  {
    var ids := TxIds(account, entries).value;
    if tx in ids {
      var k :| 0 <= k < |ids| && ids[k] == tx;
      assert entries[k] in entries;
    }
    if e: Dicts.Entry :| e in entries && ValueOf(e.key) == tx.lt && tx.account == account {
      var k :| 0 <= k < |entries| && entries[k] == e;
      assert ids[k] == tx;
    }
  }

  /** A transactions dictionary leads to exactly the logical times it lists. */
  lemma TxsOfAccountAreFound(leaf: Cell, tx: TxId)
    requires TxsOfAccount(leaf).Ok? && tx.lt < PowerOfTwo(LT_BITS)
    ensures tx in TxsOfAccount(leaf).value <==>
            && tx.account == leaf.data.value.account
            && var found := Dicts.Get(Transactions(leaf), BitsOf(tx.lt, LT_BITS));
               found.Found? && IsTxLeaf(found.leaf)
  {
    var dict, key := Transactions(leaf), BitsOf(tx.lt, LT_BITS);
    var entries := Dicts.Entries(dict, LT_BITS).value;
    TxIdsMembers(leaf.data.value.account, entries, tx);
    ValueRoundTrip(tx.lt, LT_BITS);
    Dicts.FoundIsEntry(dict, LT_BITS, key);
    if tx in TxsOfAccount(leaf).value {
      var e: Dicts.Entry :| e in entries && ValueOf(e.key) == tx.lt;
      Dicts.EntryIsFound(dict, LT_BITS, e);
      BitsRoundTrip(e.key);
    }
  }

  lemma {:induction false} TxsOfHas(entries: seq<Dicts.Entry>, e: Dicts.Entry)
    requires TxsOf(entries).Ok? && e in entries
    ensures TxsOfAccount(e.leaf).Ok?
    ensures forall tx | tx in TxsOfAccount(e.leaf).value :: tx in TxsOf(entries).value
  {
    var init, last := entries[..|entries| - 1], entries[|entries| - 1];
    assert entries == init + [last];
    if e != last {
      TxsOfHas(init, e);
    }
  }

  lemma {:induction false} TxsOfFrom(entries: seq<Dicts.Entry>, tx: TxId) returns (e: Dicts.Entry)
    requires TxsOf(entries).Ok? && tx in TxsOf(entries).value
    ensures e in entries && TxsOfAccount(e.leaf).Ok? && tx in TxsOfAccount(e.leaf).value
  {
    e := entries[|entries| - 1];
    if tx !in TxsOfAccount(e.leaf).value {
      e := TxsOfFrom(entries[..|entries| - 1], tx);
    }
  }

  lemma ListedIsFound(root: Cell, tx: TxId)
    requires TxList(root).Ok? && AccountsMatchKeys(root)
    requires tx.lt < PowerOfTwo(LT_BITS) && tx in TxList(root).value
    ensures FindTx(root, tx, false) == Ok(true)
  {
    var accounts := AccountsOf(root).value;
    var entries := Dicts.Entries(accounts, ACCOUNT_BITS).value;
    var e := TxsOfFrom(entries, tx);
    Dicts.EntryIsFound(accounts, ACCOUNT_BITS, e);
    TxsOfAccountAreFound(e.leaf, tx);
    BitsRoundTrip(e.key);
  }

  lemma FoundIsListed(root: Cell, tx: TxId)
    requires TxList(root).Ok? && AccountsMatchKeys(root)
    requires tx.account < PowerOfTwo(ACCOUNT_BITS) && tx.lt < PowerOfTwo(LT_BITS)
    requires FindTx(root, tx, false) == Ok(true)
    ensures tx in TxList(root).value
  {
    var accounts, key := AccountsOf(root).value, BitsOf(tx.account, ACCOUNT_BITS);
    var entries := Dicts.Entries(accounts, ACCOUNT_BITS).value;
    Dicts.FoundIsEntry(accounts, ACCOUNT_BITS, key);
    var found := Dicts.Get(accounts, key);
    var e := Dicts.Entry(key, found.at, found.leaf);
    assert e in entries;
    TxsOfHas(entries, e);
    TxsOfAccountAreFound(e.leaf, tx);
    ValueRoundTrip(tx.account, ACCOUNT_BITS);
  }

  /** Looking up one transaction agrees with listing all of them. */
  lemma LookupMatchesList(root: Cell, tx: TxId)
    requires TxList(root).Ok? && AccountsMatchKeys(root)
    requires tx.account < PowerOfTwo(ACCOUNT_BITS) && tx.lt < PowerOfTwo(LT_BITS)
    ensures tx in TxList(root).value <==> FindTx(root, tx, false) == Ok(true)
  {
    if tx in TxList(root).value {
      ListedIsFound(root, tx);
    }
    if FindTx(root, tx, false) == Ok(true) {
      FoundIsListed(root, tx);
    }
  }

  // --- Pruning keeps what is read later

  lemma {:induction false} AccountNodesCoverTx(node: Cell, account: Bits, lt: Bits)
    ensures Covers(AccountNodes(node), TxNodes(node, account, lt))
  {
    if Dicts.IsFork(node) && |node.data.edge| < |account| && node.data.edge <= account {
      var i := if account[|node.data.edge|] then 1 else 0;
      AccountNodesCoverTx(node.refs[i], account[|node.data.edge| + 1..], lt);
      assert AccountNodes(node).below[i] == AccountNodes(node.refs[i]);
    } else if IsAccountLeaf(node) {
      Dicts.NodesCoverGet(Transactions(node), lt);
    }
  }

  /** With the branch to a transaction kept, pruning does not change whether it is found. */
  lemma {:induction false} LeadsToTxAfterPrune(node: Cell, kept: Marks, account: Bits, lt: Bits)
    requires Covers(kept, TxNodes(node, account, lt))
    ensures LeadsToTx(Prune(node, kept), account, lt) == LeadsToTx(node, account, lt)
  {
    if Dicts.IsFork(node) {
      var edge := node.data.edge;
      if |edge| < |account| && edge <= account {
        var i := if account[|edge|] then 1 else 0;
        assert TxNodes(node, account, lt).below[i] == TxNodes(node.refs[i], account[|edge| + 1..], lt);
        LeadsToTxAfterPrune(node.refs[i], Under(kept, i), account[|edge| + 1..], lt);
      }
    } else if IsAccountLeaf(node) && node.data.edge == account {
      var dict := Transactions(node);
      assert Transactions(Prune(node, kept)) == Prune(dict, kept);
      Dicts.GetAfterPrune(dict, kept, lt);
    }
  }

  /** With everything `make_tx_proof` reads kept, it answers the same for the pruned block. */
  lemma FindTxAfterPrune(root: Cell, kept: Marks, tx: TxId, includeInfo: bool)
    requires FindTx(root, tx, includeInfo).Ok?
    requires Covers(kept, TxProofMarks(root, tx, includeInfo))
    ensures FindTx(Prune(root, kept), tx, includeInfo) == FindTx(root, tx, includeInfo)
  {
    var marks := TxProofMarks(root, tx, includeInfo);
    var pruned := Prune(root, kept);
    assert Covers(Under(kept, 0), marks.below[0]) && Covers(Under(kept, 3), marks.below[3]);
    var extraKept := Under(kept, 3);
    assert extraKept.Visited?;
    assert pruned.refs[3] == Prune(root.refs[3], extraKept) && pruned.refs[3].Ordinary?;
    assert Covers(Under(extraKept, 2), marks.below[3].below[2]);
    assert pruned.refs[3].refs[2] == Prune(root.refs[3].refs[2], Under(extraKept, 2));
    if AccountsOf(root).Some? {
      var accounts := AccountsOf(root).value;
      var account, lt := BitsOf(tx.account, ACCOUNT_BITS), BitsOf(tx.lt, LT_BITS);
      assert marks.below[3].below[2].below[0] == TxNodes(accounts, account, lt);
      LeadsToTxAfterPrune(accounts, Under(Under(extraKept, 2), 0), account, lt);
    }
  }

  /** With the info and its previous reference kept, the pruned block shows the same of both. */
  lemma InfoAfterPrune(root: Cell, kept: Marks)
    requires IsBlock(root) && IsInfo(root.refs[0]) && kept.Visited? && Covers(Under(kept, 0), InfoMarks(root.refs[0]))
    ensures var pruned := Prune(root, kept);
            && IsBlock(pruned) && IsInfo(pruned.refs[0]) && pruned.refs[0].data == root.refs[0].data
            && PrevRootHash(pruned) == PrevRootHash(root)
  {
    var info := root.refs[0];
    var marks, i := InfoMarks(info), PrevRef(info.data);
    assert marks.Visited? && i < |marks.below| && marks.below[i] == Visited([]);
    assert Covers(Under(Under(kept, 0), i), marks.below[i]);
    var pruned := Prune(root, kept);
    assert pruned.refs[0] == Prune(info, Under(kept, 0));
    assert pruned.refs[0].refs[i] == Prune(info.refs[i], Under(Under(kept, 0), i));
  }

  lemma BlockMarksCover(info: Marks, accounts: Marks, custom: Marks, info': Marks, accounts': Marks, custom': Marks)
    requires Covers(info, info') && Covers(accounts, accounts') && Covers(custom, custom')
    ensures Covers(BlockMarks(info, accounts, custom), BlockMarks(info', accounts', custom'))
  {
    var extra, extra' := Visited([Skipped, Skipped, accounts, custom]), Visited([Skipped, Skipped, accounts', custom']);
    assert Covers(extra, extra');
    var all, one := BlockMarks(info, accounts, custom), BlockMarks(info', accounts', custom');
    forall i | 0 <= i < |one.below| ensures Covers(Under(all, i), one.below[i]) {
    }
  }

  lemma AccountsCoverTx(dict: Cell, tx: TxId)
    ensures Covers(AccountsMarks(dict, AccountNodes),
                   AccountsMarks(dict, node => TxNodes(node, BitsOf(tx.account, ACCOUNT_BITS), BitsOf(tx.lt, LT_BITS))))
  {
    var account, lt := BitsOf(tx.account, ACCOUNT_BITS), BitsOf(tx.lt, LT_BITS);
    if dict.Ordinary? && dict.data.DictRoot? && dict.data.nonEmpty && |dict.refs| >= 1 {
      AccountNodesCoverTx(dict.refs[0], account, lt);
      var one := AccountsMarks(dict, node => TxNodes(node, account, lt));
      assert one == Visited([TxNodes(dict.refs[0], account, lt)]);
    }
  }

  lemma AllCoverInfo(info: Cell)
    requires IsInfo(info)
    ensures Covers(AllMarks(info), InfoMarks(info))
  {
    var all, one, i := AllMarks(info), InfoMarks(info), PrevRef(info.data);
    assert all.below[i] == AllMarks(info.refs[i]);
    forall j | 0 <= j < |one.below| ensures Covers(Under(all, j), one.below[j]) {
    }
  }

  /** A pruned block keeps what any of its transaction proofs reads. */
  lemma PrunedBlockCoversTx(root: Cell, kept: Marks, tx: TxId, includeInfo: bool)
    requires HasAccounts(root) && Covers(kept, PrunedBlockMarks(root))
    requires includeInfo ==> HasCustom(root) && IsInfo(root.refs[0])
    ensures Covers(kept, TxProofMarks(root, tx, includeInfo))
  {
    var dict, account, lt := root.refs[3].refs[2], BitsOf(tx.account, ACCOUNT_BITS), BitsOf(tx.lt, LT_BITS);
    var info, one := if HasCustom(root) then AllMarks(root.refs[0]) else Skipped,
                     if includeInfo then InfoMarks(root.refs[0]) else Skipped;
    AccountsCoverTx(dict, tx);
    if includeInfo {
      AllCoverInfo(root.refs[0]);
    }
    BlockMarksCover(info, AccountsMarks(dict, AccountNodes), Skipped,
                    one, AccountsMarks(dict, node => TxNodes(node, account, lt)), Skipped);
    CoversTransitive(kept, PrunedBlockMarks(root), TxProofMarks(root, tx, includeInfo));
  }

  // --- The proofs

  /** The usage tree of one proof: what was read so far. */
  class UsageTree {
    var marks: Marks

    constructor ()
      ensures marks == Skipped
    {
      marks := Skipped;
    }

    method Visit(at: Path, used: Marks)
      modifies this
      ensures marks == Mark(old(marks), at, used)
      ensures Covers(marks, old(marks)) && Covers(UnderPath(marks, at), used)
    {
      MarkCovers(marks, at, used);
      marks := Mark(marks, at, used);
    }
  }

  /** `pruned` keeps at least these parts of the block. */
  ghost predicate Keeps(root: Cell, used: Marks, pruned: Cell) {
    exists kept :: Covers(kept, used) && pruned == Prune(root, kept)
  }

  /** `prune_big_cells`, which may keep more than was visited. The hash is checked afterwards; the
      check never fails. */
  method PruneUnvisited(root: Cell, marks: Marks, alsoKept: Marks, ghost used: Marks) returns (pruned: Cell)
    requires Covers(marks, used)
    ensures Keeps(root, used, pruned) && Hash(pruned) == Hash(root)
  {
    var kept := Mark(marks, [], alsoKept);
    MarkCovers(marks, [], alsoKept);
    CoversTransitive(kept, marks, used);
    PruneKeepsHash(root, kept);
    pruned := Prune(root, kept);
  }

  ghost predicate IsPrunedBlock(root: Cell, pruned: Cell) {
    HasAccounts(root) && Keeps(root, PrunedBlockMarks(root), pruned)
  }

  ghost predicate IsTxProof(root: Cell, tx: TxId, includeInfo: bool, proof: Cell) {
    HasAccounts(root) && Keeps(root, TxProofMarks(root, tx, includeInfo), proof)
  }

  lemma {:induction false} UnderPathAppend(m: Marks, a: Path, b: Path)
    ensures UnderPath(m, a + b) == UnderPath(UnderPath(m, a), b)
    decreases |a|
  {
    if a == [] {
      assert a + b == b;
    } else {
      assert (a + b)[1..] == a[1..] + b;
      UnderPathAppend(Under(m, a[0]), a[1..], b);
    }
  }

  lemma {:induction false} UnderPathCovers(a: Marks, b: Marks, at: Path)
    requires Covers(a, b)
    ensures Covers(UnderPath(a, at), UnderPath(b, at))
    decreases |at|
  {
    if at != [] {
      assert Covers(Under(a, at[0]), Under(b, at[0]));
      UnderPathCovers(Under(a, at[0]), Under(b, at[0]), at[1..]);
    }
  }

  /** What is covered at some place stays covered when more is marked. */
  lemma StillCovers(now: Marks, before: Marks, at: Path, used: Marks)
    requires Covers(now, before) && Covers(UnderPath(before, at), used)
    ensures Covers(UnderPath(now, at), used)
  {
    UnderPathCovers(now, before, at);
    CoversTransitive(UnderPath(now, at), UnderPath(before, at), used);
  }

  lemma UnderPathSteps(m: Marks, i: nat, j: nat, k: nat)
    ensures UnderPath(m, [i]) == Under(m, i)
    ensures UnderPath(m, [i, j]) == Under(Under(m, i), j)
    ensures UnderPath(m, [i, j, k]) == Under(Under(Under(m, i), j), k)
  {
    assert [i] == [i] + [] && [i, j] == [i] + [j] && [i, j, k] == [i, j] + [k];
    UnderPathAppend(m, [i], [j]);
    UnderPathAppend(m, [i, j], [k]);
  }
}
