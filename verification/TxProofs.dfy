/**
 Pruned blocks and transaction proofs. Building one marks the cells it reads in a usage tree and
 prunes the rest. A transaction proof made from a pruned block exists for exactly the
 transactions that were reported while the block was pruned.
 */
module TxProofs {
  import opened Results
  import opened Cells
  import opened BitStrings
  import opened Blocks
  import Dicts

  const ROOT: Path := []
  const INFO: Path := [0]
  const EXTRA: Path := [3]
  const ACCOUNTS: Path := [3, 2]
  const ACCOUNTS_DICT: Path := [3, 2, 0]

  lemma {:induction false} FailedTxIds(account: nat, entries: seq<Dicts.Entry>, k: nat)
    requires k <= |entries| && TxIds(account, entries[..k]).Err?
    ensures TxIds(account, entries).Err?
    decreases |entries| - k
  {
    if k == |entries| {
      assert entries[..k] == entries;
    } else {
      assert entries[..k + 1][..k] == entries[..k];
      FailedTxIds(account, entries, k + 1);
    }
  }

  lemma {:induction false} FailedTxs(entries: seq<Dicts.Entry>, k: nat)
    requires k <= |entries| && TxsOf(entries[..k]).Err?
    ensures TxsOf(entries).Err?
    decreases |entries| - k
  {
    if k == |entries| {
      assert entries[..k] == entries;
    } else {
      assert entries[..k + 1][..k] == entries[..k];
      FailedTxs(entries, k + 1);
    }
  }

  /** Visiting the dictionary and then every inline dictionary reads all transaction leaves. */
  lemma {:induction false} AccountNodesRead(node: Cell, m: Marks, width: nat)
    requires Dicts.Entries(node, width).Ok? && Covers(m, Dicts.Nodes(node))
    requires forall e | e in Dicts.Entries(node, width).value ::
               IsAccountLeaf(e.leaf) ==> Covers(UnderPath(m, e.at), Dicts.Nodes(Transactions(e.leaf)))
    ensures Covers(m, AccountNodes(node))
  {
    if Dicts.IsFork(node) {
      forall i: nat | i < 2 ensures Covers(Under(m, i), AccountNodes(node.refs[i])) {
        var rest := width - |node.data.edge| - 1;
        assert Dicts.Nodes(node).below[i] == Dicts.Nodes(node.refs[i]);
        forall f | f in Dicts.Entries(node.refs[i], rest).value && IsAccountLeaf(f.leaf)
          ensures Covers(UnderPath(Under(m, i), f.at), Dicts.Nodes(Transactions(f.leaf)))
        {
          var bits := node.data.edge + [i == 1];
          Dicts.LiftedHas(bits, i, Dicts.Entries(node.refs[i], rest).value, f);
          var e := Dicts.Entry(bits + f.key, [i] + f.at, f.leaf);
          assert e in Dicts.Entries(node, width).value;
          assert e.at[1..] == f.at;
        }
        AccountNodesRead(node.refs[i], Under(m, i), rest);
      }
    } else if IsAccountLeaf(node) {
      var e := Dicts.Entry(node.data.edge, [], node);
      assert e in Dicts.Entries(node, width).value;
    }
  }

  /** What `make_pruned_block` and `make_tx_proof` have read adds up to the marks of the proof. */
  lemma BlockMarksRead(m: Marks, info: Marks, dict: Cell, accounts: Cell -> Marks)
    requires Covers(UnderPath(m, INFO), info)
    requires UnderPath(m, ACCOUNTS).Visited?
    requires dict.Ordinary? && dict.data.DictRoot? && dict.data.nonEmpty && |dict.refs| >= 1 ==>
               Covers(UnderPath(m, ACCOUNTS_DICT), accounts(dict.refs[0]))
    ensures Covers(m, BlockMarks(info, AccountsMarks(dict, accounts), Skipped))
  {
    UnderPathSteps(m, 0, 0, 0);
    UnderPathSteps(m, 3, 2, 0);
    var extra := Visited([Skipped, Skipped, AccountsMarks(dict, accounts), Skipped]);
    assert Covers(Under(Under(m, 3), 2), AccountsMarks(dict, accounts));
    assert Covers(Under(m, 3), extra);
  }

  /** `make_pruned_block`. The second part of the result is what `on_tx` is called with, in order;
      `alsoKept` is what the pruning library keeps without need. */
  method MakePrunedBlock(root: Cell, alsoKept: Marks) returns (r: Result<(Cell, seq<TxId>), Error>)
    ensures r.Ok? <==> TxList(root).Ok?
    ensures r.Ok? ==> IsPrunedBlock(root, r.value.0) && r.value.1 == TxList(root).value
  {
    var usage := new UsageTree();
    usage.Visit(ROOT, Visited([]));
    if !IsBlock(root) {
      return Err(CellUnderflow);
    }
    usage.Visit(EXTRA, Visited([]));
    var extra := root.refs[3];
    if !IsExtra(extra) {
      return Err(CellUnderflow);
    }
    var info := Skipped;
    if extra.data.hasCustom {
      info := AllMarks(root.refs[0]);
      usage.Visit(INFO, info);
    }
    ghost var afterInfo := usage.marks;
    usage.Visit(ACCOUNTS, Visited([]));
    StillCovers(usage.marks, afterInfo, INFO, info);
    if !IsDictRoot(extra.refs[2]) {
      return Err(CellUnderflow);
    }
    var txs := [];
    var accounts := AccountsOf(root);
    if accounts.Some? {
      ghost var afterExtra := usage.marks;
      txs :- VisitAccounts(usage, accounts.value);
      StillCovers(usage.marks, afterExtra, INFO, info);
      StillCovers(usage.marks, afterExtra, ACCOUNTS, Visited([]));
    }
    BlockMarksRead(usage.marks, info, extra.refs[2], AccountNodes);
    var pruned := PruneUnvisited(root, usage.marks, alsoKept, PrunedBlockMarks(root));
    return Ok((pruned, txs));
  }

  lemma TxsOfStep(entries: seq<Dicts.Entry>, k: nat, txs: seq<TxId>)
    requires k < |entries| && TxsOf(entries[..k]) == Ok(txs)
    ensures var ids := TxsOfAccount(entries[k].leaf);
            if ids.Ok? then TxsOf(entries[..k + 1]) == Ok(txs + ids.value) else TxsOf(entries).Err?
  {
    assert entries[..k + 1][..k] == entries[..k];
    if TxsOfAccount(entries[k].leaf).Err? {
      FailedTxs(entries, k + 1);
    }
  }

  /** The inline dictionary of an account block was read. */
  ghost predicate LeafRead(m: Marks, e: Dicts.Entry) {
    IsAccountLeaf(e.leaf) ==> Covers(UnderPath(m, ACCOUNTS_DICT + e.at), Dicts.Nodes(Transactions(e.leaf)))
  }

  /** The dictionary of account blocks was read, and the inline dictionaries of the first of them;
      nothing marked before is lost. */
  ghost predicate HasRead(m: Marks, before: Marks, node: Cell, entries: seq<Dicts.Entry>, k: nat)
    requires k <= |entries|
  {
    && Covers(m, before) && Covers(UnderPath(m, ACCOUNTS_DICT), Dicts.Nodes(node))
    && forall j | 0 <= j < k :: LeafRead(m, entries[j])
  }

  lemma StillRead(now: Marks, m: Marks, e: Dicts.Entry)
    requires LeafRead(m, e) && Covers(now, m)
    ensures LeafRead(now, e)
  {
    if IsAccountLeaf(e.leaf) {
      StillCovers(now, m, ACCOUNTS_DICT + e.at, Dicts.Nodes(Transactions(e.leaf)));
    }
  }

  lemma HasReadStep(now: Marks, m: Marks, before: Marks, node: Cell, entries: seq<Dicts.Entry>, k: nat)
    requires k < |entries| && HasRead(m, before, node, entries, k) && Covers(now, m) && LeafRead(now, entries[k])
    ensures HasRead(now, before, node, entries, k + 1)
  {
    CoversTransitive(now, m, before);
    StillCovers(now, m, ACCOUNTS_DICT, Dicts.Nodes(node));
    forall j | 0 <= j < k + 1 ensures LeafRead(now, entries[j]) {
      if j < k {
        StillRead(now, m, entries[j]);
      }
    }
  }

  /** The loop of `make_pruned_block` over the account blocks. */
  method VisitAccounts(usage: UsageTree, node: Cell) returns (r: Result<seq<TxId>, Error>)
    modifies usage
    ensures Covers(usage.marks, old(usage.marks))
    ensures r.Ok? <==> Dicts.Entries(node, ACCOUNT_BITS).Ok? && TxsOf(Dicts.Entries(node, ACCOUNT_BITS).value).Ok?
    ensures r.Ok? ==> r == TxsOf(Dicts.Entries(node, ACCOUNT_BITS).value)
    ensures r.Ok? ==> Covers(UnderPath(usage.marks, ACCOUNTS_DICT), AccountNodes(node))
  {
    usage.Visit(ACCOUNTS_DICT, Dicts.Nodes(node));
    var entries :- Dicts.Entries(node, ACCOUNT_BITS);
    r := VisitEntries(usage, node, entries, old(usage.marks));
    if r.Ok? {
      AllLeavesRead(usage.marks, node, entries);
    }
  }

  method VisitEntries(usage: UsageTree, ghost node: Cell, entries: seq<Dicts.Entry>, ghost before: Marks)
    returns (r: Result<seq<TxId>, Error>)
    requires HasRead(usage.marks, before, node, entries, 0)
    modifies usage
    ensures Covers(usage.marks, before)
    ensures r.Ok? <==> TxsOf(entries).Ok?
    ensures r.Ok? ==> r == TxsOf(entries) && HasRead(usage.marks, before, node, entries, |entries|)
  {
    var txs := [];
    var k := 0;
    while k < |entries|
      invariant k <= |entries|
      invariant TxsOf(entries[..k]) == Ok(txs)
      invariant HasRead(usage.marks, before, node, entries, k)
    {
      ghost var previous := usage.marks;
      var ids := VisitAccount(usage, entries[k].leaf, ACCOUNTS_DICT + entries[k].at);
      TxsOfStep(entries, k, txs);
      CoversTransitive(usage.marks, previous, before);
      if ids.Err? {
        return Err(ids.error);
      }
      HasReadStep(usage.marks, previous, before, node, entries, k);
      txs := txs + ids.value;
      k := k + 1;
    }
    assert entries[..k] == entries;
    return Ok(txs);
  }

  lemma AllLeavesRead(m: Marks, node: Cell, entries: seq<Dicts.Entry>)
    requires Dicts.Entries(node, ACCOUNT_BITS) == Ok(entries)
    requires forall j | 0 <= j < |entries| :: LeafRead(m, entries[j])
    requires Covers(UnderPath(m, ACCOUNTS_DICT), Dicts.Nodes(node))
    ensures Covers(UnderPath(m, ACCOUNTS_DICT), AccountNodes(node))
  {
    var dict := UnderPath(m, ACCOUNTS_DICT);
    forall e | e in entries && IsAccountLeaf(e.leaf)
      ensures Covers(UnderPath(dict, e.at), Dicts.Nodes(Transactions(e.leaf)))
    {
      assert LeafRead(m, e);
      UnderPathAppend(m, ACCOUNTS_DICT, e.at);
    }
    AccountNodesRead(node, dict, ACCOUNT_BITS);
  }

  /** The body of the loop over account blocks: reads every transaction of one account. */
  method VisitAccount(usage: UsageTree, leaf: Cell, at: Path) returns (r: Result<seq<TxId>, Error>)
    modifies usage
    ensures r.Ok? <==> TxsOfAccount(leaf).Ok?
    ensures r.Ok? ==> r == TxsOfAccount(leaf)
    ensures Covers(usage.marks, old(usage.marks))
    ensures r.Ok? ==> Covers(UnderPath(usage.marks, at), Dicts.Nodes(Transactions(leaf)))
  {
    CoversItself(usage.marks);
    if !IsAccountLeaf(leaf) {
      return Err(InvalidTag);
    }
    var account := leaf.data.value.account;
    usage.Visit(at, Dicts.Nodes(Transactions(leaf)));
    var entries :- Dicts.Entries(Transactions(leaf), LT_BITS);
    var txs := [];
    var k := 0;
    while k < |entries|
      invariant k <= |entries|
      invariant TxIds(account, entries[..k]) == Ok(txs)
    {
      assert entries[..k + 1][..k] == entries[..k];
      if !IsTxLeaf(entries[k].leaf) {
        FailedTxIds(account, entries, k + 1);
        return Err(CellUnderflow);
      }
      txs := txs + [TxId(account, ValueOf(entries[k].key))];
      k := k + 1;
    }
    assert entries[..k] == entries;
    return Ok(txs);
  }

  /** A lookup of the account and then of the transaction reads the branch to it. */
  lemma {:induction false} TxNodesRead(node: Cell, m: Marks, account: Bits, lt: Bits)
    requires Covers(m, Dicts.GetNodes(node, account))
    requires var found := Dicts.Get(node, account);
             found.Found? && IsAccountLeaf(found.leaf) ==>
               Covers(UnderPath(m, found.at), Dicts.GetNodes(Transactions(found.leaf), lt))
    ensures Covers(m, TxNodes(node, account, lt))
  {
    if Dicts.IsFork(node) && |node.data.edge| < |account| && node.data.edge <= account {
      var i := if account[|node.data.edge|] then 1 else 0;
      var rest := account[|node.data.edge| + 1..];
      assert Dicts.GetNodes(node, account).below[i] == Dicts.GetNodes(node.refs[i], rest);
      var found := Dicts.Get(node.refs[i], rest);
      if found.Found? {
        assert ([i] + found.at)[1..] == found.at;
      }
      TxNodesRead(node.refs[i], Under(m, i), rest, lt);
    }
  }

  /** `make_tx_proof` */
  method MakeTxProof(root: Cell, tx: TxId, includeInfo: bool, alsoKept: Marks) returns (r: Result<Option<Cell>, Error>)
    ensures r.Ok? <==> FindTx(root, tx, includeInfo).Ok?
    ensures r.Ok? ==> r.value.Some? == FindTx(root, tx, includeInfo).value
    ensures r.Ok? && r.value.Some? ==> IsTxProof(root, tx, includeInfo, r.value.value)
  {
    var usage := new UsageTree();
    usage.Visit(ROOT, Visited([]));
    if !IsBlock(root) {
      return Err(CellUnderflow);
    }
    var info := Skipped;
    if includeInfo {
      if !IsInfo(root.refs[0]) {
        return Err(CellUnderflow);
      }
      info := InfoMarks(root.refs[0]);
      usage.Visit(INFO, info);
    }
    ghost var afterInfo := usage.marks;
    usage.Visit(ACCOUNTS, Visited([]));
    StillCovers(usage.marks, afterInfo, INFO, info);
    if !HasAccounts(root) {
      return Err(CellUnderflow);
    }
    var accounts := AccountsOf(root);
    if accounts.None? {
      return Ok(None);
    }
    var node, account, lt := accounts.value, BitsOf(tx.account, ACCOUNT_BITS), BitsOf(tx.lt, LT_BITS);
    ghost var afterExtra := usage.marks;
    usage.Visit(ACCOUNTS_DICT, Dicts.GetNodes(node, account));
    StillCovers(usage.marks, afterExtra, INFO, info);
    StillCovers(usage.marks, afterExtra, ACCOUNTS, Visited([]));
    var found := Dicts.Get(node, account);
    if !found.Found? || !IsAccountLeaf(found.leaf) {
      return Ok(None);
    }
    var dict := Transactions(found.leaf);
    ghost var afterAccount := usage.marks;
    usage.Visit(ACCOUNTS_DICT + found.at, Dicts.GetNodes(dict, lt));
    StillCovers(usage.marks, afterAccount, INFO, info);
    StillCovers(usage.marks, afterAccount, ACCOUNTS, Visited([]));
    StillCovers(usage.marks, afterAccount, ACCOUNTS_DICT, Dicts.GetNodes(node, account));
    var entry := Dicts.Get(dict, lt);
    if !entry.Found? || !IsTxLeaf(entry.leaf) {
      return Ok(None);
    }
    UnderPathAppend(usage.marks, ACCOUNTS_DICT, found.at);
    TxNodesRead(node, UnderPath(usage.marks, ACCOUNTS_DICT), account, lt);
    BlockMarksRead(usage.marks, info, root.refs[3].refs[2], n => TxNodes(n, account, lt));
    var proof := PruneUnvisited(root, usage.marks, alsoKept, TxProofMarks(root, tx, includeInfo));
    return Ok(Some(proof));
  }

  /** An info that is kept with everything below it is unchanged. */
  lemma InfoIsKept(root: Cell, kept: Marks, marks: Marks)
    requires IsBlock(root) && Covers(kept, marks) && marks.Visited? && |marks.below| > 0
    requires marks.below[0] == AllMarks(root.refs[0])
    ensures IsBlock(Prune(root, kept)) && Prune(root, kept).refs[0] == root.refs[0]
  {
    assert Covers(Under(kept, 0), marks.below[0]);
    PruneAll(root.refs[0], Under(kept, 0));
  }

  /** Pruning composes: a pruned block has the hash of the full block, and a transaction proof can
      be made from it for exactly the transactions reported while pruning. */
  lemma PruningComposes(root: Cell, pruned: Cell, tx: TxId, includeInfo: bool)
    requires TxList(root).Ok? && AccountsMatchKeys(root) && IsPrunedBlock(root, pruned)
    requires includeInfo ==> HasCustom(root) && IsInfo(root.refs[0])
    requires tx.account < PowerOfTwo(ACCOUNT_BITS) && tx.lt < PowerOfTwo(LT_BITS)
    ensures Hash(pruned) == Hash(root)
    ensures FindTx(pruned, tx, includeInfo) == Ok(tx in TxList(root).value)
    ensures HasCustom(root) ==> IsBlock(pruned) && pruned.refs[0] == root.refs[0]
  {
    var kept :| Covers(kept, PrunedBlockMarks(root)) && pruned == Prune(root, kept);
    PruneKeepsHash(root, kept);
    PrunedBlockCoversTx(root, kept, tx, includeInfo);
    FindTxAfterPrune(root, kept, tx, includeInfo);
    LookupMatchesList(root, tx);
    if HasCustom(root) {
      InfoIsKept(root, kept, PrunedBlockMarks(root));
    }
  }

  /** A transaction proof has the hash of the block it was made from and still leads to its
      transaction. */
  lemma TxProofOpens(root: Cell, tx: TxId, includeInfo: bool, proof: Cell)
    requires FindTx(root, tx, includeInfo) == Ok(true) && IsTxProof(root, tx, includeInfo, proof)
    ensures Hash(proof) == Hash(root)
    ensures FindTx(proof, tx, includeInfo) == Ok(true)
    ensures includeInfo ==>
              && IsBlock(proof) && IsInfo(proof.refs[0]) && proof.refs[0].data == root.refs[0].data
              && PrevRootHash(proof) == PrevRootHash(root)
  {
    var kept :| Covers(kept, TxProofMarks(root, tx, includeInfo)) && proof == Prune(root, kept);
    PruneKeepsHash(root, kept);
    FindTxAfterPrune(root, kept, tx, includeInfo);
    if includeInfo {
      assert TxProofMarks(root, tx, includeInfo).below[0] == InfoMarks(root.refs[0]);
      InfoAfterPrune(root, kept);
    }
  }
}
