/**
 Pivot blocks and masterchain proofs: the shard descriptions of a masterchain block, read by
 iterating over all of them or by descending to one, before and after pruning.
 */
module McProofs {
  import opened Results
  import opened Cells
  import opened BitStrings
  import opened Blocks
  import Dicts
  import ShardTree
  import TxProofs

  const CUSTOM: Path := [3, 3]
  const SHARDS_DICT: Path := [3, 3, 0]

  datatype McBlockBoundInfo = McBlockBoundInfo(endLt: Uint64, shardIds: seq<BlockIdShort>)

  datatype McProofForShard = McProofForShard(root: Cell, latestShardSeqno: Uint32)

  /** A 32-bit two's complement workchain as a dictionary key, and back. */
  function WorkchainKey(workchain: int): Bits {
    BitsOf(workchain % 0x1_0000_0000, WORKCHAIN_BITS)
  }

  function WorkchainOf(key: Bits): int {
    var n := ValueOf(key);
    if n < 0x8000_0000 then n else n - 0x1_0000_0000
  }

  lemma WorkchainSpan()
    ensures PowerOfTwo(WORKCHAIN_BITS) == 0x1_0000_0000
  {
    assert PowerOfTwo(8) == 0x100;
    assert PowerOfTwo(16) == 0x1_0000;
    assert PowerOfTwo(24) == 0x100_0000;
  }

  lemma WorkchainOfKey(workchain: int)
    requires -0x8000_0000 <= workchain < 0x8000_0000
    ensures WorkchainOf(WorkchainKey(workchain)) == workchain
  {
    WorkchainSpan();
    ValueRoundTrip(workchain % 0x1_0000_0000, WORKCHAIN_BITS);
  }

  lemma WrapsAround(n: nat)
    requires n < 0x1_0000_0000
    ensures (if n < 0x8000_0000 then n else n - 0x1_0000_0000) % 0x1_0000_0000 == n
  {
  }

  lemma KeyOfWorkchain(key: Bits)
    requires |key| == WORKCHAIN_BITS
    ensures WorkchainKey(WorkchainOf(key)) == key
  {
    WorkchainSpan();
    BitsRoundTrip(key);
    assert WorkchainOf(key) % 0x1_0000_0000 == ValueOf(key) by {
      WrapsAround(ValueOf(key));
    }
  }

  // --- Reading the shard descriptions

  predicate IsDescr(data: Data) {
    data.ShardLeaf? && (data.tag == 0xa || data.tag == 0xb)
  }

  /** The top blocks of one workchain, left to right. */
  function TopIds(workchain: int, leaves: seq<ShardTree.ShardEntry>): (r: Result<seq<BlockIdShort>, Error>)
    ensures r.Ok? ==> |r.value| == |leaves| && forall k | 0 <= k < |leaves| ::
                      && |leaves[k].path| <= MAX_SPLIT_DEPTH
                      && leaves[k].leaf.Ordinary? && IsDescr(leaves[k].leaf.data)
                      && r.value[k] == BlockIdShort(ShardIdent(workchain, ShardTree.PrefixOf(leaves[k].path)),
                                                    leaves[k].leaf.data.topSeqno)
  {
    if leaves == [] then Ok([])
    else if leaves[0].leaf.Pruned? || !IsDescr(leaves[0].leaf.data) then Err(InvalidTag)
    else if |leaves[0].path| > MAX_SPLIT_DEPTH then Err(InvalidData)
    else
      var rest :- TopIds(workchain, leaves[1..]);
      Ok([BlockIdShort(ShardIdent(workchain, ShardTree.PrefixOf(leaves[0].path)), leaves[0].leaf.data.topSeqno)] + rest)
  }

  /** The top blocks of a workchain can be listed exactly if each description is readable and not too
      deep. */
  lemma {:induction false} TopIdsReadable(workchain: int, leaves: seq<ShardTree.ShardEntry>)
    ensures TopIds(workchain, leaves).Ok? <==>
              forall k | 0 <= k < |leaves| ::
                && leaves[k].leaf.Ordinary? && leaves[k].leaf.data.ShardLeaf?
                && leaves[k].leaf.data.tag in {0xa, 0xb} && |leaves[k].path| <= 60
  {
    if leaves != [] {
      TopIdsReadable(workchain, leaves[1..]);
      assert forall k | 0 < k < |leaves| :: leaves[k] == leaves[1..][k - 1];
    }
  }

  function TopIdsOf(e: Dicts.Entry): Result<seq<BlockIdShort>, Error> {
    if !IsShardsLeaf(e.leaf) then Err(CellUnderflow)
    else
      var leaves :- ShardTree.Leaves(e.leaf.refs[0]);
      TopIds(WorkchainOf(e.key), leaves)
  }

  function TopIdsOfAll(entries: seq<Dicts.Entry>): Result<seq<BlockIdShort>, Error> {
    if entries == [] then Ok([])
    else
      var first :- TopIdsOf(entries[0]);
      var rest :- TopIdsOfAll(entries[1..]);
      Ok(first + rest)
  }

  /** `load_top_shard_block_ids` */
  function TopShardIds(root: Cell): Result<seq<BlockIdShort>, Error> {
    if !HasShards(root) then Err(CellUnderflow)
    else if ShardsOf(root).None? then Ok([])
    else
      var entries :- Dicts.Entries(ShardsOf(root).value, WORKCHAIN_BITS);
      TopIdsOfAll(entries)
  }

  /** `parse_latest_shard_blocks` */
  function LatestShardBlocks(root: Cell): Result<McBlockBoundInfo, Error> {
    if !IsBlock(root) || !IsInfo(root.refs[0]) then Err(CellUnderflow)
    else
      var ids :- TopShardIds(root);
      Ok(McBlockBoundInfo(root.refs[0].data.endLt, ids))
  }

  /** The description of one shard below the dictionary of workchains. */
  function ShardDescr(shards: Cell, workchain: Bits, path: Bits): Result<Cell, Error> {
    var found := Dicts.Get(shards, workchain);
    if !found.Found? || !IsShardsLeaf(found.leaf) then Err(CellUnderflow)
    else ShardTree.Descend(found.leaf.refs[0], path)
  }

  /** What a masterchain block tells of the top block of a shard. */
  function TopDescr(root: Cell, shard: ShardIdent): (r: Result<Data, Error>)
    requires 0 < shard.prefix < ShardTree.PREFIX_SPAN
    ensures r.Ok? ==> IsDescr(r.value)
  {
    if !HasShards(root) || ShardsOf(root).None? then Err(CellUnderflow)
    else
      var leaf :- ShardDescr(ShardsOf(root).value, WorkchainKey(shard.workchain), ShardTree.PathBits(shard.prefix));
      if leaf.Ordinary? && IsDescr(leaf.data) then Ok(leaf.data) else Err(InvalidTag)
  }

  /** `find_shard_seqno` */
  function ShardSeqno(root: Cell, shard: ShardIdent): Result<Uint32, Error>
    requires 0 < shard.prefix < ShardTree.PREFIX_SPAN
  {
    var descr :- TopDescr(root, shard);
    Ok(descr.topSeqno)
  }

  /** The root hash of the top block of a shard. */
  function ShardRootHash(root: Cell, shard: ShardIdent): Result<Digest, Error>
    requires 0 < shard.prefix < ShardTree.PREFIX_SPAN
  {
    var descr :- TopDescr(root, shard);
    Ok(descr.rootHash)
  }

  predicate ValidShard(shard: ShardIdent) {
    -0x8000_0000 <= shard.workchain < 0x8000_0000 && 0 < shard.prefix < ShardTree.PREFIX_SPAN
  }

  lemma {:induction false} TopIdsOfAllHas(entries: seq<Dicts.Entry>, e: Dicts.Entry)
    requires TopIdsOfAll(entries).Ok? && e in entries
    ensures TopIdsOf(e).Ok?
    ensures forall id | id in TopIdsOf(e).value :: id in TopIdsOfAll(entries).value
  {
    assert entries == [entries[0]] + entries[1..];
    if e != entries[0] {
      TopIdsOfAllHas(entries[1..], e);
    }
  }

  lemma {:induction false} TopIdsOfAllFrom(entries: seq<Dicts.Entry>, id: BlockIdShort) returns (e: Dicts.Entry)
    requires TopIdsOfAll(entries).Ok? && id in TopIdsOfAll(entries).value
    ensures e in entries && TopIdsOf(e).Ok? && id in TopIdsOf(e).value
  {
    e := entries[0];
    if id !in TopIdsOf(e).value {
      e := TopIdsOfAllFrom(entries[1..], id);
    }
  }

  /** The enumerated top of a shard is what the descent to that shard finds. */
  lemma TopIsFound(root: Cell, id: BlockIdShort)
    requires TopShardIds(root).Ok? && id in TopShardIds(root).value
    ensures 0 < id.shard.prefix < ShardTree.PREFIX_SPAN
    ensures ShardSeqno(root, id.shard) == Ok(id.seqno)
  {
    var shards := ShardsOf(root).value;
    var entries := Dicts.Entries(shards, WORKCHAIN_BITS).value;
    var e := TopIdsOfAllFrom(entries, id);
    Dicts.EntryIsFound(shards, WORKCHAIN_BITS, e);
    KeyOfWorkchain(e.key);
    var leaves := ShardTree.Leaves(e.leaf.refs[0]).value;
    var k :| 0 <= k < |leaves| && TopIdsOf(e).value[k] == id;
    ShardTree.PathOfPrefix(leaves[k].path);
    assert leaves[k] in leaves;
    ShardTree.DescendMatchesLeaves(e.leaf.refs[0], leaves[k].path, leaves[k].leaf);
  }

  lemma FoundIsTop(root: Cell, shard: ShardIdent)
    requires TopShardIds(root).Ok? && ValidShard(shard) && ShardSeqno(root, shard).Ok?
    ensures BlockIdShort(shard, ShardSeqno(root, shard).value) in TopShardIds(root).value
  {
    var shards := ShardsOf(root).value;
    var entries := Dicts.Entries(shards, WORKCHAIN_BITS).value;
    var key, path := WorkchainKey(shard.workchain), ShardTree.PathBits(shard.prefix);
    Dicts.FoundIsEntry(shards, WORKCHAIN_BITS, key);
    WorkchainOfKey(shard.workchain);
    var found := Dicts.Get(shards, key);
    var e := Dicts.Entry(key, found.at, found.leaf);
    var id := BlockIdShort(shard, ShardSeqno(root, shard).value);
    TopIdsOfAllHas(entries, e);
    var leaf := ShardTree.Descend(e.leaf.refs[0], path).value;
    ShardTree.DescendMatchesLeaves(e.leaf.refs[0], path, leaf);
    var leaves := ShardTree.Leaves(e.leaf.refs[0]).value;
    var k :| 0 <= k < |leaves| && leaves[k] == ShardTree.ShardEntry(path, leaf);
    ShardTree.PrefixOfPath(shard.prefix);
    assert TopIdsOf(e).value[k] == id;
  }

  /** Enumerating the shards of a masterchain block and descending to one of them agree. */
  lemma DescentMatchesEnumeration(root: Cell, shard: ShardIdent, seqno: nat)
    requires TopShardIds(root).Ok? && ValidShard(shard)
    ensures ShardSeqno(root, shard) == Ok(seqno) <==> BlockIdShort(shard, seqno) in TopShardIds(root).value
  {
    if ShardSeqno(root, shard).Ok? {
      FoundIsTop(root, shard);
    }
    if BlockIdShort(shard, seqno) in TopShardIds(root).value {
      TopIsFound(root, BlockIdShort(shard, seqno));
    }
  }

  // --- What is read

  /** All shard descriptions of all workchains. */
  function AllShardNodes(node: Cell): Marks {
    if Dicts.IsFork(node) then Visited([AllShardNodes(node.refs[0]), AllShardNodes(node.refs[1])])
    else if IsShardsLeaf(node) then Visited([ShardTree.Nodes(node.refs[0])])
    else Visited([])
  }

  /** The way to one shard description. */
  function OneShardNodes(node: Cell, workchain: Bits, path: Bits): Marks {
    if Dicts.IsFork(node) && |node.data.edge| < |workchain| && node.data.edge <= workchain then
      var i := if workchain[|node.data.edge|] then 1 else 0;
      Dicts.OneBranch(i, OneShardNodes(node.refs[i], workchain[|node.data.edge| + 1..], path))
    else if IsShardsLeaf(node) && node.data.edge == workchain then Visited([ShardTree.DescentNodes(node.refs[0], path)])
    else Visited([])
  }

  function CustomMarks(custom: Cell, shards: Cell -> Marks): Marks {
    if custom.Ordinary? && custom.data.McExtra? && custom.data.hasShards && |custom.refs| >= 1
    then Visited([shards(custom.refs[0])])
    else Visited([])
  }

  /** `make_pivot_block_proof` */
  function PivotMarks(root: Cell, isMasterchain: bool): Marks
    requires IsBlock(root) && (isMasterchain ==> HasShards(root))
  {
    if isMasterchain
    then BlockMarks(AllMarks(root.refs[0]), Skipped, CustomMarks(root.refs[3].refs[3], AllShardNodes))
    else Visited([InfoMarks(root.refs[0])])
  }

  /** `make_mc_proof` */
  function McProofMarks(root: Cell, shard: ShardIdent): Marks
    requires HasShards(root) && 0 < shard.prefix < ShardTree.PREFIX_SPAN
  {
    var key, path := WorkchainKey(shard.workchain), ShardTree.PathBits(shard.prefix);
    BlockMarks(Visited([]), Skipped, CustomMarks(root.refs[3].refs[3], node => OneShardNodes(node, key, path)))
  }

  ghost predicate IsPivot(root: Cell, isMasterchain: bool, pivot: Cell) {
    && IsBlock(root) && (isMasterchain ==> HasShards(root))
    && Keeps(root, PivotMarks(root, isMasterchain), pivot)
  }

  ghost predicate IsMcProof(root: Cell, shard: ShardIdent, proof: Cell) {
    && HasShards(root) && 0 < shard.prefix < ShardTree.PREFIX_SPAN
    && Keeps(root, McProofMarks(root, shard), proof)
  }

  lemma {:induction false} AllCoverOneShard(node: Cell, workchain: Bits, path: Bits, leaf: Cell)
    requires ShardDescr(node, workchain, path) == Ok(leaf)
    requires forall found | found == Dicts.Get(node, workchain) :: ShardTree.Leaves(found.leaf.refs[0]).Ok?
    ensures Covers(AllShardNodes(node), OneShardNodes(node, workchain, path))
  {
    if Dicts.IsFork(node) {
      if |node.data.edge| < |workchain| && node.data.edge <= workchain {
        var i := if workchain[|node.data.edge|] then 1 else 0;
        AllCoverOneShard(node.refs[i], workchain[|node.data.edge| + 1..], path, leaf);
        assert AllShardNodes(node).below[i] == AllShardNodes(node.refs[i]);
      }
    } else if IsShardsLeaf(node) {
      ShardTree.IterationCoversDescent(node.refs[0], path);
    }
  }

  /** With the way to a description kept, the descent finds a description with the same data. */
  lemma {:induction false} ShardDescrAfterPrune(node: Cell, kept: Marks, workchain: Bits, path: Bits)
    requires Covers(kept, OneShardNodes(node, workchain, path)) && ShardDescr(node, workchain, path).Ok?
    ensures var before, after := ShardDescr(node, workchain, path), ShardDescr(Prune(node, kept), workchain, path);
            after.Ok? && after.value.Ordinary? && before.value.Ordinary? && after.value.data == before.value.data
  {
    if Dicts.IsFork(node) {
      var i := if workchain[|node.data.edge|] then 1 else 0;
      var rest := workchain[|node.data.edge| + 1..];
      assert OneShardNodes(node, workchain, path).below[i] == OneShardNodes(node.refs[i], rest, path);
      ShardDescrAfterPrune(node.refs[i], Under(kept, i), rest, path);
    } else {
      assert OneShardNodes(node, workchain, path).below[0] == ShardTree.DescentNodes(node.refs[0], path);
      ShardTree.DescendAfterPrune(node.refs[0], Under(kept, 0), path);
    }
  }

  lemma PrunedBlockParts(root: Cell, kept: Marks, info: Marks, custom: Marks)
    requires HasShards(root) && info.Visited? && custom.Visited?
    requires Covers(kept, BlockMarks(info, Skipped, custom))
    ensures var pruned, customKept := Prune(root, kept), Under(Under(kept, 3), 3);
            && HasShards(pruned) && customKept.Visited? && Covers(customKept, custom) && Covers(Under(kept, 0), info)
            && pruned.refs[0] == Prune(root.refs[0], Under(kept, 0))
            && pruned.refs[0].Ordinary? == root.refs[0].Ordinary?
            && ShardsOf(pruned).Some? == ShardsOf(root).Some?
            && (ShardsOf(root).Some? ==> ShardsOf(pruned).value == Prune(ShardsOf(root).value, Under(customKept, 0)))
  {
    var marks := BlockMarks(info, Skipped, custom);
    assert Covers(Under(kept, 3), marks.below[3]) && Covers(Under(kept, 0), marks.below[0]);
    assert marks.below[3].below[3] == custom;
    assert Covers(Under(Under(kept, 3), 3), custom);
    var pruned := Prune(root, kept);
    assert pruned.refs[3] == Prune(root.refs[3], Under(kept, 3)) && pruned.refs[3].Ordinary?;
    assert pruned.refs[3].refs[3] == Prune(root.refs[3].refs[3], Under(Under(kept, 3), 3));
  }

  /** A masterchain proof for a shard has the hash of its block, and tells the same info and the
      same of the top block of the shard. */
  lemma McProofOpens(root: Cell, shard: ShardIdent, proof: Cell)
    requires IsMcProof(root, shard, proof) && TopDescr(root, shard).Ok?
    ensures Hash(proof) == Hash(root)
    ensures TopDescr(proof, shard) == TopDescr(root, shard)
    ensures IsInfo(root.refs[0]) ==> IsInfo(proof.refs[0]) && proof.refs[0].data == root.refs[0].data
  {
    var kept :| Covers(kept, McProofMarks(root, shard)) && proof == Prune(root, kept);
    PruneKeepsHash(root, kept);
    TopDescrAfterPrune(root, shard, kept);
  }

  lemma TopDescrAfterPrune(root: Cell, shard: ShardIdent, kept: Marks)
    requires HasShards(root) && 0 < shard.prefix < ShardTree.PREFIX_SPAN
    requires Covers(kept, McProofMarks(root, shard)) && TopDescr(root, shard).Ok?
    ensures TopDescr(Prune(root, kept), shard) == TopDescr(root, shard)
    ensures var pruned := Prune(root, kept);
            IsInfo(root.refs[0]) ==> IsInfo(pruned.refs[0]) && pruned.refs[0].data == root.refs[0].data
  {
    var key, path := WorkchainKey(shard.workchain), ShardTree.PathBits(shard.prefix);
    var custom := CustomMarks(root.refs[3].refs[3], node => OneShardNodes(node, key, path));
    PrunedBlockParts(root, kept, Visited([]), custom);
    assert custom.below[0] == OneShardNodes(ShardsOf(root).value, key, path);
    ShardDescrAfterPrune(ShardsOf(root).value, Under(Under(Under(kept, 3), 3), 0), key, path);
  }

  /** A pivot of a masterchain block keeps what every masterchain proof reads. */
  lemma PivotCoversMcProof(root: Cell, shard: ShardIdent, kept: Marks)
    requires HasShards(root) && ValidShard(shard) && Covers(kept, PivotMarks(root, true))
    requires TopShardIds(root).Ok? && TopDescr(root, shard).Ok?
    ensures Covers(kept, McProofMarks(root, shard))
  {
    var key, path, custom := WorkchainKey(shard.workchain), ShardTree.PathBits(shard.prefix), root.refs[3].refs[3];
    AllCoverOneOfRoot(root, shard);
    assert AllMarks(root.refs[0]).Visited?;
    BlockMarksCover(AllMarks(root.refs[0]), Skipped, CustomMarks(custom, AllShardNodes),
                    Visited([]), Skipped, CustomMarks(custom, node => OneShardNodes(node, key, path)));
    CoversTransitive(kept, PivotMarks(root, true), McProofMarks(root, shard));
  }

  lemma AllCoverOneOfRoot(root: Cell, shard: ShardIdent)
    requires HasShards(root) && ValidShard(shard) && TopShardIds(root).Ok? && TopDescr(root, shard).Ok?
    ensures var key, path := WorkchainKey(shard.workchain), ShardTree.PathBits(shard.prefix);
            var custom := root.refs[3].refs[3];
            Covers(CustomMarks(custom, AllShardNodes), CustomMarks(custom, node => OneShardNodes(node, key, path)))
  {
    var key, path := WorkchainKey(shard.workchain), ShardTree.PathBits(shard.prefix);
    var shards := ShardsOf(root).value;
    var entries := Dicts.Entries(shards, WORKCHAIN_BITS).value;
    Dicts.FoundIsEntry(shards, WORKCHAIN_BITS, key);
    var found := Dicts.Get(shards, key);
    TopIdsOfAllHas(entries, Dicts.Entry(key, found.at, found.leaf));
    AllCoverOneShard(shards, key, path, ShardDescr(shards, key, path).value);
    var custom := root.refs[3].refs[3];
    assert CustomMarks(custom, AllShardNodes) == Visited([AllShardNodes(shards)]);
    assert CustomMarks(custom, node => OneShardNodes(node, key, path)) == Visited([OneShardNodes(shards, key, path)]);
  }

  // --- Reading a pivot gives what the full block gives

  lemma {:induction false} TopIdsSame(workchain: int, a: seq<ShardTree.ShardEntry>, b: seq<ShardTree.ShardEntry>)
    requires TopIds(workchain, a).Ok? && ShardTree.SameLeaves(a, b)
    ensures TopIds(workchain, b) == TopIds(workchain, a)
  {
    if a != [] {
      TopIdsSame(workchain, a[1..], b[1..]);
    }
  }

  lemma ShardNodesUnderFork(node: Cell, i: nat, at: Path)
    requires Dicts.IsFork(node) && i < 2
    ensures UnderPath(AllShardNodes(node), [i] + at) == UnderPath(AllShardNodes(node.refs[i]), at)
  {
    Dicts.PathSteps(AllShardNodes(node), i, at);
  }

  lemma {:induction false} ShardNodesAt(node: Cell, width: nat, e: Dicts.Entry)
    requires Dicts.Entries(node, width).Ok? && e in Dicts.Entries(node, width).value
    ensures UnderPath(AllShardNodes(node), e.at) == AllShardNodes(e.leaf)
  {
    if Dicts.IsFork(node) {
      var i, f := Dicts.PlaceOfEntry(node, width, e);
      ShardNodesAt(node.refs[i], width - |node.data.edge| - 1, f);
      ShardNodesUnderFork(node, i, f.at);
    }
  }

  lemma TopIdsOfAfterPrune(e: Dicts.Entry, kept: Marks)
    requires TopIdsOf(e).Ok? && Covers(kept, AllShardNodes(e.leaf))
    ensures TopIdsOf(e.(leaf := Prune(e.leaf, kept))) == TopIdsOf(e)
  {
    var tree := e.leaf.refs[0];
    assert AllShardNodes(e.leaf).below[0] == ShardTree.Nodes(tree);
    ShardTree.LeavesAfterPrune(tree, Under(kept, 0));
    TopIdsSame(WorkchainOf(e.key), ShardTree.Leaves(tree).value, ShardTree.Leaves(Prune(tree, Under(kept, 0))).value);
  }

  lemma {:induction false} TopIdsOfAllAfterPrune(entries: seq<Dicts.Entry>, kept: Marks)
    requires TopIdsOfAll(entries).Ok?
    requires forall e | e in entries :: Covers(UnderPath(kept, e.at), AllShardNodes(e.leaf))
    ensures TopIdsOfAll(Dicts.PrunedEntries(entries, kept)) == TopIdsOfAll(entries)
  {
    if entries != [] {
      var after := Dicts.PrunedEntries(entries, kept);
      TopIdsOfAfterPrune(entries[0], UnderPath(kept, entries[0].at));
      TopIdsOfAllAfterPrune(entries[1..], kept);
      assert after[1..] == Dicts.PrunedEntries(entries[1..], kept);
    }
  }

  lemma {:induction false} AllShardNodesCoverDict(node: Cell)
    ensures Covers(AllShardNodes(node), Dicts.Nodes(node))
  {
    if Dicts.IsFork(node) {
      AllShardNodesCoverDict(node.refs[0]);
      AllShardNodesCoverDict(node.refs[1]);
    }
  }

  /** A pivot of a masterchain block has its hash and tells the same end time, top blocks and
      shard seqnos as the full block. */
  lemma PivotOpens(root: Cell, pivot: Cell)
    requires IsPivot(root, true, pivot) && LatestShardBlocks(root).Ok?
    ensures Hash(pivot) == Hash(root)
    ensures LatestShardBlocks(pivot) == LatestShardBlocks(root)
    ensures IsBlock(pivot) && pivot.refs[0] == root.refs[0]
  {
    var kept :| Covers(kept, PivotMarks(root, true)) && pivot == Prune(root, kept);
    PruneKeepsHash(root, kept);
    TxProofs.InfoIsKept(root, kept, PivotMarks(root, true));
    var custom := CustomMarks(root.refs[3].refs[3], AllShardNodes);
    assert AllMarks(root.refs[0]).Visited?;
    PrunedBlockParts(root, kept, AllMarks(root.refs[0]), custom);
    if ShardsOf(root).Some? {
      var shards := ShardsOf(root).value;
      var m := Under(Under(Under(kept, 3), 3), 0);
      var entries := Dicts.Entries(shards, WORKCHAIN_BITS).value;
      assert custom.below[0] == AllShardNodes(shards);
      AllShardNodesCoverDict(shards);
      CoversTransitive(m, AllShardNodes(shards), Dicts.Nodes(shards));
      Dicts.EntriesAfterPrune(shards, m, WORKCHAIN_BITS);
      forall e | e in entries ensures Covers(UnderPath(m, e.at), AllShardNodes(e.leaf)) {
        ShardNodesAt(shards, WORKCHAIN_BITS, e);
        UnderPathCovers(m, AllShardNodes(shards), e.at);
      }
      TopIdsOfAllAfterPrune(entries, m);
    }
  }

  /** Descending to a shard in a pivot finds what it finds in the full block. */
  lemma PivotTopDescr(root: Cell, pivot: Cell, shard: ShardIdent)
    requires IsPivot(root, true, pivot) && TopShardIds(root).Ok? && ValidShard(shard) && TopDescr(root, shard).Ok?
    ensures TopDescr(pivot, shard) == TopDescr(root, shard)
  {
    var kept :| Covers(kept, PivotMarks(root, true)) && pivot == Prune(root, kept);
    PivotCoversMcProof(root, shard, kept);
    TopDescrAfterPrune(root, shard, kept);
  }

  /** A masterchain proof made from a pivot is a proof for the full block: it has its hash and
      tells its info and the top block of the shard. */
  lemma McProofOfPivotOpens(root: Cell, pivot: Cell, shard: ShardIdent, proof: Cell)
    requires IsPivot(root, true, pivot) && LatestShardBlocks(root).Ok? && ValidShard(shard)
    requires TopDescr(root, shard).Ok? && IsMcProof(pivot, shard, proof)
    ensures Hash(proof) == Hash(root) && TopDescr(proof, shard) == TopDescr(root, shard)
    ensures IsBlock(proof) && IsInfo(proof.refs[0]) && proof.refs[0].data == root.refs[0].data
  {
    var kept :| Covers(kept, PivotMarks(root, true)) && pivot == Prune(root, kept);
    PruneKeepsHash(root, kept);
    PivotTopDescr(root, pivot, shard);
    PivotKeepsInfo(root, pivot, true);
    McProofOpens(pivot, shard, proof);
  }

  /** A pivot shows the info of its block and the root hash of the block before it. */
  lemma PivotKeepsInfo(root: Cell, pivot: Cell, isMasterchain: bool)
    requires IsPivot(root, isMasterchain, pivot) && IsInfo(root.refs[0])
    ensures Hash(pivot) == Hash(root)
    ensures IsBlock(pivot) && IsInfo(pivot.refs[0]) && pivot.refs[0].data == root.refs[0].data
    ensures PrevRootHash(pivot) == PrevRootHash(root)
  {
    var kept :| Covers(kept, PivotMarks(root, isMasterchain)) && pivot == Prune(root, kept);
    PruneKeepsHash(root, kept);
    var marks, info := PivotMarks(root, isMasterchain), root.refs[0];
    assert Covers(Under(kept, 0), marks.below[0]);
    AllCoverInfo(info);
    CoversItself(InfoMarks(info));
    CoversTransitive(Under(kept, 0), marks.below[0], InfoMarks(info));
    InfoAfterPrune(root, kept);
  }

  // --- The proofs

  /** Every shard tree of the block can be iterated over. */
  predicate ShardHashesReadable(root: Cell) {
    && HasShards(root)
    && (ShardsOf(root).Some? ==>
          var entries := Dicts.Entries(ShardsOf(root).value, WORKCHAIN_BITS);
          && entries.Ok?
          && forall e | e in entries.value :: IsShardsLeaf(e.leaf) && ShardTree.Leaves(e.leaf.refs[0]).Ok?)
  }

  /** When the shard tops can be listed, every shard tree can be iterated over. */
  lemma ListedAreReadable(root: Cell)
    requires TopShardIds(root).Ok?
    ensures ShardHashesReadable(root)
  {
    if ShardsOf(root).Some? {
      var entries := Dicts.Entries(ShardsOf(root).value, WORKCHAIN_BITS).value;
      forall e | e in entries ensures TopIdsOf(e).Ok? {
        TopIdsOfAllHas(entries, e);
      }
    }
  }

  lemma CustomMarksRead(m: Marks, info: Marks, custom: Cell, shards: Cell -> Marks)
    requires Covers(UnderPath(m, TxProofs.INFO), info)
    requires UnderPath(m, CUSTOM).Visited?
    requires custom.Ordinary? && custom.data.McExtra? && custom.data.hasShards && |custom.refs| >= 1 ==>
               Covers(UnderPath(m, SHARDS_DICT), shards(custom.refs[0]))
    ensures Covers(m, BlockMarks(info, Skipped, CustomMarks(custom, shards)))
  {
    UnderPathSteps(m, 0, 0, 0);
    UnderPathSteps(m, 3, 3, 0);
    var extra := Visited([Skipped, Skipped, Skipped, CustomMarks(custom, shards)]);
    assert Covers(Under(Under(m, 3), 3), CustomMarks(custom, shards));
    assert Covers(Under(m, 3), extra);
  }

  /** `make_pivot_block_proof` */
  method MakePivotBlockProof(isMasterchain: bool, root: Cell, alsoKept: Marks) returns (r: Result<Cell, Error>)
    ensures r.Ok? <==> IsBlock(root) && if isMasterchain then ShardHashesReadable(root) else IsInfo(root.refs[0])
    ensures r.Ok? ==> IsPivot(root, isMasterchain, r.value)
  {
    var usage := new UsageTree();
    usage.Visit(TxProofs.ROOT, Visited([]));
    if !IsBlock(root) {
      return Err(CellUnderflow);
    }
    if isMasterchain {
      var info := AllMarks(root.refs[0]);
      usage.Visit(TxProofs.INFO, info);
      ghost var afterInfo := usage.marks;
      usage.Visit(CUSTOM, Visited([]));
      StillCovers(usage.marks, afterInfo, TxProofs.INFO, info);
      if !ShardHashesReadable(root) {
        return Err(CellUnderflow);
      }
      var shards := ShardsOf(root);
      if shards.Some? {
        ghost var afterCustom := usage.marks;
        usage.Visit(SHARDS_DICT, AllShardNodes(shards.value));
        StillCovers(usage.marks, afterCustom, TxProofs.INFO, info);
        StillCovers(usage.marks, afterCustom, CUSTOM, Visited([]));
      }
      CustomMarksRead(usage.marks, info, root.refs[3].refs[3], AllShardNodes);
    } else {
      if !IsInfo(root.refs[0]) {
        return Err(CellUnderflow);
      }
      usage.Visit(TxProofs.INFO, InfoMarks(root.refs[0]));
      UnderPathSteps(usage.marks, 0, 0, 0);
    }
    var pivot := PruneUnvisited(root, usage.marks, alsoKept, PivotMarks(root, isMasterchain));
    return Ok(pivot);
  }

  /** The lookup of the workchain and the descent of `make_mc_proof`. */
  method FindDescr(root: Cell, shard: ShardIdent) returns (r: Result<Data, Error>)
    requires HasShards(root) && ShardsOf(root).Some? && 0 < shard.prefix < ShardTree.PREFIX_SPAN
    ensures r.Ok? <==> TopDescr(root, shard).Ok?
    ensures r.Ok? ==> r == TopDescr(root, shard)
  {
    var found := Dicts.Get(ShardsOf(root).value, WorkchainKey(shard.workchain));
    if !found.Found? || !IsShardsLeaf(found.leaf) {
      return Err(CellUnderflow);
    }
    var leaf :- ShardTree.FindShardDescr(found.leaf.refs[0], shard.prefix);
    if leaf.Pruned? || !IsDescr(leaf.data) {
      return Err(InvalidTag);
    }
    return Ok(leaf.data);
  }

  /** `make_mc_proof`: descends to the description of the shard. */
  method MakeMcProof(root: Cell, shard: ShardIdent, alsoKept: Marks) returns (r: Result<McProofForShard, Error>)
    requires 0 < shard.prefix < ShardTree.PREFIX_SPAN
    ensures r.Ok? <==> IsBlock(root) && IsInfo(root.refs[0]) && ShardSeqno(root, shard).Ok?
    ensures r.Ok? ==> IsMcProof(root, shard, r.value.root) && r.value.latestShardSeqno == ShardSeqno(root, shard).value
  {
    var usage := new UsageTree();
    usage.Visit(TxProofs.ROOT, Visited([]));
    if !IsBlock(root) || !IsInfo(root.refs[0]) {
      return Err(CellUnderflow);
    }
    usage.Visit(TxProofs.INFO, Visited([]));
    ghost var afterInfo := usage.marks;
    usage.Visit(CUSTOM, Visited([]));
    StillCovers(usage.marks, afterInfo, TxProofs.INFO, Visited([]));
    if !HasShards(root) || ShardsOf(root).None? {
      return Err(CellUnderflow);
    }
    var shards, key, path := ShardsOf(root).value, WorkchainKey(shard.workchain), ShardTree.PathBits(shard.prefix);
    var descr :- FindDescr(root, shard);
    ghost var afterCustom := usage.marks;
    usage.Visit(SHARDS_DICT, OneShardNodes(shards, key, path));
    StillCovers(usage.marks, afterCustom, TxProofs.INFO, Visited([]));
    StillCovers(usage.marks, afterCustom, CUSTOM, Visited([]));
    CustomMarksRead(usage.marks, Visited([]), root.refs[3].refs[3], node => OneShardNodes(node, key, path));
    var proof := PruneUnvisited(root, usage.marks, alsoKept, McProofMarks(root, shard));
    return Ok(McProofForShard(proof, descr.topSeqno));
  }
}
