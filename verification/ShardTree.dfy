/**
 Shard prefixes and the binary tree of shard descriptions. A 64-bit prefix spells a path by its
 bits above the lowest set bit; descending the tree along it ends at the description of exactly
 that shard.
 */
module ShardTree {
  import opened Results
  import opened Cells
  import opened BitStrings

  const HIGH_BIT: nat := 0x8000_0000_0000_0000
  const PREFIX_SPAN: nat := 0x1_0000_0000_0000_0000

  /** A 64-bit `<< 1`. */
  function ShiftLeft(prefix: nat): nat {
    2 * prefix % PREFIX_SPAN
  }

  ghost function TrailingZeros(n: nat): nat
    requires n > 0
  {
    if n % 2 == 1 then 0 else 1 + TrailingZeros(n / 2)
  }

  lemma {:induction false} TrailingZerosBound(n: nat, k: nat)
    requires 0 < n < PowerOfTwo(k)
    ensures TrailingZeros(n) < k
  {
    if n % 2 == 0 {
      TrailingZerosBound(n / 2, k - 1);
    }
  }

  lemma {:induction false} TrailingZerosAbove(n: nat, k: nat)
    requires 0 < n < PowerOfTwo(k)
    ensures TrailingZeros(n + PowerOfTwo(k)) == TrailingZeros(n)
  {
    if n % 2 == 0 {
      TrailingZerosAbove(n / 2, k - 1);
      assert (n + PowerOfTwo(k)) / 2 == n / 2 + PowerOfTwo(k - 1);
    }
  }

  lemma HighBitIsPower()
    ensures PowerOfTwo(63) == HIGH_BIT && PowerOfTwo(64) == PREFIX_SPAN
  {
    assert PowerOfTwo(8) == 0x100;
    assert PowerOfTwo(16) == 0x1_0000;
    assert PowerOfTwo(24) == 0x100_0000;
    assert PowerOfTwo(32) == 0x1_0000_0000;
    assert PowerOfTwo(40) == 0x100_0000_0000;
    assert PowerOfTwo(48) == 0x1_0000_0000_0000;
    assert PowerOfTwo(56) == 0x100_0000_0000_0000;
  }

  lemma DoubledTrailingZeros(n: nat)
    requires n > 0
    ensures TrailingZeros(2 * n) == TrailingZeros(n) + 1
  {
    assert 2 * n % 2 == 0 && 2 * n / 2 == n;
  }

  /** A shift drops the highest bit; halving brings everything but that bit back. */
  lemma ShiftSplits(prefix: nat)
    requires prefix < PREFIX_SPAN
    ensures ShiftLeft(prefix) == 2 * (if prefix >= HIGH_BIT then prefix - HIGH_BIT else prefix)
    ensures ShiftLeft(prefix) / 2 == if prefix >= HIGH_BIT then prefix - HIGH_BIT else prefix
  {
    var low := if prefix >= HIGH_BIT then prefix - HIGH_BIT else prefix;
    assert 2 * prefix == 2 * low || 2 * prefix == 2 * low + PREFIX_SPAN;
  }

  /** One shift moves the lowest set bit up by one, until only the high bit is left. */
  lemma ShiftMovesLowestBit(prefix: nat)
    requires 0 < prefix < PREFIX_SPAN && prefix != HIGH_BIT
    ensures 0 < ShiftLeft(prefix) < PREFIX_SPAN
    ensures TrailingZeros(ShiftLeft(prefix)) == TrailingZeros(prefix) + 1 <= 63
  {
    HighBitIsPower();
    ShiftSplits(prefix);
    var low := if prefix >= HIGH_BIT then prefix - HIGH_BIT else prefix;
    if prefix >= HIGH_BIT {
      TrailingZerosAbove(low, 63);
    }
    DoubledTrailingZeros(low);
    TrailingZerosBound(ShiftLeft(prefix), 64);
  }

  /** The bits above the lowest set bit, highest first. */
  function PathBits(prefix: nat): Bits
    requires 0 < prefix < PREFIX_SPAN
    decreases 64 - TrailingZeros(prefix)
  {
    if prefix == HIGH_BIT then []
    else
      ShiftMovesLowestBit(prefix);
      [prefix >= HIGH_BIT] + PathBits(ShiftLeft(prefix))
  }

  /** The prefix of the shard at a path of the tree. */
  function PrefixOf(path: Bits): nat {
    if path == [] then HIGH_BIT
    else (if path[0] then HIGH_BIT else 0) + PrefixOf(path[1..]) / 2
  }

  lemma {:induction false} PrefixOfShape(path: Bits)
    requires |path| <= 63
    ensures 0 < PrefixOf(path) < PREFIX_SPAN
    ensures TrailingZeros(PrefixOf(path)) == 63 - |path|
  {
    HighBitIsPower();
    if path == [] {
      TrailingZerosOfPower(63);
    } else {
      PrefixOfShape(path[1..]);
      var half := PrefixOf(path[1..]) / 2;
      assert TrailingZeros(half) == 63 - |path|;
      if path[0] {
        TrailingZerosAbove(half, 63);
      }
    }
  }

  lemma {:induction false} TrailingZerosOfPower(k: nat)
    ensures PowerOfTwo(k) > 0 && TrailingZeros(PowerOfTwo(k)) == k
  {
    if k > 0 {
      TrailingZerosOfPower(k - 1);
    }
  }

  /** The path of a prefix, one turn at a time. */
  lemma FirstTurn(path: Bits)
    requires 0 < |path| <= 63
    ensures 0 < PrefixOf(path) < PREFIX_SPAN && PrefixOf(path) != HIGH_BIT
    ensures (PrefixOf(path) >= HIGH_BIT) == path[0]
    ensures ShiftLeft(PrefixOf(path)) == PrefixOf(path[1..])
  {
    PrefixOfShape(path);
    PrefixOfShape(path[1..]);
    var rest := PrefixOf(path[1..]);
    assert rest % 2 == 0;
    assert rest / 2 < HIGH_BIT && rest == 2 * (rest / 2) && rest / 2 > 0;
    ShiftSplits(PrefixOf(path));
  }

  /** A path of up to 63 bits is spelled by its prefix. */
  lemma {:induction false} PathOfPrefix(path: Bits)
    requires |path| <= 63
    ensures 0 < PrefixOf(path) < PREFIX_SPAN
    ensures PathBits(PrefixOf(path)) == path
  {
    if path != [] {
      FirstTurn(path);
      PathOfPrefix(path[1..]);
      assert PathBits(PrefixOf(path)) == [path[0]] + PathBits(PrefixOf(path[1..]));
      assert path == [path[0]] + path[1..];
    }
  }

  /** Every nonzero prefix is the prefix of the path it spells. */
  lemma {:induction false} PrefixOfPath(prefix: nat)
    requires 0 < prefix < PREFIX_SPAN
    ensures PrefixOf(PathBits(prefix)) == prefix
    decreases 64 - TrailingZeros(prefix)
  {
    if prefix != HIGH_BIT {
      ShiftMovesLowestBit(prefix);
      PrefixOfPath(ShiftLeft(prefix));
      ShiftSplits(prefix);
      PrefixOfTurn(prefix >= HIGH_BIT, PathBits(ShiftLeft(prefix)));
    }
  }

  lemma PrefixOfTurn(bit: bool, rest: Bits)
    ensures PrefixOf([bit] + rest) == (if bit then HIGH_BIT else 0) + PrefixOf(rest) / 2
  {
    assert ([bit] + rest)[1..] == rest;
  }

  // --- The tree

  predicate IsFork(node: Cell) {
    node.Ordinary? && node.data.ShardFork? && |node.refs| >= 2
  }

  predicate IsLeaf(node: Cell) {
    node.Ordinary? && node.data.ShardLeaf?
  }

  datatype ShardEntry = ShardEntry(path: Bits, leaf: Cell)

  function Lifted(bit: bool, entries: seq<ShardEntry>): (r: seq<ShardEntry>)
    ensures |r| == |entries|
  {
    seq(|entries|, k requires 0 <= k < |entries| => ShardEntry([bit] + entries[k].path, entries[k].leaf))
  }

  /** All descriptions of the tree, left to right. */
  function Leaves(node: Cell): Result<seq<ShardEntry>, Error> {
    if IsFork(node) then
      var left :- Leaves(node.refs[0]);
      var right :- Leaves(node.refs[1]);
      Ok(Lifted(false, left) + Lifted(true, right))
    else if IsLeaf(node) then Ok([ShardEntry([], node)])
    else Err(if node.Pruned? then PrunedBranchAccess else CellUnderflow)
  }

  /** A fork of two trees can be read exactly if both can, and lists the left one first. */
  lemma ForkIsReadable(left: Cell, right: Cell)
    ensures var fork := Ordinary(ShardFork, [left, right]);
            && (Leaves(fork).Ok? <==> Leaves(left).Ok? && Leaves(right).Ok?)
            && (Leaves(fork).Ok? ==>
                  |Leaves(fork).value| == |Leaves(left).value| + |Leaves(right).value|
                  && forall k | 0 <= k < |Leaves(left).value| ::
                       && Leaves(fork).value[k].path == [false] + Leaves(left).value[k].path
                       && Leaves(fork).value[k].leaf == Leaves(left).value[k].leaf)
  {
  }

  /** The nodes an iteration over all descriptions reads. */
  function Nodes(node: Cell): Marks {
    if IsFork(node) then Visited([Nodes(node.refs[0]), Nodes(node.refs[1])]) else Visited([])
  }

  /** The description at the end of a path. */
  function Descend(node: Cell, path: Bits): Result<Cell, Error> {
    if node.Pruned? then Err(PrunedBranchAccess)
    else if path == [] then
      if node.data.ShardLeaf? then Ok(node)
      else if node.data.ShardFork? then Err(InvalidTag)
      else Err(CellUnderflow)
    else if node.data.ShardFork? then
      var i := if path[0] then 1 else 0;
      if i < |node.refs| then Descend(node.refs[i], path[1..]) else Err(CellUnderflow)
    else if node.data.ShardLeaf? then Err(InvalidData)
    else Err(CellUnderflow)
  }

  /** The nodes a descent reads. */
  function DescentNodes(node: Cell, path: Bits): Marks {
    if path == [] || node.Pruned? || !node.data.ShardFork? then Visited([])
    else
      var i := if path[0] then 1 else 0;
      if i >= |node.refs| then Visited([])
      else
        var deeper := DescentNodes(node.refs[i], path[1..]);
        Visited(if i == 0 then [deeper] else [Skipped, deeper])
  }

  /** `find_shard_descr`: shifts the prefix out, one bit a level. It returns the description at
      the path the prefix spells, and fails when there is none; it stops even on a zero prefix. */
  method FindShardDescr(tree: Cell, shardPrefix: nat) returns (r: Result<Cell, Error>)
    requires shardPrefix < PREFIX_SPAN
    ensures shardPrefix > 0 ==> r == Descend(tree, PathBits(shardPrefix))
    ensures shardPrefix == 0 ==> r.Err?
  {
    var root: Cell, prefix: nat := tree, shardPrefix;
    while prefix != HIGH_BIT
      invariant prefix < PREFIX_SPAN && (prefix > 0 <==> shardPrefix > 0)
      invariant shardPrefix > 0 ==> Descend(tree, PathBits(shardPrefix)) == Descend(root, PathBits(prefix))
      decreases root
    {
      if prefix > 0 {
        ShiftMovesLowestBit(prefix);
      }
      if root.Pruned? {
        return Err(PrunedBranchAccess);
      }
      if root.data.ShardLeaf? {
        return Err(InvalidData);
      }
      if !root.data.ShardFork? {
        return Err(CellUnderflow);
      }
      var i := if prefix >= HIGH_BIT then 1 else 0;
      if i >= |root.refs| {
        return Err(CellUnderflow);
      }
      root := root.refs[i];
      prefix := ShiftLeft(prefix);
    }
    if root.Pruned? {
      return Err(PrunedBranchAccess);
    }
    if root.data.ShardFork? {
      return Err(InvalidTag);
    }
    if !root.data.ShardLeaf? {
      return Err(CellUnderflow);
    }
    return Ok(root);
  }

  /** A descent succeeds exactly at the enumerated descriptions. */
  lemma {:induction false} DescendMatchesLeaves(node: Cell, path: Bits, leaf: Cell)
    requires Leaves(node).Ok?
    ensures Descend(node, path) == Ok(leaf) <==> ShardEntry(path, leaf) in Leaves(node).value
  {
    var e := ShardEntry(path, leaf);
    if IsFork(node) {
      var left, right := Leaves(node.refs[0]).value, Leaves(node.refs[1]).value;
      LiftedMember(false, left, e);
      LiftedMember(true, right, e);
      if path != [] {
        DescendMatchesLeaves(node.refs[if path[0] then 1 else 0], path[1..], leaf);
      }
    } else {
      assert Leaves(node).value == [ShardEntry([], node)];
    }
  }

  lemma LiftedMember(bit: bool, entries: seq<ShardEntry>, e: ShardEntry)
    ensures e in Lifted(bit, entries) <==>
            e.path != [] && e.path[0] == bit && ShardEntry(e.path[1..], e.leaf) in entries
  {
    var lifted := Lifted(bit, entries);
    if e in lifted {
      var k :| 0 <= k < |lifted| && lifted[k] == e;
      assert e.path[1..] == entries[k].path;
    }
    if e.path != [] && e.path[0] == bit && ShardEntry(e.path[1..], e.leaf) in entries {
      var k :| 0 <= k < |entries| && entries[k] == ShardEntry(e.path[1..], e.leaf);
      assert lifted[k].path == e.path;
    }
  }

  /** Shard descent is exact: a prefix finds the enumerated description whose path it spells and
      nothing else, and every enumerated description that 64 bits can address is found by its prefix. */
  lemma ShardDescentIsExact(tree: Cell, leaf: Cell)
    requires Leaves(tree).Ok?
    ensures forall prefix | 0 < prefix < PREFIX_SPAN ::
              Descend(tree, PathBits(prefix)) == Ok(leaf) <==> ShardEntry(PathBits(prefix), leaf) in Leaves(tree).value
    ensures forall path: Bits | |path| <= 63 && ShardEntry(path, leaf) in Leaves(tree).value ::
              && 0 < PrefixOf(path) < PREFIX_SPAN
              && Descend(tree, PathBits(PrefixOf(path))) == Ok(leaf)
  {
    forall prefix | 0 < prefix < PREFIX_SPAN
      ensures Descend(tree, PathBits(prefix)) == Ok(leaf) <==> ShardEntry(PathBits(prefix), leaf) in Leaves(tree).value
    {
      DescendMatchesLeaves(tree, PathBits(prefix), leaf);
    }
    forall path: Bits | |path| <= 63 && ShardEntry(path, leaf) in Leaves(tree).value
      ensures 0 < PrefixOf(path) < PREFIX_SPAN
      ensures Descend(tree, PathBits(PrefixOf(path))) == Ok(leaf)
    {
      PathOfPrefix(path);
      DescendMatchesLeaves(tree, path, leaf);
    }
  }

  // --- Pruning

  /** A descent in a pruned tree whose nodes on the way were kept ends at a description with the
      same data. */
  lemma {:induction false} DescendAfterPrune(node: Cell, kept: Marks, path: Bits)
    requires Covers(kept, DescentNodes(node, path))
    ensures var before, after := Descend(node, path), Descend(Prune(node, kept), path);
            if before.Ok?
            then after.Ok? && after.value.Ordinary? && before.value.Ordinary? && after.value.data == before.value.data
            else after == before
  {
    if node.Ordinary? && path != [] && node.data.ShardFork? {
      var i := if path[0] then 1 else 0;
      if i < |node.refs| {
        assert DescentNodes(node, path).below[i] == DescentNodes(node.refs[i], path[1..]);
        DescendAfterPrune(node.refs[i], Under(kept, i), path[1..]);
      }
    }
  }

  /** A full iteration reads everything a descent reads. */
  lemma {:induction false} IterationCoversDescent(node: Cell, path: Bits)
    requires Leaves(node).Ok?
    ensures Covers(Nodes(node), DescentNodes(node, path))
  {
    if path != [] && IsFork(node) {
      var i := if path[0] then 1 else 0;
      IterationCoversDescent(node.refs[i], path[1..]);
      assert Nodes(node).below[i] == Nodes(node.refs[i]);
    }
  }

  /** The same paths, and descriptions with the same data. */
  ghost predicate SameLeaves(a: seq<ShardEntry>, b: seq<ShardEntry>) {
    && |a| == |b|
    && forall k | 0 <= k < |a| ::
         a[k].path == b[k].path && a[k].leaf.Ordinary? && b[k].leaf.Ordinary? && a[k].leaf.data == b[k].leaf.data
  }

  lemma SameLeavesJoin(a: seq<ShardEntry>, a': seq<ShardEntry>, b: seq<ShardEntry>, b': seq<ShardEntry>)
    requires SameLeaves(a, a') && SameLeaves(b, b')
    ensures SameLeaves(Lifted(false, a) + Lifted(true, b), Lifted(false, a') + Lifted(true, b'))
  {
  }

  /** An iteration over a pruned tree whose nodes were all kept lists the same paths and data. */
  lemma {:induction false} LeavesAfterPrune(node: Cell, kept: Marks)
    requires Covers(kept, Nodes(node)) && Leaves(node).Ok?
    ensures var after := Leaves(Prune(node, kept)); after.Ok? && SameLeaves(Leaves(node).value, after.value)
  {
    if IsFork(node) {
      assert Nodes(node).below == [Nodes(node.refs[0]), Nodes(node.refs[1])];
      LeavesAfterPrune(node.refs[0], Under(kept, 0));
      LeavesAfterPrune(node.refs[1], Under(kept, 1));
      var pruned := Prune(node, kept);
      assert IsFork(pruned);
      assert pruned.refs[0] == Prune(node.refs[0], Under(kept, 0));
      assert pruned.refs[1] == Prune(node.refs[1], Under(kept, 1));
      SameLeavesJoin(Leaves(node.refs[0]).value, Leaves(pruned.refs[0]).value,
                     Leaves(node.refs[1]).value, Leaves(pruned.refs[1]).value);
    }
  }
}
