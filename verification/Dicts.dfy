/**
 Dictionaries: binary tries of cells whose edges carry several key bits. A lookup and a full
 iteration read the same trie; pruning what neither of them reads changes neither.
 */
module Dicts {
  import opened Results
  import opened Cells

  datatype Lookup =
    | Found(at: Path, leaf: Cell)
    | Missing
    | Unreadable

  datatype Entry = Entry(key: Bits, at: Path, leaf: Cell)

  function Deeper(i: nat, found: Lookup): Lookup {
    if found.Found? then Found([i] + found.at, found.leaf) else found
  }

  predicate IsFork(node: Cell) {
    node.Ordinary? && node.data.DictFork? && |node.refs| >= 2
  }

  predicate IsLeaf(node: Cell) {
    node.Ordinary? && node.data.DictLeaf?
  }

  /** Follows the bits of `key` down from `node`. */
  function Get(node: Cell, key: Bits): Lookup {
    if IsFork(node) then
      var edge := node.data.edge;
      if |edge| < |key| && edge <= key then
        var i := if key[|edge|] then 1 else 0;
        Deeper(i, Get(node.refs[i], key[|edge| + 1..]))
      else
        Missing
    else if IsLeaf(node) then
      if node.data.edge == key then Found([], node) else Missing
    else
      Unreadable
  }

  function Lifted(bits: Bits, i: nat, entries: seq<Entry>): (r: seq<Entry>)
    ensures |r| == |entries|
  {
    seq(|entries|, k requires 0 <= k < |entries| =>
      Entry(bits + entries[k].key, [i] + entries[k].at, entries[k].leaf))
  }

  /** The entries of a fork from those of its branches. */
  function Joined(edge: Bits, left: seq<Entry>, right: seq<Entry>): seq<Entry> {
    Lifted(edge + [false], 0, left) + Lifted(edge + [true], 1, right)
  }

  /** All entries with keys of `width` bits, in key order. */
  function Entries(node: Cell, width: nat): Result<seq<Entry>, Error> {
    if IsFork(node) then
      var edge := node.data.edge;
      if |edge| >= width then Err(CellUnderflow)
      else
        var left :- Entries(node.refs[0], width - |edge| - 1);
        var right :- Entries(node.refs[1], width - |edge| - 1);
        Ok(Joined(edge, left, right))
    else if IsLeaf(node) then
      if |node.data.edge| == width then Ok([Entry(node.data.edge, [], node)]) else Err(CellUnderflow)
    else
      Err(if node.Pruned? then PrunedBranchAccess else InvalidData)
  }

  /** A fork of two tries can be read exactly if both can, with keys that are shorter by its edge and one
      bit. */
  lemma ForkIsReadable(edge: Bits, left: Cell, right: Cell, width: nat)
    ensures var fork := Ordinary(DictFork(edge), [left, right]);
            Entries(fork, width).Ok? <==>
              && |edge| < width && Entries(left, width - |edge| - 1).Ok? && Entries(right, width - |edge| - 1).Ok?
  {
  }

  /** The nodes a full iteration reads. */
  function Nodes(node: Cell): Marks {
    if IsFork(node) then Visited([Nodes(node.refs[0]), Nodes(node.refs[1])]) else Visited([])
  }

  lemma LiftedHas(bits: Bits, i: nat, entries: seq<Entry>, f: Entry)
    requires f in entries
    ensures Entry(bits + f.key, [i] + f.at, f.leaf) in Lifted(bits, i, entries)
  {
    var k :| 0 <= k < |entries| && entries[k] == f;
    assert Lifted(bits, i, entries)[k] == Entry(bits + f.key, [i] + f.at, f.leaf);
  }

  lemma LiftedFrom(bits: Bits, i: nat, entries: seq<Entry>, e: Entry) returns (f: Entry)
    requires e in Lifted(bits, i, entries)
    ensures f in entries && e == Entry(bits + f.key, [i] + f.at, f.leaf)
  {
    var k :| 0 <= k < |entries| && Lifted(bits, i, entries)[k] == e;
    f := entries[k];
  }

  /** In which branch of a fork an entry lies, and what it is there. */
  lemma EntryBranch(node: Cell, width: nat, e: Entry) returns (i: nat, f: Entry)
    requires IsFork(node) && Entries(node, width).Ok? && e in Entries(node, width).value
    ensures i < 2 && |node.data.edge| < width
    ensures Entries(node.refs[i], width - |node.data.edge| - 1).Ok?
    ensures f in Entries(node.refs[i], width - |node.data.edge| - 1).value
    ensures e == Entry(node.data.edge + [i == 1] + f.key, [i] + f.at, f.leaf)
  {
    var edge := node.data.edge;
    var left := Entries(node.refs[0], width - |edge| - 1).value;
    var right := Entries(node.refs[1], width - |edge| - 1).value;
    if e in Lifted(edge + [false], 0, left) {
      i := 0;
      f := LiftedFrom(edge + [false], 0, left, e);
    } else {
      i := 1;
      f := LiftedFrom(edge + [true], 1, right, e);
    }
  }

  /** The same, without the key. */
  lemma PlaceOfEntry(node: Cell, width: nat, e: Entry) returns (i: nat, f: Entry)
    requires IsFork(node) && Entries(node, width).Ok? && e in Entries(node, width).value
    ensures i < 2 && |node.data.edge| < width
    ensures Entries(node.refs[i], width - |node.data.edge| - 1).Ok?
    ensures f in Entries(node.refs[i], width - |node.data.edge| - 1).value
    ensures e.at == [i] + f.at && e.leaf == f.leaf
  {
    i, f := EntryBranch(node, width, e);
  }

  /** A lookup in a fork is one in the branch that the next bit of the key tells. */
  lemma GetInFork(node: Cell, key: Bits)
    requires IsFork(node) && |node.data.edge| < |key| && node.data.edge <= key
    ensures var i := if key[|node.data.edge|] then 1 else 0;
            Get(node, key) == Deeper(i, Get(node.refs[i], key[|node.data.edge| + 1..]))
  {
  }

  lemma KeyJoins(edge: Bits, key: Bits)
    requires |edge| < |key| && edge <= key
    ensures key == edge + [key[|edge|]] + key[|edge| + 1..]
  {
  }

  /** An entry of a branch is one of the fork. */
  lemma EntryInFork(node: Cell, width: nat, i: nat, f: Entry)
    requires IsFork(node) && Entries(node, width).Ok? && i < 2
    requires f in Entries(node.refs[i], width - |node.data.edge| - 1).value
    ensures Entry(node.data.edge + [i == 1] + f.key, [i] + f.at, f.leaf) in Entries(node, width).value
  {
    LiftedHas(node.data.edge + [i == 1], i, Entries(node.refs[i], width - |node.data.edge| - 1).value, f);
  }

  /** The branch of a readable fork in which a lookup goes on, and the rest of its key. */
  lemma GetBranch(node: Cell, width: nat, key: Bits) returns (i: nat, rest: Bits)
    requires IsFork(node) && Entries(node, width).Ok? && |key| == width && node.data.edge <= key
    ensures i < 2 && |node.data.edge| < width && |rest| == width - |node.data.edge| - 1
    ensures Entries(node.refs[i], |rest|).Ok?
    ensures key == node.data.edge + [i == 1] + rest && Get(node, key) == Deeper(i, Get(node.refs[i], rest))
  {
    i := if key[|node.data.edge|] then 1 else 0;
    rest := key[|node.data.edge| + 1..];
    KeyJoins(node.data.edge, key);
    GetInFork(node, key);
  }

  /** Whatever a lookup finds is listed by the iteration, at the same leaf. */
  lemma {:induction false} FoundIsEntry(node: Cell, width: nat, key: Bits)
    requires Entries(node, width).Ok? && |key| == width
    ensures !Get(node, key).Unreadable?
    ensures var r := Get(node, key);
            r.Found? ==> Entry(key, r.at, r.leaf) in Entries(node, width).value
  {
    if IsFork(node) {
      if node.data.edge <= key {
        var i, rest := GetBranch(node, width, key);
        FoundIsEntry(node.refs[i], |rest|, rest);
        var sub := Get(node.refs[i], rest);
        if sub.Found? {
          EntryInFork(node, width, i, Entry(rest, sub.at, sub.leaf));
        }
      }
    }
  }

  lemma GetByParts(node: Cell, i: nat, rest: Bits)
    requires IsFork(node) && i < 2
    ensures Get(node, node.data.edge + [i == 1] + rest) == Deeper(i, Get(node.refs[i], rest))
  {
    KeySplits(node.data.edge, i == 1, rest);
  }

  /** Whatever the iteration lists is found by its key, at the same leaf. */
  lemma {:induction false} EntryIsFound(node: Cell, width: nat, e: Entry)
    requires Entries(node, width).Ok? && e in Entries(node, width).value
    ensures |e.key| == width && IsLeaf(e.leaf)
    ensures Get(node, e.key) == Found(e.at, e.leaf)
  {
    if IsFork(node) {
      var i, f := EntryBranch(node, width, e);
      EntryIsFound(node.refs[i], width - |node.data.edge| - 1, f);
      GetByParts(node, i, f.key);
    }
  }

  lemma KeySplits(edge: Bits, bit: bool, rest: Bits)
    ensures var key := edge + [bit] + rest;
            |edge| < |key| && edge <= key && key[|edge|] == bit && key[|edge| + 1..] == rest
  {
  }

  /** In the order of keys: at the first bit in which they differ the first has a zero. */
  ghost predicate Precedes(a: Bits, b: Bits) {
    exists n :: 0 <= n < |a| && n < |b| && DifferAt(a, b, n)
  }

  predicate DifferAt(a: Bits, b: Bits, n: nat)
    requires n < |a| && n < |b|
  {
    a[..n] == b[..n] && !a[n] && b[n]
  }

  lemma PrecedesUnder(bits: Bits, a: Bits, b: Bits)
    requires Precedes(a, b)
    ensures Precedes(bits + a, bits + b)
  {
    var n :| 0 <= n < |a| && n < |b| && DifferAt(a, b, n);
    assert (bits + a)[..|bits| + n] == bits + a[..n] && (bits + b)[..|bits| + n] == bits + b[..n];
    assert DifferAt(bits + a, bits + b, |bits| + n);
  }

  lemma PrecedesAtFork(edge: Bits, a: Bits, b: Bits)
    ensures Precedes(edge + [false] + a, edge + [true] + b)
  {
    var x, y := edge + [false] + a, edge + [true] + b;
    assert x[..|edge|] == edge && y[..|edge|] == edge;
    assert DifferAt(x, y, |edge|);
  }

  ghost predicate InOrder(entries: seq<Entry>) {
    forall p, q | 0 <= p < q < |entries| :: Precedes(entries[p].key, entries[q].key)
  }

  lemma LiftedInOrder(bits: Bits, i: nat, entries: seq<Entry>)
    requires InOrder(entries)
    ensures InOrder(Lifted(bits, i, entries))
  {
    var r := Lifted(bits, i, entries);
    forall p, q | 0 <= p < q < |r| ensures Precedes(r[p].key, r[q].key) {
      PrecedesUnder(bits, entries[p].key, entries[q].key);
    }
  }

  lemma JoinedInOrder(edge: Bits, left: seq<Entry>, right: seq<Entry>)
    requires InOrder(left) && InOrder(right)
    ensures InOrder(Joined(edge, left, right))
  {
    var a, b := Lifted(edge + [false], 0, left), Lifted(edge + [true], 1, right);
    LiftedInOrder(edge + [false], 0, left);
    LiftedInOrder(edge + [true], 1, right);
    var all := a + b;
    forall p, q | 0 <= p < q < |all| ensures Precedes(all[p].key, all[q].key) {
      if p < |a| <= q {
        PrecedesAtFork(edge, left[p].key, right[q - |a|].key);
      }
    }
  }

  /** An iteration lists the entries in the order of their keys. */
  lemma {:induction false} EntriesInOrder(node: Cell, width: nat)
    requires Entries(node, width).Ok?
    ensures InOrder(Entries(node, width).value)
  {
    if IsFork(node) {
      var rest := width - |node.data.edge| - 1;
      var left, right := Entries(node.refs[0], rest).value, Entries(node.refs[1], rest).value;
      ForkEntries(node, width, left, right);
      EntriesInOrder(node.refs[0], rest);
      EntriesInOrder(node.refs[1], rest);
      JoinedInOrder(node.data.edge, left, right);
    }
  }

  /** `only`, as the marks below one branch of a fork. */
  function OneBranch(i: nat, only: Marks): Marks {
    Visited(if i == 0 then [only] else [Skipped, only])
  }

  /** The nodes one lookup reads. */
  function GetNodes(node: Cell, key: Bits): Marks {
    if IsFork(node) && |node.data.edge| < |key| && node.data.edge <= key then
      var i := if key[|node.data.edge|] then 1 else 0;
      OneBranch(i, GetNodes(node.refs[i], key[|node.data.edge| + 1..]))
    else Visited([])
  }

  lemma {:induction false} NodesCoverGet(node: Cell, key: Bits)
    ensures Covers(Nodes(node), GetNodes(node, key))
  {
    if IsFork(node) && |node.data.edge| < |key| && node.data.edge <= key {
      var i := if key[|node.data.edge|] then 1 else 0;
      NodesCoverGet(node.refs[i], key[|node.data.edge| + 1..]);
      assert Nodes(node).below[i] == Nodes(node.refs[i]);
    }
  }

  /** A lookup in a pruned trie whose nodes on the way were kept ends at the same leaf, pruned. */
  lemma {:induction false} GetAfterPrune(node: Cell, kept: Marks, key: Bits)
    requires Covers(kept, GetNodes(node, key))
    ensures var before, after := Get(node, key), Get(Prune(node, kept), key);
            if before.Found?
            then
              && UnderPath(kept, before.at).Visited?
              && after == Found(before.at, Prune(before.leaf, UnderPath(kept, before.at)))
            else after == before
  {
    if IsFork(node) && |node.data.edge| < |key| && node.data.edge <= key {
      var i := if key[|node.data.edge|] then 1 else 0;
      var rest := key[|node.data.edge| + 1..];
      assert GetNodes(node, key).below[i] == GetNodes(node.refs[i], rest);
      GetAfterPrune(node.refs[i], Under(kept, i), rest);
      ForkAfterPrune(node, kept);
      var sub, under := Get(node.refs[i], rest), Get(Prune(node.refs[i], Under(kept, i)), rest);
      assert Get(node, key) == Deeper(i, sub) && Get(Prune(node, kept), key) == Deeper(i, under);
      if sub.Found? {
        PathSteps(kept, i, sub.at);
      }
    }
  }

  lemma PathSteps(m: Marks, i: nat, at: Path)
    ensures UnderPath(m, [i] + at) == UnderPath(Under(m, i), at)
  {
    assert ([i] + at)[1..] == at;
  }

  lemma ForkAfterPrune(node: Cell, kept: Marks)
    requires IsFork(node) && kept.Visited?
    ensures var pruned := Prune(node, kept);
            && IsFork(pruned) && pruned.data == node.data
            && pruned.refs[0] == Prune(node.refs[0], Under(kept, 0))
            && pruned.refs[1] == Prune(node.refs[1], Under(kept, 1))
  {
  }

  function PrunedEntries(entries: seq<Entry>, kept: Marks): (r: seq<Entry>)
    ensures |r| == |entries|
  {
    seq(|entries|, k requires 0 <= k < |entries| =>
      entries[k].(leaf := Prune(entries[k].leaf, UnderPath(kept, entries[k].at))))
  }

  /** An iteration over a pruned trie whose nodes were all kept lists the same entries. */
  lemma {:induction false} EntriesAfterPrune(node: Cell, kept: Marks, width: nat)
    requires Covers(kept, Nodes(node)) && Entries(node, width).Ok?
    ensures Entries(Prune(node, kept), width) == Ok(PrunedEntries(Entries(node, width).value, kept))
  {
    if IsFork(node) {
      var edge, rest := node.data.edge, width - |node.data.edge| - 1;
      assert Nodes(node).below == [Nodes(node.refs[0]), Nodes(node.refs[1])];
      EntriesAfterPrune(node.refs[0], Under(kept, 0), rest);
      EntriesAfterPrune(node.refs[1], Under(kept, 1), rest);
      var left, right := Entries(node.refs[0], rest).value, Entries(node.refs[1], rest).value;
      ForkAfterPrune(node, kept);
      ForkEntries(node, width, left, right);
      ForkEntries(Prune(node, kept), width, PrunedEntries(left, Under(kept, 0)), PrunedEntries(right, Under(kept, 1)));
      JoinedPruned(edge, left, right, kept);
    } else {
      LeafAfterPrune(node, kept, width);
    }
  }

  lemma ForkEntries(node: Cell, width: nat, left: seq<Entry>, right: seq<Entry>)
    requires IsFork(node) && |node.data.edge| < width
    requires Entries(node.refs[0], width - |node.data.edge| - 1) == Ok(left)
    requires Entries(node.refs[1], width - |node.data.edge| - 1) == Ok(right)
    ensures Entries(node, width) == Ok(Joined(node.data.edge, left, right))
  {
  }

  lemma LeafAfterPrune(node: Cell, kept: Marks, width: nat)
    requires IsLeaf(node) && kept.Visited? && Entries(node, width).Ok?
    ensures Entries(Prune(node, kept), width) == Ok(PrunedEntries(Entries(node, width).value, kept))
  {
    assert PrunedEntries(Entries(node, width).value, kept) == Entries(Prune(node, kept), width).value;
  }

  lemma JoinedPruned(edge: Bits, left: seq<Entry>, right: seq<Entry>, kept: Marks)
    ensures Joined(edge, PrunedEntries(left, Under(kept, 0)), PrunedEntries(right, Under(kept, 1)))
            == PrunedEntries(Joined(edge, left, right), kept)
  {
    LiftedPruned(edge + [false], 0, left, kept);
    LiftedPruned(edge + [true], 1, right, kept);
    PrunedAppend(Lifted(edge + [false], 0, left), Lifted(edge + [true], 1, right), kept);
  }

  lemma LiftedPruned(bits: Bits, i: nat, entries: seq<Entry>, kept: Marks)
    ensures Lifted(bits, i, PrunedEntries(entries, Under(kept, i))) == PrunedEntries(Lifted(bits, i, entries), kept)
  {
    forall k | 0 <= k < |entries|
      ensures Lifted(bits, i, PrunedEntries(entries, Under(kept, i)))[k]
              == PrunedEntries(Lifted(bits, i, entries), kept)[k]
    {
      assert ([i] + entries[k].at)[1..] == entries[k].at;
    }
  }

  lemma PrunedAppend(a: seq<Entry>, b: seq<Entry>, kept: Marks)
    ensures PrunedEntries(a + b, kept) == PrunedEntries(a, kept) + PrunedEntries(b, kept)
  {
  }
}
