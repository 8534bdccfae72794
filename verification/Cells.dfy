/**
 Cells, their representation hash, and Merkle pruning.

 A cell holds some data and up to four references. The parsers of the cell library are not
 modelled bit by bit: the data of a cell is one of the shapes the proof code reads, or `Raw`.
 The representation hash is symbolic (a collision-free structural digest).
 */
module Cells {
  type Bits = seq<bool>

  type Uint32 = n: nat | n < 0x1_0000_0000

  type Uint64 = n: nat | n < 0x1_0000_0000_0000_0000

  /** Positions of references from some root down to a descendant. */
  type Path = seq<nat>

  datatype Error =
    | CellUnderflow | CellOverflow | InvalidTag | InvalidData | PrunedBranchAccess
    | InvalidSignature | IntOverflow | EmptyProof

  /** What a dictionary leaf stores next to its references. */
  datatype LeafValue =
    /** `acc_trans#5`: the account, and the root node of its transactions dictionary inline. */
    | AccountBlock(account: nat, transactions: Data)
    /** A transaction: its own cell is the first reference. */
    | TransactionRef
    /** All shards of one workchain: the root of the shard tree is the first reference. */
    | WorkchainShards

  datatype Data =
    | Raw(bits: Bits)
    | BlockRoot
    | BlockInfo(isKeyBlock: bool, withMasterRef: bool, seqno: Uint32, endLt: Uint64)
    /** What the info of a block tells of the block before it. */
    | BlockRef(seqno: Uint32, rootHash: Digest)
    | BlockExtra(hasCustom: bool)
    | McExtra(hasShards: bool)
    | DictRoot(nonEmpty: bool)
    | DictFork(edge: Bits)
    | DictLeaf(edge: Bits, value: LeafValue)
    | ShardFork
    /** What a masterchain block tells of the top block of a shard. */
    | ShardLeaf(tag: nat, topSeqno: Uint32, rootHash: Digest)
    | SignatureDict(entries: seq<(nat, nat)>)
    | ProofRoot(fileHash: nat, vsetUtimeSince: nat)
    | ProofLink

  datatype Cell =
    | Ordinary(data: Data, refs: seq<Cell>)
    | Pruned(hash: Digest)

  datatype Digest = Digest(data: Data, children: seq<Digest>)

  /** The representation hash: a pruned branch stands for the cell it replaces. */
  function Hash(c: Cell): Digest {
    match c
    case Ordinary(data, refs) => Digest(data, seq(|refs|, i requires 0 <= i < |refs| => Hash(refs[i])))
    case Pruned(hash) => hash
  }

  /** What a usage tree remembers: the cells whose data was read, as a tree from some root. */
  datatype Marks = Skipped | Visited(below: seq<Marks>)

  function Under(m: Marks, i: nat): Marks {
    if m.Visited? && i < |m.below| then m.below[i] else Skipped
  }

  function UnderPath(m: Marks, at: Path): Marks
    decreases |at|
  {
    if at == [] then m else UnderPath(Under(m, at[0]), at[1..])
  }

  /** Everything marked in `used` is marked in `kept`. */
  predicate Covers(kept: Marks, used: Marks)
    decreases used
  {
    used.Visited? ==>
      && kept.Visited?
      && forall i | 0 <= i < |used.below| :: Covers(Under(kept, i), used.below[i])
  }

  /** The marks of `m`, with one more visit of `used` at `at`. */
  function Mark(m: Marks, at: Path, used: Marks): Marks
    decreases |at|, used
  {
    if at != [] then
      var below := if m.Visited? then m.below else [];
      var size := if |below| > at[0] then |below| else at[0] + 1;
      Visited(seq(size, i requires 0 <= i < size =>
        if i == at[0] then Mark(Under(m, i), at[1..], used) else Under(m, i)))
    else if used.Skipped? then m
    else
      var below := if m.Visited? then m.below else [];
      var size := if |below| > |used.below| then |below| else |used.below|;
      Visited(seq(size, i requires 0 <= i < size =>
        if i < |used.below| then Mark(Under(m, i), [], used.below[i]) else Under(m, i)))
  }

  lemma {:induction false} CoversItself(m: Marks)
    ensures Covers(m, m)
  {
    if m.Visited? {
      forall i | 0 <= i < |m.below| ensures Covers(Under(m, i), m.below[i]) {
        CoversItself(m.below[i]);
      }
    }
  }

  lemma {:induction false} CoversTransitive(a: Marks, b: Marks, c: Marks)
    requires Covers(a, b) && Covers(b, c)
    ensures Covers(a, c)
    decreases c
  {
    if c.Visited? {
      forall i | 0 <= i < |c.below| ensures Covers(Under(a, i), c.below[i]) {
        assert Covers(Under(b, i), c.below[i]);
        CoversTransitive(Under(a, i), Under(b, i), c.below[i]);
      }
    }
  }

  /** Marking adds what was visited and loses nothing. */
  lemma {:induction false} MarkCovers(m: Marks, at: Path, used: Marks)
    ensures Covers(Mark(m, at, used), m)
    ensures Covers(UnderPath(Mark(m, at, used), at), used)
    decreases |at|, used
  {
    var r := Mark(m, at, used);
    if at != [] {
      MarkCovers(Under(m, at[0]), at[1..], used);
    } else if used.Visited? {
      forall i | 0 <= i < |used.below| ensures Covers(r.below[i], used.below[i]) && Covers(r.below[i], Under(m, i)) {
        MarkCovers(Under(m, i), [], used.below[i]);
      }
    }
    if m.Visited? {
      forall i | 0 <= i < |m.below| ensures Covers(Under(r, i), m.below[i]) {
        CoversItself(m.below[i]);
      }
    }
  }

  /** The cell with every branch that is not kept replaced by a pruned branch. */
  function Prune(c: Cell, kept: Marks): Cell {
    if c.Pruned? then c
    else if kept.Skipped? then Pruned(Hash(c))
    else Ordinary(c.data, seq(|c.refs|, i requires 0 <= i < |c.refs| => Prune(c.refs[i], Under(kept, i))))
  }

  /** Merkle pruning never changes the hash of the root, whatever is kept. */
  lemma {:induction false} PruneKeepsHash(c: Cell, kept: Marks)
    ensures Hash(Prune(c, kept)) == Hash(c)
  {
    if c.Ordinary? && kept.Visited? {
      forall i | 0 <= i < |c.refs|
        ensures Hash(Prune(c.refs[i], Under(kept, i))) == Hash(c.refs[i])
      {
        PruneKeepsHash(c.refs[i], Under(kept, i));
      }
      assert Hash(Prune(c, kept)).children == Hash(c).children;
    }
  }

  // --- What a hash gives away

  /** Nothing in it is pruned. */
  predicate IsFull(c: Cell) {
    c.Ordinary? && forall i | 0 <= i < |c.refs| :: IsFull(c.refs[i])
  }

  /** `c` opens the hash of `full`: it is that cell with some branches pruned. */
  predicate Opens(c: Cell, full: Cell) {
    IsFull(full) && Hash(c) == Hash(full)
  }

  /** What an opening shows is what the full cell has. */
  lemma OpeningShows(c: Cell, full: Cell)
    requires Opens(c, full) && c.Ordinary?
    ensures c.data == full.data && |c.refs| == |full.refs|
    ensures forall i | 0 <= i < |c.refs| :: Opens(c.refs[i], full.refs[i])
  {
    var a, b := Hash(c).children, Hash(full).children;
    assert |a| == |c.refs| && |b| == |full.refs|;
    forall i | 0 <= i < |c.refs| ensures Opens(c.refs[i], full.refs[i]) {
      assert a[i] == Hash(c.refs[i]) && b[i] == Hash(full.refs[i]);
    }
  }

  /** What `touch_recursive` visits. */
  function AllMarks(c: Cell): Marks {
    match c
    case Ordinary(_, refs) => Visited(seq(|refs|, i requires 0 <= i < |refs| => AllMarks(refs[i])))
    case Pruned(_) => Visited([])
  }

  /** A branch that is kept with everything below it is unchanged. */
  lemma {:induction false} PruneAll(c: Cell, kept: Marks)
    requires Covers(kept, AllMarks(c))
    ensures Prune(c, kept) == c
  {
    if c.Ordinary? {
      forall i | 0 <= i < |c.refs| ensures Prune(c.refs[i], Under(kept, i)) == c.refs[i] {
        assert AllMarks(c).below[i] == AllMarks(c.refs[i]);
        PruneAll(c.refs[i], Under(kept, i));
      }
    }
  }
}
