/**
 The proof chain: a masterchain proof, signatures, and shard block proofs packed three to a cell
 with the fourth reference as the rest.

 The iterator is followed literally. `by_ref().take(k).rev()` advances the borrowed iterator from
 its far end, past everything that `take` leaves out, so the blocks meant for the full cells are
 consumed with it and the unwrapping loop after it finds the iterator empty.
 */
module ProofChain {
  import opened Results
  import opened Cells

  const MAX_REFS: nat := 4

  datatype Outcome =
    | Built(hash: Digest, cell: Cell)
    | Panicked

  datatype Chain = Chain(mcFileHash: nat, vsetUtimeSince: nat, mcBlock: Cell, signatures: Cell, shardBlocks: seq<Cell>)

  /** `store_reference`: a cell has room for four references. */
  function StoreReference(refs: seq<Cell>, c: Cell): seq<Cell>
    requires |refs| < MAX_REFS
  {
    refs + [c]
  }

  // --- Reading a chain back

  /** The shard blocks of a link and of its rest. */
  function Links(link: Cell): seq<Cell> {
    if link.Pruned? then []
    else if |link.refs| < 4 then link.refs
    else link.refs[..3] + Links(link.refs[3])
  }

  function LinkDepth(link: Cell): nat {
    if link.Ordinary? && |link.refs| >= 4 then 1 + LinkDepth(link.refs[3]) else 1
  }

  predicate WellPackedLink(link: Cell) {
    link.Ordinary? && 1 <= |link.refs| <= MAX_REFS && (|link.refs| == 4 ==> WellPackedLink(link.refs[3]))
  }

  predicate IsChain(cell: Cell) {
    cell.Ordinary? && cell.data.ProofRoot? && 2 <= |cell.refs| <= MAX_REFS
  }

  function Unpack(cell: Cell): Chain
    requires IsChain(cell)
  {
    Chain(cell.data.fileHash, cell.data.vsetUtimeSince, cell.refs[0], cell.refs[1],
          if |cell.refs| == 2 then []
          else [cell.refs[2]] + (if |cell.refs| == 4 then Links(cell.refs[3]) else []))
  }

  predicate WellPacked(cell: Cell) {
    IsChain(cell) && (|cell.refs| == 4 ==> WellPackedLink(cell.refs[3]))
  }

  /** How many link cells hang below the root. */
  function Depth(cell: Cell): nat {
    if cell.Ordinary? && |cell.refs| == 4 then LinkDepth(cell.refs[3]) else 0
  }

  /** The numbers of shard blocks for which packing completes. */
  predicate Completes(count: nat) {
    count <= 3 || count % 3 == 1
  }

  // --- Packing

  /** What `take(count).rev()` over the reversed iterator yields, and what is left of `blocks`.
      One step of it drops all but the last `count` blocks and takes the next one from the front. */
  method TakeReversed(blocks: seq<Cell>, count: nat) returns (taken: seq<Cell>, left: seq<Cell>)
    requires count <= |blocks|
    ensures taken == blocks[|blocks| - count..]
    ensures left == if count == 0 then blocks else []
  {
    taken, left := [], blocks;
    var n: nat := count;
    while n > 0
      invariant n <= count
      invariant left == if n == count then blocks else blocks[|blocks| - n..]
      invariant taken == blocks[|blocks| - count..|blocks| - n]
    {
      var skipped := if |left| >= n then |left| - n else 0;
      taken := taken + [left[skipped]];
      left := left[skipped + 1..];
      n := n - 1;
    }
  }

  /** `link` holds exactly `blocks`, in `depth` well-packed cells. */
  ghost predicate Packs(link: Option<Cell>, blocks: seq<Cell>, depth: nat) {
    match link
    case None => blocks == [] && depth == 0
    case Some(cell) => WellPackedLink(cell) && Links(cell) == blocks && LinkDepth(cell) == depth
  }

  /** One full cell: three blocks and the cells packed so far. */
  function FullLink(sc1: Cell, sc2: Cell, sc3: Cell, child: Option<Cell>): Cell {
    var b := [sc3, sc2, sc1];
    Ordinary(ProofLink, if child.Some? then StoreReference(b, child.value) else b)
  }

  lemma FullLinkPacks(sc1: Cell, sc2: Cell, sc3: Cell, child: Option<Cell>, blocks: seq<Cell>, depth: nat)
    requires Packs(child, blocks, depth)
    ensures Packs(Some(FullLink(sc1, sc2, sc3, child)), [sc3, sc2, sc1] + blocks, depth + 1)
  {
    var link := FullLink(sc1, sc2, sc3, child);
    if child.Some? {
      assert link.refs[..3] == [sc3, sc2, sc1];
    }
  }

  lemma MoveLastThree(iter: seq<Cell>, packed: seq<Cell>)
    requires |iter| >= 3
    ensures var n := |iter|; iter[..n - 3] + ([iter[n - 3], iter[n - 2], iter[n - 1]] + packed) == iter + packed
  {
  }

  /** The loop over full cells: takes three blocks from the end per round, and panics (the outer
      `None`) when the iterator runs dry. */
  method PackTriples(blocks: seq<Cell>, rounds: nat, rest: Option<Cell>, ghost tail: seq<Cell>, ghost depth: nat)
    returns (r: Option<Option<Cell>>)
    requires |blocks| == 3 * rounds || blocks == []
    requires Packs(rest, tail, depth)
    ensures r.None? <==> |blocks| < 3 * rounds
    ensures r.Some? ==> Packs(r.value, blocks + tail, rounds + depth)
  {
    var iter, child := blocks, rest;
    ghost var packed := tail;
    for round := 0 to rounds
      invariant round > 0 ==> |blocks| == 3 * rounds
      invariant |iter| == |blocks| - 3 * round
      invariant blocks + tail == iter + packed
      invariant Packs(child, packed, round + depth)
    {
      if iter == [] {
        return None;
      }
      var sc1, sc2, sc3 := iter[|iter| - 1], iter[|iter| - 2], iter[|iter| - 3];
      FullLinkPacks(sc1, sc2, sc3, child, packed, round + depth);
      MoveLastThree(iter, packed);
      packed := [sc3, sc2, sc1] + packed;
      iter := iter[..|iter| - 3];
      child := Some(FullLink(sc1, sc2, sc3, child));
    }
    return Some(child);
  }

  /** Everything after the first shard block. */
  method PackRest(blocks: seq<Cell>) returns (r: Option<Option<Cell>>)
    ensures r.None? <==> |blocks| >= 3 && |blocks| % 3 != 0
    ensures r.Some? ==> Packs(r.value, blocks, (|blocks| + 2) / 3)
  {
    var iter, remaining := blocks, |blocks|;
    var child: Option<Cell> := None;
    ghost var tail: seq<Cell>, depth := [], 0;
    if remaining % 3 != 0 {
      var b;
      b, iter := TakeReversed(iter, remaining % 3);
      child, tail, depth := Some(Ordinary(ProofLink, b)), b, 1;
    }
    r := PackTriples(iter, remaining / 3, child, tail, depth);
    assert r.Some? ==> iter + tail == blocks;
    assert remaining / 3 + depth == (remaining + 2) / 3;
  }

  lemma RootUnpacks(mcFileHash: nat, mcBlock: Cell, first: Cell, vsetUtimeSince: nat, signatures: Cell,
                    link: Option<Cell>, blocks: seq<Cell>, depth: nat)
    requires Packs(link, blocks, depth)
    ensures var refs := [mcBlock, signatures, first] + (if link.Some? then [link.value] else []);
            var cell := Ordinary(ProofRoot(mcFileHash, vsetUtimeSince), refs);
            && WellPacked(cell) && Depth(cell) == depth
            && Unpack(cell) == Chain(mcFileHash, vsetUtimeSince, mcBlock, signatures, [first] + blocks)
  {
  }

  /** `make_proof_chain`. It completes exactly for some numbers of shard blocks and panics for the
      others; when it completes, reading the chain back gives its parts, the shard blocks in order,
      in cells of at most four references and as few cells as can hold them. */
  method MakeProofChain(mcFileHash: nat, mcBlock: Cell, shardBlocks: seq<Cell>, vsetUtimeSince: nat, signatures: Cell)
    returns (r: Outcome)
    ensures r.Built? <==> Completes(|shardBlocks|)
    ensures r.Built? ==>
              && r.hash == Hash(r.cell) && WellPacked(r.cell)
              && Unpack(r.cell) == Chain(mcFileHash, vsetUtimeSince, mcBlock, signatures, shardBlocks)
              && Depth(r.cell) == if |shardBlocks| == 0 then 0 else (|shardBlocks| - 1 + 2) / 3
  {
    var refs := StoreReference(StoreReference([], mcBlock), signatures);
    if shardBlocks == [] {
      var bare := Ordinary(ProofRoot(mcFileHash, vsetUtimeSince), refs);
      return Built(Hash(bare), bare);
    }
    refs := StoreReference(refs, shardBlocks[0]);
    var blocks := shardBlocks[1..];
    var packed := PackRest(blocks);
    if packed.None? {
      return Panicked;
    }
    if packed.value.Some? {
      refs := StoreReference(refs, packed.value.value);
    }
    assert shardBlocks == [shardBlocks[0]] + blocks;
    RootUnpacks(mcFileHash, mcBlock, shardBlocks[0], vsetUtimeSince, signatures, packed.value, blocks,
                (|blocks| + 2) / 3);
    var cell := Ordinary(ProofRoot(mcFileHash, vsetUtimeSince), refs);
    return Built(Hash(cell), cell);
  }

  /** A length for which packing fails: five shard blocks, whatever they are. */
  method PackFive(mcFileHash: nat, mcBlock: Cell, shardBlocks: seq<Cell>, vsetUtimeSince: nat, signatures: Cell)
    returns (r: Outcome)
    requires |shardBlocks| == 5
    ensures r.Panicked?
  {
    r := MakeProofChain(mcFileHash, mcBlock, shardBlocks, vsetUtimeSince, signatures);
  }
}
