/**
 Block signatures: the two-thirds check, the index dictionary stored next to a block, and the
 epoch data the bridge compares weights with. Signature verification is a parameter; the short id
 of a node is a collision-free function of its public key.
 */
module Signatures {
  import opened Results
  import opened Cells
  import opened Bytes

  datatype NodeId = NodeIdOf(publicKey: nat)

  datatype BlockSignature = BlockSignature(nodeIdShort: NodeId, signature: nat)

  datatype Validator = Validator(publicKey: nat, weight: Uint64)

  datatype ValidatorSetData = ValidatorSetData(utimeSince: nat, utimeUntil: nat, main: nat, totalWeight: Uint64,
                                               list: seq<Validator>)

  /** The list and the main part of a validator set are counted by 16-bit integers, and the main
      part is not empty. */
  type ValidatorSet = v: ValidatorSetData | 0 < v.main < 0x1_0000 && |v.list| < 0x1_0000
    witness ValidatorSetData(0, 0, 1, 0, [])

  type SignatureMap = map<NodeId, nat>

  /** A signature check of some block's data: public key and signature. */
  type SignatureVerifier = (nat, nat) -> bool

  datatype EpochData = EpochData(utimeSince: nat, utimeUntil: nat, main: nat, cutoffWeight: nat,
                                 validators: seq<(nat, Validator)>)

  function IdOf(v: Validator): NodeId {
    NodeIdOf(v.publicKey)
  }

  // --- Who signed

  /** Validator `i` accounts for one of the collected signatures: its id is among them, and no
      earlier validator has taken it. */
  predicate Signs(list: seq<Validator>, ids: set<NodeId>, i: nat)
    requires i < |list|
  {
    IdOf(list[i]) in ids && forall j | 0 <= j < i :: list[j].publicKey != list[i].publicKey
  }

  /** The weight of the signers among the first `n` validators. */
  function SignedWeight(list: seq<Validator>, ids: set<NodeId>, n: nat): nat
    requires n <= |list|
  {
    if n == 0 then 0
    else SignedWeight(list, ids, n - 1) + (if Signs(list, ids, n - 1) then list[n - 1].weight else 0)
  }

  function TotalWeight(list: seq<Validator>, n: nat): nat
    requires n <= |list|
  {
    if n == 0 then 0 else TotalWeight(list, n - 1) + list[n - 1].weight
  }

  /** The signers among the first `n` validators with their signatures, by index. */
  function SignedEntries(list: seq<Validator>, signatures: SignatureMap, n: nat): seq<(nat, nat)>
    requires n <= |list|
  {
    if n == 0 then []
    else SignedEntries(list, signatures, n - 1) +
         (if Signs(list, signatures.Keys, n - 1) then [(n - 1, signatures[IdOf(list[n - 1])])] else [])
  }

  predicate AllKnown(list: seq<Validator>, ids: set<NodeId>) {
    forall id | id in ids :: exists i :: 0 <= i < |list| && IdOf(list[i]) == id
  }

  /** What `collect` makes of the signatures: the first failure, or a map in which a later
      signature of a node replaces an earlier one. */
  function Collected(signatures: seq<Result<BlockSignature, Error>>): Result<SignatureMap, Error> {
    if signatures == [] then Ok(map[])
    else
      var init :- Collected(signatures[..|signatures| - 1]);
      var last :- signatures[|signatures| - 1];
      Ok(init[last.nodeIdShort := last.signature])
  }

  /** Every signature can be read. */
  predicate AllRead(signatures: seq<Result<BlockSignature, Error>>) {
    forall k | 0 <= k < |signatures| :: signatures[k].Ok?
  }

  /** The nodes that a sequence of signatures names. */
  ghost function SignerIds(signatures: seq<Result<BlockSignature, Error>>): set<NodeId> {
    set k | 0 <= k < |signatures| && signatures[k].Ok? :: signatures[k].value.nodeIdShort
  }

  /** `s` is the last signature of the node in the sequence. */
  ghost predicate IsLastOf(signatures: seq<Result<BlockSignature, Error>>, id: NodeId, s: nat) {
    exists k :: 0 <= k < |signatures| && IsLastAt(signatures, id, s, k)
  }

  predicate IsLastAt(signatures: seq<Result<BlockSignature, Error>>, id: NodeId, s: nat, k: nat)
    requires k < |signatures|
  {
    && signatures[k] == Ok(BlockSignature(id, s))
    && forall j | k < j < |signatures| && signatures[j].Ok? :: signatures[j].value.nodeIdShort != id
  }

  predicate NoDuplicates(signatures: seq<Result<BlockSignature, Error>>) {
    forall i, j | 0 <= i < j < |signatures| && signatures[i].Ok? && signatures[j].Ok? ::
      signatures[i].value.nodeIdShort != signatures[j].value.nodeIdShort
  }

  /** Every signer's signature verifies. */
  predicate AllVerify(list: seq<Validator>, signatures: SignatureMap, verify: SignatureVerifier, n: nat)
    requires n <= |list|
  {
    forall i | 0 <= i < n && Signs(list, signatures.Keys, i) :: verify(list[i].publicKey, signatures[IdOf(list[i])])
  }

  /** More than two thirds, with no 64-bit overflow on the way. */
  predicate IsQuorum(weight: nat, total: nat) {
    3 * weight < U64_SPAN && 2 * total < U64_SPAN && 3 * weight > 2 * total
  }

  /** What a block needs to be accepted. */
  predicate Accepted(signatures: seq<Result<BlockSignature, Error>>, vset: ValidatorSet, verify: SignatureVerifier) {
    && Collected(signatures).Ok?
    && var collected := Collected(signatures).value;
       && AllVerify(vset.list, collected, verify, |vset.list|)
       && AllKnown(vset.list, collected.Keys)
       && IsQuorum(SignedWeight(vset.list, collected.Keys, |vset.list|), vset.totalWeight)
  }

  lemma {:induction false} SignedWeightGrows(list: seq<Validator>, ids: set<NodeId>, m: nat, n: nat)
    requires m <= n <= |list|
    ensures SignedWeight(list, ids, m) <= SignedWeight(list, ids, n)
  {
    if m < n {
      SignedWeightGrows(list, ids, m, n - 1);
    }
  }

  lemma {:induction false} FailedCollect(signatures: seq<Result<BlockSignature, Error>>, k: nat)
    requires k <= |signatures| && Collected(signatures[..k]).Err?
    ensures Collected(signatures).Err?
    decreases |signatures| - k
  {
    if k == |signatures| {
      assert signatures[..k] == signatures;
    } else {
      assert signatures[..k + 1][..k] == signatures[..k];
      FailedCollect(signatures, k + 1);
    }
  }

  method CollectSignatures(signatures: seq<Result<BlockSignature, Error>>) returns (r: Result<SignatureMap, Error>)
    ensures r.Ok? <==> Collected(signatures).Ok?
    ensures r.Ok? ==> r == Collected(signatures)
  {
    var collected: SignatureMap := map[];
    for k := 0 to |signatures|
      invariant Collected(signatures[..k]) == Ok(collected)
    {
      assert signatures[..k + 1][..k] == signatures[..k];
      if signatures[k].Err? {
        FailedCollect(signatures, k + 1);
        return Err(signatures[k].error);
      }
      var item := signatures[k].value;
      collected := collected[item.nodeIdShort := item.signature];
    }
    assert signatures[..|signatures|] == signatures;
    return Ok(collected);
  }

  /** The signatures no validator among the first `n` has taken. */
  function Untaken(list: seq<Validator>, signatures: SignatureMap, n: nat): SignatureMap
    requires n <= |list|
  {
    map id | id in signatures && (forall j | 0 <= j < n :: IdOf(list[j]) != id) :: signatures[id]
  }

  lemma UntakenStep(list: seq<Validator>, signatures: SignatureMap, n: nat)
    requires n < |list|
    ensures IdOf(list[n]) in Untaken(list, signatures, n) <==> Signs(list, signatures.Keys, n)
    ensures Untaken(list, signatures, n + 1) == Untaken(list, signatures, n) - {IdOf(list[n])}
  {
  }

  lemma AllTaken(list: seq<Validator>, signatures: SignatureMap)
    ensures Untaken(list, signatures, |list|) == map[] <==> AllKnown(list, signatures.Keys)
  {
    var left := Untaken(list, signatures, |list|);
    if AllKnown(list, signatures.Keys) {
      assert left.Keys == {};
    } else {
      var id :| id in signatures.Keys && !exists i :: 0 <= i < |list| && IdOf(list[i]) == id;
      assert id in left;
    }
  }

  /** The loop over the validators: what no validator has taken, and the weight of those who have. */
  method WeighSigners(list: seq<Validator>, collected: SignatureMap, verify: SignatureVerifier)
    returns (r: Result<(SignatureMap, nat), Error>)
    ensures r.Ok? <==>
              AllVerify(list, collected, verify, |list|) && SignedWeight(list, collected.Keys, |list|) < U64_SPAN
    ensures r.Ok? ==>
              r.value == (Untaken(list, collected, |list|), SignedWeight(list, collected.Keys, |list|))
  {
    var left, weight := collected, 0;
    assert Untaken(list, collected, 0) == collected;
    for i := 0 to |list|
      invariant left == Untaken(list, collected, i)
      invariant weight == SignedWeight(list, collected.Keys, i) < U64_SPAN
      invariant AllVerify(list, collected, verify, i)
    {
      UntakenStep(list, collected, i);
      var node := list[i];
      if IdOf(node) in left {
        var signature := left[IdOf(node)];
        left := left - {IdOf(node)};
        if !verify(node.publicKey, signature) {
          return Err(InvalidSignature);
        }
        if weight + node.weight >= U64_SPAN {
          SignedWeightGrows(list, collected.Keys, i + 1, |list|);
          return Err(IntOverflow);
        }
        weight := weight + node.weight;
      }
    }
    return Ok((left, weight));
  }

  /** `check_signatures`: accepts exactly the blocks signed by more than two thirds. */
  method CheckSignatures(signatures: seq<Result<BlockSignature, Error>>, vset: ValidatorSet, verify: SignatureVerifier)
    returns (r: Result<(), Error>)
    ensures r.Ok? <==> Accepted(signatures, vset, verify)
    ensures r.Ok? ==> AllListed(vset.list, signatures) && LastVerify(vset.list, signatures, verify)
  {
    AcceptedExactly(signatures, vset, verify);
    var collected :- CollectSignatures(signatures);
    var weighed :- WeighSigners(vset.list, collected, verify);
    var left, weight := weighed.0, weighed.1;
    AllTaken(vset.list, collected);
    if left != map[] {
      return Err(InvalidData);
    }
    if 3 * weight >= U64_SPAN || 2 * vset.totalWeight >= U64_SPAN {
      return Err(IntOverflow);
    }
    if 3 * weight > 2 * vset.totalWeight {
      return Ok(());
    }
    return Err(InvalidData);
  }

  // --- Quorums

  lemma {:induction false} WeightsOverlap(list: seq<Validator>, a: set<NodeId>, b: set<NodeId>, n: nat)
    requires n <= |list|
    ensures SignedWeight(list, a, n) + SignedWeight(list, b, n) <= SignedWeight(list, a * b, n) + TotalWeight(list, n)
  {
    if n > 0 {
      WeightsOverlap(list, a, b, n - 1);
    }
  }

  /** Any two accepted blocks of one validator set share signers of more than a third of its weight. */
  lemma QuorumsIntersect(vset: ValidatorSet,
                         a: seq<Result<BlockSignature, Error>>, verifyA: SignatureVerifier,
                         b: seq<Result<BlockSignature, Error>>, verifyB: SignatureVerifier)
    requires vset.totalWeight == TotalWeight(vset.list, |vset.list|)
    requires Accepted(a, vset, verifyA) && Accepted(b, vset, verifyB)
    ensures 3 * SignedWeight(vset.list, SignerIds(a) * SignerIds(b), |vset.list|) > vset.totalWeight
    ensures exists i ::
              0 <= i < |vset.list| && Signs(vset.list, SignerIds(a), i) && Signs(vset.list, SignerIds(b), i)
  {
    CollectedKeys(a);
    CollectedKeys(b);
    var idsA, idsB := SignerIds(a), SignerIds(b);
    WeightsOverlap(vset.list, idsA, idsB, |vset.list|);
    var i := SomeSigner(vset.list, idsA * idsB, |vset.list|);
    assert Signs(vset.list, idsA, i) && Signs(vset.list, idsB, i);
  }

  lemma {:induction false} SomeSigner(list: seq<Validator>, ids: set<NodeId>, n: nat) returns (i: nat)
    requires n <= |list| && SignedWeight(list, ids, n) > 0
    ensures i < n && Signs(list, ids, i)
  {
    if Signs(list, ids, n - 1) {
      i := n - 1;
    } else {
      i := SomeSigner(list, ids, n - 1);
    }
  }

  // --- The stored dictionary and the epoch data

  predicate DistinctSigners(signatures: seq<Result<BlockSignature, Error>>) {
    Collected(signatures).Ok? && NoDuplicates(signatures)
  }

  /** Collecting succeeds exactly if every signature can be read, and keeps the last one of each node. */
  lemma {:induction false} CollectedIsLast(signatures: seq<Result<BlockSignature, Error>>, id: NodeId, s: nat)
    ensures Collected(signatures).Ok? <==> AllRead(signatures)
    ensures Collected(signatures).Ok? ==>
              (id in Collected(signatures).value && Collected(signatures).value[id] == s <==>
                 IsLastOf(signatures, id, s))
  {
    if signatures != [] {
      var n := |signatures| - 1;
      CollectedIsLast(signatures[..n], id, s);
      assert AllRead(signatures) <==> AllRead(signatures[..n]) && signatures[n].Ok?;
      if AllRead(signatures) {
        LastOfMore(signatures, id, s);
      }
    }
  }

  lemma LastOfMore(signatures: seq<Result<BlockSignature, Error>>, id: NodeId, s: nat)
    requires signatures != [] && AllRead(signatures)
    ensures var n := |signatures| - 1;
            IsLastOf(signatures, id, s) <==>
              signatures[n].value == BlockSignature(id, s)
              || (signatures[n].value.nodeIdShort != id && IsLastOf(signatures[..n], id, s))
  {
    var n := |signatures| - 1;
    var init := signatures[..n];
    if k :| 0 <= k < n && IsLastAt(init, id, s, k) && signatures[n].value.nodeIdShort != id {
      assert IsLastAt(signatures, id, s, k);
    }
    if k :| 0 <= k < |signatures| && IsLastAt(signatures, id, s, k) && k < n {
      assert IsLastAt(init, id, s, k);
    }
    if signatures[n].value == BlockSignature(id, s) {
      assert IsLastAt(signatures, id, s, n);
    }
  }

  lemma CollectedKeys(signatures: seq<Result<BlockSignature, Error>>)
    requires Collected(signatures).Ok?
    ensures AllRead(signatures) && Collected(signatures).value.Keys == SignerIds(signatures)
  {
    var collected, ids := Collected(signatures).value, SignerIds(signatures);
    CollectedIsLast(signatures, NodeIdOf(0), 0);
    forall id | id in collected ensures id in ids {
      CollectedIsLast(signatures, id, collected[id]);
    }
    forall id | id in ids ensures id in collected {
      var s := LastOfSigner(signatures, id);
      CollectedIsLast(signatures, id, s);
    }
  }

  lemma {:induction false} LastOfSigner(signatures: seq<Result<BlockSignature, Error>>, id: NodeId) returns (s: nat)
    requires AllRead(signatures) && id in SignerIds(signatures)
    ensures IsLastOf(signatures, id, s)
  {
    var n := |signatures| - 1;
    if signatures[n].value.nodeIdShort == id {
      s := signatures[n].value.signature;
    } else {
      var k :| 0 <= k < |signatures| && signatures[k].value.nodeIdShort == id;
      assert signatures[..n][k] == signatures[k];
      s := LastOfSigner(signatures[..n], id);
    }
    LastOfMore(signatures, id, s);
  }

  /** The loop over the signatures of `prepare_signatures`, which takes each node once. */
  method CollectDistinct(signatures: seq<Result<BlockSignature, Error>>) returns (r: Result<SignatureMap, Error>)
    ensures r.Ok? <==> DistinctSigners(signatures)
    ensures r.Ok? ==> r == Collected(signatures)
  {
    var collected: SignatureMap := map[];
    for k := 0 to |signatures|
      invariant Collected(signatures[..k]) == Ok(collected)
      invariant NoDuplicates(signatures[..k])
    {
      assert signatures[..k + 1][..k] == signatures[..k];
      if signatures[k].Err? {
        FailedCollect(signatures, k + 1);
        return Err(signatures[k].error);
      }
      var item := signatures[k].value;
      CollectedKeys(signatures[..k]);
      if item.nodeIdShort in collected {
        return Err(InvalidData);
      }
      collected := collected[item.nodeIdShort := item.signature];
    }
    assert signatures[..|signatures|] == signatures;
    return Ok(collected);
  }

  /** The loop over the validators. */
  method EnterSigners(list: seq<Validator>, collected: SignatureMap)
    returns (left: SignatureMap, result: seq<(nat, nat)>)
    requires |list| < 0x1_0000
    ensures left == Untaken(list, collected, |list|) && result == SignedEntries(list, collected, |list|)
  {
    left, result := collected, [];
    assert Untaken(list, collected, 0) == collected;
    for i := 0 to |list|
      invariant left == Untaken(list, collected, i)
      invariant result == SignedEntries(list, collected, i)
    {
      UntakenStep(list, collected, i);
      if IdOf(list[i]) in left {
        result := result + [(i % 0x1_0000, left[IdOf(list[i])])];
        left := left - {IdOf(list[i])};
      }
    }
  }

  /** `prepare_signatures`: the signers by index, in increasing order, each with its signature. */
  method PrepareSignatures(signatures: seq<Result<BlockSignature, Error>>, vset: ValidatorSet)
    returns (r: Result<Cell, Error>)
    ensures r.Ok? <==>
              signatures != [] && AllRead(signatures) && NoDuplicates(signatures) && AllListed(vset.list, signatures)
    ensures r.Ok? ==> IsDictOf(vset.list, signatures, r.value)
    ensures r.Ok? <==> Prepared(signatures, vset).Ok?
    ensures r.Ok? ==> r == Prepared(signatures, vset)
  {
    PreparedExactly(signatures, vset);
    var collected :- CollectDistinct(signatures);
    var left, result := EnterSigners(vset.list, collected);
    AllTaken(vset.list, collected);
    if left != map[] {
      return Err(InvalidData);
    }
    if result == [] {
      return Err(EmptyProof);
    }
    return Ok(Ordinary(SignatureDict(result), []));
  }

  /** What `prepare_signatures` stores, when it does. */
  function Prepared(signatures: seq<Result<BlockSignature, Error>>, vset: ValidatorSet): Result<Cell, Error> {
    if !DistinctSigners(signatures) then Err(InvalidData)
    else
      var collected := Collected(signatures).value;
      var entries := SignedEntries(vset.list, collected, |vset.list|);
      if !AllKnown(vset.list, collected.Keys) then Err(InvalidData)
      else if entries == [] then Err(EmptyProof)
      else Ok(Ordinary(SignatureDict(entries), []))
  }

  function EntriesWeight(list: seq<Validator>, entries: seq<(nat, nat)>): nat
    requires forall e | e in entries :: e.0 < |list|
  {
    if entries == [] then 0
    else EntriesWeight(list, entries[..|entries| - 1]) + list[entries[|entries| - 1].0].weight
  }

  /** The entry of a signer among the first `n` validators, with its signature. */
  ghost predicate IsSignerEntry(list: seq<Validator>, signatures: SignatureMap, n: nat, e: (nat, nat))
    requires n <= |list|
  {
    e.0 < n && Signs(list, signatures.Keys, e.0) && e.1 == signatures[IdOf(list[e.0])]
  }

  lemma {:induction false} EntryIsOfSigner(list: seq<Validator>, signatures: SignatureMap, n: nat, e: (nat, nat))
    requires n <= |list|
    ensures e in SignedEntries(list, signatures, n) <==> IsSignerEntry(list, signatures, n, e)
  {
    if n > 0 {
      EntryIsOfSigner(list, signatures, n - 1, e);
    }
  }

  lemma {:induction false} EntriesIncrease(list: seq<Validator>, signatures: SignatureMap, n: nat, p: nat, q: nat)
    requires n <= |list| && p < q < |SignedEntries(list, signatures, n)|
    ensures SignedEntries(list, signatures, n)[p].0 < SignedEntries(list, signatures, n)[q].0
  {
    if n > 0 {
      var init := SignedEntries(list, signatures, n - 1);
      if q < |init| {
        EntriesIncrease(list, signatures, n - 1, p, q);
      } else {
        EntryIsOfSigner(list, signatures, n - 1, init[p]);
      }
    }
  }

  lemma {:induction false} EntriesWeigh(list: seq<Validator>, signatures: SignatureMap, n: nat)
    requires n <= |list|
    ensures forall e | e in SignedEntries(list, signatures, n) :: e.0 < n
    ensures EntriesWeight(list, SignedEntries(list, signatures, n)) == SignedWeight(list, signatures.Keys, n)
  {
    if n > 0 {
      EntriesWeigh(list, signatures, n - 1);
      var init, entries := SignedEntries(list, signatures, n - 1), SignedEntries(list, signatures, n);
      if Signs(list, signatures.Keys, n - 1) {
        assert entries[..|entries| - 1] == init;
      } else {
        assert entries == init;
      }
    }
  }

  /** The stored entries are strictly increasing in index, are exactly the signers, carry exactly
      the collected signatures, and weigh what the check counts. */
  lemma SignedEntriesExact(list: seq<Validator>, signatures: SignatureMap, n: nat)
    requires n <= |list|
    ensures var entries := SignedEntries(list, signatures, n);
            && (forall e :: e in entries <==> IsSignerEntry(list, signatures, n, e))
            && (forall p, q | 0 <= p < q < |entries| :: entries[p].0 < entries[q].0)
            && EntriesWeight(list, entries) == SignedWeight(list, signatures.Keys, n)
  {
    EntriesWeigh(list, signatures, n);
    var entries := SignedEntries(list, signatures, n);
    forall e ensures e in entries <==> IsSignerEntry(list, signatures, n, e) {
      EntryIsOfSigner(list, signatures, n, e);
    }
    forall p, q | 0 <= p < q < |entries| ensures entries[p].0 < entries[q].0 {
      EntriesIncrease(list, signatures, n, p, q);
    }
  }

  // --- The same, told by the given signatures

  /** Every node that a signature names is on the list. */
  ghost predicate AllListed(list: seq<Validator>, signatures: seq<Result<BlockSignature, Error>>) {
    forall id | id in SignerIds(signatures) :: exists i :: 0 <= i < |list| && IdOf(list[i]) == id
  }

  /** The entry is the place of a validator, the first with its key, and a signature given for it. */
  ghost predicate IsGivenEntry(list: seq<Validator>, signatures: seq<Result<BlockSignature, Error>>, e: (nat, nat)) {
    && e.0 < |list| && (forall j | 0 <= j < e.0 :: list[j].publicKey != list[e.0].publicKey)
    && Ok(BlockSignature(IdOf(list[e.0]), e.1)) in signatures
  }

  lemma {:induction false} FirstPlace(list: seq<Validator>, i: nat) returns (first: nat)
    requires i < |list|
    ensures first <= i && IdOf(list[first]) == IdOf(list[i])
    ensures forall j | 0 <= j < first :: list[j].publicKey != list[first].publicKey
  {
    first := i;
    if j :| 0 <= j < i && list[j].publicKey == list[i].publicKey {
      first := FirstPlace(list, j);
    }
  }

  lemma GivenIsLast(signatures: seq<Result<BlockSignature, Error>>, id: NodeId, s: nat)
    requires AllRead(signatures) && NoDuplicates(signatures)
    ensures IsLastOf(signatures, id, s) <==> Ok(BlockSignature(id, s)) in signatures
  {
    if Ok(BlockSignature(id, s)) in signatures {
      var k :| 0 <= k < |signatures| && signatures[k] == Ok(BlockSignature(id, s));
      assert IsLastAt(signatures, id, s, k);
    }
  }

  lemma GivenEntries(list: seq<Validator>, signatures: seq<Result<BlockSignature, Error>>, e: (nat, nat))
    requires DistinctSigners(signatures)
    ensures IsSignerEntry(list, Collected(signatures).value, |list|, e) <==> IsGivenEntry(list, signatures, e)
  {
    CollectedKeys(signatures);
    if e.0 < |list| {
      CollectedIsLast(signatures, IdOf(list[e.0]), e.1);
      GivenIsLast(signatures, IdOf(list[e.0]), e.1);
    }
  }

  lemma SomeEntry(list: seq<Validator>, signatures: seq<Result<BlockSignature, Error>>)
    requires signatures != [] && DistinctSigners(signatures) && AllListed(list, signatures)
    ensures SignedEntries(list, Collected(signatures).value, |list|) != []
  {
    CollectedKeys(signatures);
    assert signatures[0].value.nodeIdShort in SignerIds(signatures);
    var i :| 0 <= i < |list| && IdOf(list[i]) == signatures[0].value.nodeIdShort;
    var first := FirstPlace(list, i);
    var e := (first, signatures[0].value.signature);
    assert BlockSignature(IdOf(list[first]), e.1) == signatures[0].value;
    GivenEntries(list, signatures, e);
    EntryIsOfSigner(list, Collected(signatures).value, |list|, e);
  }

  /** `prepare_signatures` in terms of what it is given: it succeeds exactly for at least one readable
      signature by distinct listed nodes, and then stores for each of them its place on the list and
      the very signature given, in the order of the list. */
  lemma PreparedExactly(signatures: seq<Result<BlockSignature, Error>>, vset: ValidatorSet)
    ensures Prepared(signatures, vset).Ok? <==>
              signatures != [] && AllRead(signatures) && NoDuplicates(signatures) && AllListed(vset.list, signatures)
    ensures Prepared(signatures, vset).Ok? ==> IsDictOf(vset.list, signatures, Prepared(signatures, vset).value)
  {
    CollectedIsLast(signatures, NodeIdOf(0), 0);
    if DistinctSigners(signatures) {
      CollectedKeys(signatures);
      if signatures != [] && AllListed(vset.list, signatures) {
        SomeEntry(vset.list, signatures);
      }
      DictOfGiven(vset.list, signatures);
    }
  }

  /** The dictionary has exactly the given signatures, by place. */
  ghost predicate IsDictOf(list: seq<Validator>, signatures: seq<Result<BlockSignature, Error>>, dict: Cell) {
    && dict.Ordinary? && dict.refs == [] && dict.data.SignatureDict?
    && (forall e :: e in dict.data.entries <==> IsGivenEntry(list, signatures, e))
    && forall p, q | 0 <= p < q < |dict.data.entries| :: dict.data.entries[p].0 < dict.data.entries[q].0
  }

  lemma DictOfGiven(list: seq<Validator>, signatures: seq<Result<BlockSignature, Error>>)
    requires DistinctSigners(signatures)
    ensures var entries := SignedEntries(list, Collected(signatures).value, |list|);
            && IsDictOf(list, signatures, Ordinary(SignatureDict(entries), []))
            && (entries != [] ==> signatures != [])
  {
    var collected := Collected(signatures).value;
    SignedEntriesExact(list, collected, |list|);
    forall e ensures e in SignedEntries(list, collected, |list|) <==> IsGivenEntry(list, signatures, e) {
      GivenEntries(list, signatures, e);
    }
    if SignedEntries(list, collected, |list|) != [] {
      assert IsGivenEntry(list, signatures, SignedEntries(list, collected, |list|)[0]);
    }
  }

  /** The last signature of each listed node that signed verifies. */
  ghost predicate LastVerify(list: seq<Validator>, signatures: seq<Result<BlockSignature, Error>>,
                             verify: SignatureVerifier)
  {
    forall i: nat, s | i < |list| && IsLastOf(signatures, IdOf(list[i]), s) :: verify(list[i].publicKey, s)
  }

  /** `check_signatures` in terms of what it is given: every signature can be read and names a listed
      node, the last one of each node verifies, and the nodes named weigh more than two thirds. */
  lemma AcceptedExactly(signatures: seq<Result<BlockSignature, Error>>, vset: ValidatorSet, verify: SignatureVerifier)
    ensures Accepted(signatures, vset, verify) <==>
              && AllRead(signatures) && AllListed(vset.list, signatures) && LastVerify(vset.list, signatures, verify)
              && var weight := SignedWeight(vset.list, SignerIds(signatures), |vset.list|);
                 3 * weight < U64_SPAN && 2 * vset.totalWeight < U64_SPAN && 3 * weight > 2 * vset.totalWeight
  {
    CollectedIsLast(signatures, NodeIdOf(0), 0);
    if AllRead(signatures) {
      CollectedKeys(signatures);
      if AllVerify(vset.list, Collected(signatures).value, verify, |vset.list|) {
        SignersVerify(vset.list, signatures, verify);
      }
      if LastVerify(vset.list, signatures, verify) {
        LastOnesVerify(vset.list, signatures, verify);
      }
    }
  }

  lemma SignersVerify(list: seq<Validator>, signatures: seq<Result<BlockSignature, Error>>, verify: SignatureVerifier)
    requires Collected(signatures).Ok? && AllVerify(list, Collected(signatures).value, verify, |list|)
    ensures LastVerify(list, signatures, verify)
  {
    forall i: nat, s | i < |list| && IsLastOf(signatures, IdOf(list[i]), s) ensures verify(list[i].publicKey, s) {
      CollectedIsLast(signatures, IdOf(list[i]), s);
      var first := FirstPlace(list, i);
      assert Signs(list, Collected(signatures).value.Keys, first);
    }
  }

  lemma LastOnesVerify(list: seq<Validator>, signatures: seq<Result<BlockSignature, Error>>, verify: SignatureVerifier)
    requires Collected(signatures).Ok? && LastVerify(list, signatures, verify)
    ensures AllVerify(list, Collected(signatures).value, verify, |list|)
  {
    var collected := Collected(signatures).value;
    forall i | 0 <= i < |list| && Signs(list, collected.Keys, i)
      ensures verify(list[i].publicKey, collected[IdOf(list[i])])
    {
      CollectedIsLast(signatures, IdOf(list[i]), collected[IdOf(list[i])]);
    }
  }

  /** `make_epoch_data` */
  method MakeEpochData(vset: ValidatorSet) returns (r: Result<EpochData, Error>)
    ensures r.Ok? <==> vset.main <= |vset.list| && TotalWeight(vset.list, vset.main) < U64_SPAN
    ensures r.Ok? ==>
              && r.value.utimeSince == vset.utimeSince && r.value.utimeUntil == vset.utimeUntil
              && r.value.main == vset.main
              && |r.value.validators| == vset.main
              && (forall i | 0 <= i < vset.main :: r.value.validators[i] == (i, vset.list[i]))
              && r.value.cutoffWeight == TotalWeight(vset.list, vset.main) * 2 / 3 + 1
  {
    if |vset.list| < vset.main {
      return Err(InvalidData);
    }
    var totalWeight, mainValidators := 0, [];
    for i := 0 to vset.main
      invariant totalWeight == TotalWeight(vset.list, i) < U64_SPAN
      invariant |mainValidators| == i && forall j | 0 <= j < i :: mainValidators[j] == (j, vset.list[j])
    {
      mainValidators := mainValidators + [(i, vset.list[i])];
      if totalWeight + vset.list[i].weight >= U64_SPAN {
        TotalWeightGrows(vset.list, i + 1, vset.main);
        return Err(IntOverflow);
      }
      totalWeight := totalWeight + vset.list[i].weight;
    }
    return Ok(EpochData(vset.utimeSince, vset.utimeUntil, vset.main, Cutoff(totalWeight), mainValidators));
  }

  function Cutoff(totalWeight: nat): nat {
    totalWeight * 2 / 3 + 1
  }

  lemma {:induction false} TotalWeightGrows(list: seq<Validator>, m: nat, n: nat)
    requires m <= n <= |list|
    ensures TotalWeight(list, m) <= TotalWeight(list, n)
  {
    if m < n {
      TotalWeightGrows(list, m, n - 1);
    }
  }

  /** The stored data agrees with the check. For duplicate-free signatures and a list of exactly
      the main validators with the right total, an accepted block has a stored dictionary of
      exactly its signers, and their weight reaches the cutoff of the epoch data; conversely,
      verified stored signatures that reach the cutoff (and stay in 64 bits) are accepted. */
  lemma PreparedAgreesWithCheck(signatures: seq<Result<BlockSignature, Error>>, vset: ValidatorSet,
                                verify: SignatureVerifier)
    requires DistinctSigners(signatures)
    requires |vset.list| == vset.main && vset.totalWeight == TotalWeight(vset.list, vset.main)
    ensures Accepted(signatures, vset, verify) <==>
            && Prepared(signatures, vset).Ok?
            && AllVerify(vset.list, Collected(signatures).value, verify, |vset.list|)
            && var entries := Prepared(signatures, vset).value.data.entries;
               && (forall e | e in entries :: e.0 < |vset.list|)
               && EntriesWeight(vset.list, entries) >= Cutoff(TotalWeight(vset.list, vset.main))
               && 3 * EntriesWeight(vset.list, entries) < U64_SPAN && 2 * vset.totalWeight < U64_SPAN
  {
    var collected := Collected(signatures).value;
    EntriesWeigh(vset.list, collected, |vset.list|);
  }
}
