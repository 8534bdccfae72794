/**
 The key block uploader: reads the epoch of the bridge, walks the key blocks of the source back to
 that epoch through a cache, sends the oldest newer one, and prunes the cache.

 The source is one chain of key blocks. The clients of both networks are parameters: what they
 answer during one synchronisation is an `Env`. The bridge adopts the validator set of each key
 block it accepts, at the logical time of the transaction. It may also adopt key blocks without the
 uploader knowing: one whose acknowledgement was lost, or one that somebody else has sent.
 */
module Uploader {
  import opened Results
  import opened Signatures
  import Cells

  datatype KeyBlock = KeyBlock(
    seqno: nat,
    prevKeyBlockSeqno: nat,
    currentVset: ValidatorSet,
    prevVset: Option<ValidatorSet>,
    signatures: seq<Result<BlockSignature, Cells.Error>>)
  {
    function Epoch(): nat {
      currentVset.utimeSince
    }
  }

  type Source = map<nat, KeyBlock>

  datatype UploadError =
    | RequestFailed | NoPrevVset | InvalidKeyBlock(error: Cells.Error) | NotSent | Rejected | StillWaiting

  /** What the destination tells about the bridge account. */
  datatype BridgeRead = Active(genLt: nat, epoch: nat) | Inactive(genLt: nat) | NoState

  /** What became of a sent key block: no transaction, or one that succeeded or failed. */
  datatype Delivery = Lost | Landed(lt: nat, success: bool)

  /** What is sent for a key block besides its proof. */
  datatype Message = Message(keyBlock: KeyBlock, signatures: Cells.Cell, epochData: EpochData)

  datatype Env = Env(
    answers: seq<BridgeRead>,
    latest: Result<nat, UploadError>,
    fetch: nat -> Result<KeyBlock, UploadError>,
    libraryDeployed: bool,
    deliver: KeyBlock -> Delivery)

  /** The epochs of the bridge with the times they were adopted, oldest first. */
  type BridgeLog = log: seq<(nat, nat)> | |log| > 0 witness [(0, 0)]

  // --- The source

  /** A key block is linked to the one just before it. */
  ghost predicate IsLinked(source: Source, s: nat)
    requires s in source
  {
    && source[s].seqno == s && source[s].prevKeyBlockSeqno < s
    && forall t | t in source && t < s :: t <= source[s].prevKeyBlockSeqno && source[s].prevKeyBlockSeqno in source
  }

  /** One chain of key blocks, along which epochs never decrease. */
  ghost predicate SourceOk(source: Source) {
    (forall s {:trigger IsLinked(source, s)} | s in source :: IsLinked(source, s)) && EpochsGrow(source)
  }

  ghost predicate EpochsGrow(source: Source) {
    forall s, t | s in source && t in source && t <= s :: source[t].Epoch() <= source[s].Epoch()
  }

  /** The source has grown by later key blocks only. */
  ghost predicate Extends(source: Source, source': Source) {
    && (forall s | s in source :: s in source' && source'[s] == source[s])
    && (forall s, t | s in source' && s !in source && t in source :: t < s)
  }

  /** Every key block of the range is newer than the epoch. */
  ghost predicate AllNewer(source: Source, after: nat, upTo: nat, epoch: nat) {
    forall t | t in source && after < t <= upTo :: source[t].Epoch() > epoch
  }

  ghost predicate CacheOk(cache: map<nat, KeyBlock>, source: Source) {
    forall s | s in cache :: s in source && cache[s] == source[s]
  }

  /** The cache has every key block of the range. */
  ghost predicate Caches(cache: map<nat, KeyBlock>, source: Source, from: nat, upTo: nat) {
    forall s | s in source && from <= s <= upTo :: s in cache
  }

  ghost predicate HonestFetch(source: Source, fetch: nat -> Result<KeyBlock, UploadError>) {
    forall s: nat :: fetch(s).Ok? ==> s in source && fetch(s).value == source[s]
  }

  /** The uncached walk: the block just above the first one, going back, whose epoch is not newer,
      if the epoch of that one is the wanted one. */
  function Walk(source: Source, seqno: nat, epoch: nat, above: Option<KeyBlock>): Result<Option<KeyBlock>, UploadError>
    decreases seqno
  {
    if seqno !in source then Err(RequestFailed)
    else
      var b := source[seqno];
      if b.Epoch() > epoch then
        if b.prevKeyBlockSeqno < seqno then Walk(source, b.prevKeyBlockSeqno, epoch, Some(b)) else Err(RequestFailed)
      else if b.Epoch() < epoch then Ok(None)
      else Ok(above)
  }

  /** The first key block of the source that is newer than the epoch, right after that epoch. */
  ghost predicate IsNext(source: Source, epoch: nat, b: KeyBlock) {
    && b.seqno in source && source[b.seqno] == b && b.Epoch() > epoch
    && b.prevKeyBlockSeqno in source && source[b.prevKeyBlockSeqno].Epoch() == epoch
    && forall t | t in source ::
          (t < b.seqno ==> source[t].Epoch() <= epoch) && (t >= b.seqno ==> source[t].Epoch() >= b.Epoch())
  }

  /** From wherever it starts, the walk finds the next key block of the epoch, or nothing when the
      start is not newer or the source has no such epoch. */
  lemma {:induction false} WalkFindsNext(source: Source, seqno: nat, epoch: nat, above: Option<KeyBlock>)
    requires SourceOk(source) && seqno in source
    requires above.Some? ==> above.value.seqno in source && source[above.value.seqno] == above.value
                             && above.value.prevKeyBlockSeqno == seqno && above.value.Epoch() > epoch
    ensures var r := Walk(source, seqno, epoch, above);
            && (r.Ok? && r.value.Some? ==> IsNext(source, epoch, r.value.value))
            && (r.Ok? && r.value.None? ==>
                  || (above.None? && source[seqno].Epoch() == epoch)
                  || forall t | t in source && t <= seqno :: source[t].Epoch() != epoch)
    decreases seqno
  {
    var b := source[seqno];
    assert IsLinked(source, seqno);
    assert above.Some? ==> IsLinked(source, above.value.seqno);
    if b.Epoch() > epoch && b.prevKeyBlockSeqno in source {
      WalkFindsNext(source, b.prevKeyBlockSeqno, epoch, Some(b));
    }
    forall t | t in source && t <= seqno && b.Epoch() < epoch ensures source[t].Epoch() != epoch {
      assert source[t].Epoch() <= b.Epoch();
    }
  }

  /** A walk from a key block fails only when it runs out of the source. */
  lemma {:induction false} WalkCompletes(source: Source, seqno: nat, epoch: nat, above: Option<KeyBlock>)
    requires SourceOk(source) && seqno in source
    requires exists t :: t in source && t <= seqno && source[t].Epoch() <= epoch
    ensures Walk(source, seqno, epoch, above).Ok?
    decreases seqno
  {
    var b := source[seqno];
    assert IsLinked(source, seqno);
    if b.Epoch() > epoch {
      var t :| t in source && t <= seqno && source[t].Epoch() <= epoch;
      assert t < seqno;
      WalkCompletes(source, b.prevKeyBlockSeqno, epoch, Some(b));
    }
  }

  /** A failed fetch is a failure of the source, or the walk has left the source. */
  lemma FetchFailed(source: Source, seqno: nat, epoch: nat, above: Option<KeyBlock>,
                    fetch: nat -> Result<KeyBlock, UploadError>)
    requires fetch(seqno).Err?
    ensures Walk(source, seqno, epoch, above).Err? || exists s :: s in source && fetch(s).Err?
  {
    assert seqno in source ==> exists s :: s in source && fetch(s).Err?;
  }

  /** The walk has come down to `at`: what is above is newer than the epoch and cached, only that
      (and `at` itself) was fetched, and the uncached walk would be at the same place. */
  ghost predicate WalkedTo(source: Source, latest: nat, epoch: nat, at: nat, above: Option<KeyBlock>,
                           cache: map<nat, KeyBlock>, fetched: set<nat>)
  {
    && at <= latest && AllNewer(source, at, latest, epoch)
    && Caches(cache, source, at + 1, latest)
    && Walk(source, latest, epoch, None) == Walk(source, at, epoch, above)
    && InOrBelow(source, at) && (forall s | s in fetched :: at <= s <= latest && InOrBelow(source, s))
    && (above.Some? ==> above.value.prevKeyBlockSeqno == at)
  }

  /** A seqno of the source, or one below all of it. */
  ghost predicate InOrBelow(source: Source, s: nat) {
    s in source || forall t | t in source :: s < t
  }

  lemma StillWalked(source: Source, latest: nat, epoch: nat, at: nat, above: Option<KeyBlock>,
                    cache: map<nat, KeyBlock>, cache': map<nat, KeyBlock>, fetched: set<nat>, fetched': set<nat>)
    requires WalkedTo(source, latest, epoch, at, above, cache, fetched)
    requires cache.Keys <= cache'.Keys && fetched' <= fetched + {at}
    ensures WalkedTo(source, latest, epoch, at, above, cache', fetched')
  {
  }

  /** Only key blocks down to the first one that is not newer than the epoch were fetched. */
  ghost predicate FetchesNeeded(source: Source, latest: nat, epoch: nat, fetched: set<nat>) {
    forall s | s in fetched :: s <= latest && InOrBelow(source, s) && AllNewer(source, s, latest, epoch)
  }

  lemma WalkFetchesNeeded(source: Source, latest: nat, epoch: nat, at: nat, above: Option<KeyBlock>,
                          cache: map<nat, KeyBlock>, fetched: set<nat>)
    requires WalkedTo(source, latest, epoch, at, above, cache, fetched)
    ensures FetchesNeeded(source, latest, epoch, fetched)
  {
    forall s | s in fetched ensures AllNewer(source, s, latest, epoch) {
      assert AllNewer(source, at, latest, epoch);
    }
  }

  lemma CachedDownTo(cache: map<nat, KeyBlock>, source: Source, at: nat, upTo: nat)
    requires Caches(cache, source, at + 1, upTo) && at in cache
    ensures Caches(cache, source, at, upTo)
  {
  }

  lemma OneStepBack(source: Source, latest: nat, epoch: nat, at: nat, above: Option<KeyBlock>,
                    cache: map<nat, KeyBlock>, fetched: set<nat>)
    requires SourceOk(source) && at in source && at in cache && source[at].Epoch() > epoch
    requires WalkedTo(source, latest, epoch, at, above, cache, fetched)
    ensures WalkedTo(source, latest, epoch, source[at].prevKeyBlockSeqno, Some(source[at]), cache, fetched)
  {
    assert IsLinked(source, at);
  }

  // --- The bridge

  function LastLt(log: BridgeLog): nat {
    log[|log| - 1].0
  }

  function CurrentEpoch(log: BridgeLog): nat {
    log[|log| - 1].1
  }

  /** A state of the bridge at some time shows the last epoch adopted until then. */
  ghost predicate HonestRead(log: BridgeLog, read: BridgeRead) {
    read.Active? ==> exists i :: 0 <= i < |log| && log[i].0 <= read.genLt && read.epoch == log[i].1
                                 && forall j | i < j < |log| :: log[j].0 > read.genLt
  }

  /** Before the bridge answers, it has adopted what the log says; it adopts no epoch that is not newer. */
  ghost predicate HonestEnv(source: Source, log: BridgeLog, env: Env) {
    && (forall read | read in env.answers :: HonestRead(log, read))
    && (env.latest.Ok? ==> env.latest.value in source)
    && HonestFetch(source, env.fetch)
    && (forall b: KeyBlock :: HonestDelivery(log, b, env.deliver(b)))
  }

  predicate HonestDelivery(log: BridgeLog, b: KeyBlock, delivery: Delivery) {
    delivery.Landed? ==> delivery.lt > LastLt(log) && (delivery.success ==> b.Epoch() > CurrentEpoch(log))
  }

  /** The log after a key block was delivered: an accepted one is adopted. */
  function Adopted(log: BridgeLog, b: KeyBlock, delivery: Delivery): BridgeLog {
    if delivery.Landed? && delivery.success then log + [(delivery.lt, b.Epoch())] else log
  }

  ghost predicate HasEpoch(source: Source, epoch: nat) {
    exists s :: s in source && source[s].Epoch() == epoch
  }

  /** Time and epoch grow, the epoch is one of the source, and no epoch of the source lies between. */
  ghost predicate Follows(source: Source, last: (nat, nat), next: (nat, nat)) {
    && last.0 < next.0 && last.1 < next.1 && HasEpoch(source, next.1)
    && forall s | s in source :: !(last.1 < source[s].Epoch() < next.1)
  }

  /** The bridge has adopted the epochs of the source one after another and skipped none. */
  ghost predicate VisitsEachEpoch(source: Source, log: BridgeLog) {
    forall i | 0 < i < |log| :: Follows(source, log[i - 1], log[i])
  }

  lemma NextFollows(source: Source, last: (nat, nat), b: KeyBlock, lt: nat)
    requires IsNext(source, last.1, b) && lt > last.0
    ensures Follows(source, last, (lt, b.Epoch()))
  {
    assert source[b.seqno].Epoch() == b.Epoch();
  }

  lemma AdoptingNextVisits(source: Source, log: BridgeLog, b: KeyBlock, delivery: Delivery)
    requires VisitsEachEpoch(source, log) && IsNext(source, CurrentEpoch(log), b)
    requires delivery.Landed? ==> delivery.lt > LastLt(log)
    ensures VisitsEachEpoch(source, Adopted(log, b, delivery))
  {
    if delivery.Landed? {
      var next := (delivery.lt, b.Epoch());
      NextFollows(source, log[|log| - 1], b, delivery.lt);
      forall i | 0 < i < |log + [next]| ensures Follows(source, (log + [next])[i - 1], (log + [next])[i]) {
        if i < |log| {
          assert Follows(source, log[i - 1], log[i]);
        }
      }
    }
  }

  /** What was next in a source stays next when the source grows. */
  lemma StillFollows(source: Source, source': Source, last: (nat, nat), next: (nat, nat))
    requires Extends(source, source') && EpochsGrow(source') && Follows(source, last, next)
    ensures Follows(source', last, next)
  {
    var s :| s in source && source[s].Epoch() == next.1;
    assert s in source' && source'[s].Epoch() == next.1;
    forall t | t in source' ensures !(last.1 < source'[t].Epoch() < next.1) {
      assert t in source ==> source'[t] == source[t];
    }
  }

  /** A growing source never makes the bridge have skipped an epoch. */
  lemma GrowthKeepsVisits(source: Source, source': Source, log: BridgeLog)
    requires Extends(source, source') && EpochsGrow(source') && VisitsEachEpoch(source, log)
    ensures VisitsEachEpoch(source', log)
  {
    forall i | 0 < i < |log| ensures Follows(source', log[i - 1], log[i]) {
      StillFollows(source, source', log[i - 1], log[i]);
    }
  }

  /** The key blocks that the bridge has not caught up with. */
  function Pending(source: Source, epoch: nat): set<nat> {
    set s | s in source && source[s].Epoch() > epoch
  }

  /** A key block that can be sent: its data can be prepared. */
  predicate Sendable(b: KeyBlock) {
    && b.prevVset.Some? && Prepared(b.signatures, b.prevVset.value).Ok?
    && b.currentVset.main <= |b.currentVset.list|
    && TotalWeight(b.currentVset.list, b.currentVset.main) < 0x1_0000_0000_0000_0000
  }

  /** In terms of what the key block has: at least one signature, each by another validator of the
      previous set, and a current set with all its main validators, whose weights add up in 64 bits. */
  lemma SendableExactly(b: KeyBlock)
    ensures Sendable(b) <==>
              && b.prevVset.Some? && b.signatures != []
              && AllRead(b.signatures) && NoDuplicates(b.signatures) && AllListed(b.prevVset.value.list, b.signatures)
              && b.currentVset.main <= |b.currentVset.list|
              && TotalWeight(b.currentVset.list, b.currentVset.main) < 0x1_0000_0000_0000_0000
  {
    if b.prevVset.Some? {
      PreparedExactly(b.signatures, b.prevVset.value);
    }
  }

  /** A key block that the previous validator set has accepted, each node signing once, can be sent,
      whatever the new set is, if that has its main validators; and one with a signer that is not of
      the previous set cannot. */
  lemma AcceptedIsSendable(b: KeyBlock, verify: SignatureVerifier)
    requires b.prevVset.Some? && NoDuplicates(b.signatures)
    requires b.currentVset.main <= |b.currentVset.list|
    requires TotalWeight(b.currentVset.list, b.currentVset.main) < 0x1_0000_0000_0000_0000
    ensures Accepted(b.signatures, b.prevVset.value, verify) ==> Sendable(b)
    ensures !AllListed(b.prevVset.value.list, b.signatures) ==> !Sendable(b)
  {
    SendableExactly(b);
    var vset := b.prevVset.value;
    AcceptedExactly(b.signatures, vset, verify);
    if Accepted(b.signatures, vset, verify) {
      var i := SomeSigner(vset.list, SignerIds(b.signatures), |vset.list|);
    }
  }

  // --- What a bridge state can show

  /** The uploader knows of the last adoption. */
  predicate IsFresh(log: BridgeLog, minLt: nat) {
    LastLt(log) <= minLt
  }

  /** A bridge state that is not older than `minLt` can show entry `i` of the log. */
  predicate CanShow(log: BridgeLog, minLt: nat, i: nat) {
    i < |log| && (i == |log| - 1 || log[i + 1].0 > minLt)
  }

  ghost predicate IsRead(log: BridgeLog, minLt: nat, epoch: nat) {
    exists i: nat :: CanShow(log, minLt, i) && log[i].1 == epoch
  }

  lemma HonestReadShows(log: BridgeLog, minLt: nat, read: BridgeRead)
    requires HonestRead(log, read) && read.Active? && read.genLt >= minLt
    ensures IsRead(log, minLt, read.epoch)
  {
    var i: nat :| i < |log| && log[i].0 <= read.genLt && read.epoch == log[i].1
                  && forall j | i < j < |log| :: log[j].0 > read.genLt;
    assert CanShow(log, minLt, i);
  }

  lemma {:induction false} LogGrows(source: Source, log: BridgeLog, i: nat)
    requires VisitsEachEpoch(source, log) && i < |log|
    ensures log[i].0 <= LastLt(log) && log[i].1 <= CurrentEpoch(log)
    decreases |log| - i
  {
    if i < |log| - 1 {
      LogGrows(source, log, i + 1);
      assert Follows(source, log[i + 1 - 1], log[i + 1]);
    }
  }

  /** Who knows of the last adoption reads the epoch the bridge is in. */
  lemma FreshReadIsCurrent(source: Source, log: BridgeLog, minLt: nat, epoch: nat)
    requires VisitsEachEpoch(source, log) && IsRead(log, minLt, epoch)
    ensures epoch <= CurrentEpoch(log) && (IsFresh(log, minLt) ==> epoch == CurrentEpoch(log))
  {
    var i: nat :| CanShow(log, minLt, i) && log[i].1 == epoch;
    LogGrows(source, log, i);
    if i < |log| - 1 {
      LogGrows(source, log, i + 1);
    }
  }

  /** A key block that is next for an epoch read, and that the bridge accepts as newer, is next for the
      epoch the bridge is in. */
  lemma AcceptedIsNext(source: Source, log: BridgeLog, minLt: nat, epoch: nat, b: KeyBlock)
    requires VisitsEachEpoch(source, log) && IsRead(log, minLt, epoch) && IsNext(source, epoch, b)
    requires b.Epoch() > CurrentEpoch(log)
    ensures epoch == CurrentEpoch(log)
  {
    var i: nat :| CanShow(log, minLt, i) && log[i].1 == epoch;
    if i < |log| - 1 {
      assert Follows(source, log[i + 1 - 1], log[i + 1]);
      var s :| s in source && source[s].Epoch() == log[i + 1].1;
      assert source[s].Epoch() >= b.Epoch();
      LogGrows(source, log, i + 1);
    }
  }

  /** The bridge has adopted further epochs, whoever has sent them. */
  ghost predicate BridgeGrows(source: Source, log: BridgeLog, log': BridgeLog) {
    log <= log' && VisitsEachEpoch(source, log')
  }

  // --- One round

  /** Nothing fails: a bridge state not older than `minLt` is told, the newest key block is told,
      everything can be fetched, what is sent lands, and the next key block is accepted. */
  ghost predicate Smooth(source: Source, log: BridgeLog, minLt: nat, env: Env) {
    && (exists read :: read in env.answers && read.Active? && read.genLt >= minLt)
    && env.latest.Ok? && (forall s | s in source :: s <= env.latest.value)
    && (forall s | s in source :: env.fetch(s) == Ok(source[s]))
    && (forall s | s in source :: Sendable(source[s]) && env.deliver(source[s]).Landed?)
    && (forall s | s in source && IsNext(source, CurrentEpoch(log), source[s]) :: env.deliver(source[s]).success)
    && env.libraryDeployed
  }

  /** A source, the log of the bridge, and the time that a bridge state has to have at least. */
  datatype Moment = Moment(source: Source, log: BridgeLog, minLt: nat)

  /** The epochs that can be read are epochs of the source. */
  ghost predicate IsKnown(m: Moment) {
    forall i: nat | CanShow(m.log, m.minLt, i) :: HasEpoch(m.source, m.log[i].1)
  }

  /** There is nothing to send from what the source tells as its newest key block, for an epoch read. */
  ghost predicate NothingToSend(source: Source, log: BridgeLog, minLt: nat, env: Env) {
    env.latest.Ok? && exists epoch ::
      IsRead(log, minLt, epoch) && Walk(source, env.latest.value, epoch, None) == Ok(None)
  }

  /** One synchronisation that starts with `m` when the log of the bridge is `log` and ends in `m'`:
      either the log stays, and if that is a success there was nothing to send; or it has grown by
      exactly the next key block, and the uploader knows of it. When nothing fails it is a success,
      or at least the uploader has learned of an adoption it did not know of. */
  ghost predicate Ends(m: Moment, log: BridgeLog, m': Moment, env: Env, ok: bool) {
    && (m'.minLt == m.minLt || IsFresh(m'.log, m'.minLt))
    && (if m'.log == log then ok ==> NothingToSend(m'.source, log, m.minLt, env)
        else ok && IsFresh(m'.log, m'.minLt) && exists b :: HasSent(m'.source, log, m'.log, b, env))
    && (Smooth(m'.source, log, m.minLt, env) && IsKnown(Moment(m'.source, log, m.minLt)) ==>
          ok || (!IsFresh(log, m.minLt) && IsFresh(m'.log, m'.minLt)))
  }

  /** One round: the source and the log of the bridge have grown since the last one. */
  ghost predicate Syncs(m: Moment, log: BridgeLog, m': Moment, env: Env, ok: bool) {
    && Extends(m.source, m'.source) && SourceOk(m'.source)
    && BridgeGrows(m'.source, m.log, log) && HonestEnv(m'.source, log, env)
    && Ends(m, log, m', env, ok)
  }

  /** The bridge has moved on by exactly the next key block. */
  ghost predicate HasSent(source: Source, log: BridgeLog, log': BridgeLog, b: KeyBlock, env: Env) {
    && IsNext(source, CurrentEpoch(log), b)
    && env.deliver(b).Landed? && log' == log + [(env.deliver(b).lt, b.Epoch())]
  }

  class KeyBlockUploader {
    var keyBlocksCache: map<nat, KeyBlock>
    var minBridgeStateLt: nat
    var lastCheckedVset: nat
    /** The key blocks fetched by the last walk. */
    ghost var fetched: set<nat>

    ghost predicate Valid(source: Source, log: BridgeLog)
      reads this
    {
      && SourceOk(source)
      && CacheOk(keyBlocksCache, source)
      && VisitsEachEpoch(source, log)
    }

    /** `new`, whatever the bridge has adopted before. */
    constructor (ghost source: Source, ghost log: BridgeLog)
      requires SourceOk(source) && VisitsEachEpoch(source, log)
      ensures Valid(source, log) && keyBlocksCache == map[] && minBridgeStateLt == 0
    {
      keyBlocksCache, minBridgeStateLt, lastCheckedVset, fetched := map[], 0, 0, {};
    }

    /** `get_key_block` */
    method GetKeyBlock(seqno: nat, fetch: nat -> Result<KeyBlock, UploadError>, ghost source: Source)
      returns (r: Result<KeyBlock, UploadError>)
      requires HonestFetch(source, fetch) && CacheOk(keyBlocksCache, source)
      modifies this`keyBlocksCache, this`fetched
      ensures r.Ok? ==> seqno in source && r.value == source[seqno] && seqno in keyBlocksCache
      ensures r.Err? ==> seqno !in old(keyBlocksCache) && fetch(seqno).Err?
      ensures CacheOk(keyBlocksCache, source)
      ensures keyBlocksCache.Keys == old(keyBlocksCache).Keys + (if r.Ok? then {seqno} else {})
      ensures fetched == old(fetched) + (if seqno in old(keyBlocksCache) then {} else {seqno})
    {
      if seqno in keyBlocksCache {
        return Ok(keyBlocksCache[seqno]);
      }
      fetched := fetched + {seqno};
      var keyBlock :- fetch(seqno);
      keyBlocksCache := keyBlocksCache[seqno := keyBlock];
      return Ok(keyBlock);
    }

    /** `find_next_key_block`: through the cache it finds what the uncached walk finds, fetches
        only what is not cached and not below the first key block that is not newer than the
        epoch, and leaves every key block down to that one cached. */
    method FindNextKeyBlock(epoch: nat, latest: Result<nat, UploadError>, fetch: nat -> Result<KeyBlock, UploadError>,
                            ghost source: Source)
      returns (r: Result<Option<KeyBlock>, UploadError>)
      requires SourceOk(source) && HonestFetch(source, fetch) && (latest.Ok? ==> latest.value in source)
      requires CacheOk(keyBlocksCache, source)
      modifies this`keyBlocksCache, this`fetched
      ensures CacheOk(keyBlocksCache, source)
      ensures old(keyBlocksCache).Keys <= keyBlocksCache.Keys
      ensures r.Ok? ==> latest.Ok? && r == Walk(source, latest.value, epoch, None)
      ensures r.Err? ==>
                || latest.Err? || Walk(source, latest.value, epoch, None).Err?
                || exists s :: s in source && fetch(s).Err?
      ensures fetched !! old(keyBlocksCache).Keys
      ensures if latest.Ok? then FetchesNeeded(source, latest.value, epoch, fetched) else fetched == {}
      ensures r.Ok? && r.value.Some? ==> Caches(keyBlocksCache, source, r.value.value.prevKeyBlockSeqno, latest.value)
    {
      fetched := {};
      if latest.Err? {
        return Err(latest.error);
      }
      var latestSeqno: nat := latest.value;
      var result: Option<KeyBlock> := None;
      ghost var before := keyBlocksCache;
      while true
        invariant CacheOk(keyBlocksCache, source) && before.Keys <= keyBlocksCache.Keys && fetched !! before.Keys
        invariant WalkedTo(source, latest.value, epoch, latestSeqno, result, keyBlocksCache, fetched)
        decreases latestSeqno
      {
        ghost var cached, had := keyBlocksCache, fetched;
        var asked := GetKeyBlock(latestSeqno, fetch, source);
        StillWalked(source, latest.value, epoch, latestSeqno, result, cached, keyBlocksCache, had, fetched);
        WalkFetchesNeeded(source, latest.value, epoch, latestSeqno, result, keyBlocksCache, fetched);
        if asked.Err? {
          FetchFailed(source, latestSeqno, epoch, result, fetch);
          r := Err(asked.error);
          break;
        }
        var keyBlock := asked.value;
        assert IsLinked(source, latestSeqno);
        if keyBlock.Epoch() > epoch {
          OneStepBack(source, latest.value, epoch, latestSeqno, result, keyBlocksCache, fetched);
          latestSeqno := keyBlock.prevKeyBlockSeqno;
          result := Some(keyBlock);
        } else {
          CachedDownTo(keyBlocksCache, source, latestSeqno, latest.value);
          // With an older key block, the source seems to be out of sync.
          r := Ok(if keyBlock.Epoch() < epoch then None else result);
          break;
        }
      }
    }

    /** `get_bridge_account` and the getter: waits for an active state that is not older than the
        last transaction sent. */
    method GetCurrentEpoch(answers: seq<BridgeRead>, ghost source: Source, ghost log: BridgeLog)
      returns (r: Result<nat, UploadError>)
      requires VisitsEachEpoch(source, log) && forall read | read in answers :: HonestRead(log, read)
      ensures r.Ok? ==> IsRead(log, minBridgeStateLt, r.value)
      ensures r.Ok? && IsFresh(log, minBridgeStateLt) ==> r.value == CurrentEpoch(log)
      ensures r.Err? <==> forall read | read in answers :: !(read.Active? && read.genLt >= minBridgeStateLt)
    {
      for i := 0 to |answers|
        invariant forall j | 0 <= j < i :: !(answers[j].Active? && answers[j].genLt >= minBridgeStateLt)
      {
        if answers[i].Active? && answers[i].genLt >= minBridgeStateLt {
          HonestReadShows(log, minBridgeStateLt, answers[i]);
          FreshReadIsCurrent(source, log, minBridgeStateLt, answers[i].epoch);
          return Ok(answers[i].epoch);
        }
      }
      return Err(StillWaiting);
    }

    /** `send_key_block`: prepares the data, deploys the epoch library and delivers the block. The
        time of its transaction is remembered even if the bridge rejected the block. */
    method SendKeyBlock(b: KeyBlock, env: Env)
      returns (r: Result<(), UploadError>, ghost delivery: Delivery, ghost sent: Option<Message>)
      modifies this`minBridgeStateLt
      ensures sent.Some? <==> Sendable(b) && env.libraryDeployed
      ensures sent.Some? ==>
                && sent.value.keyBlock == b && b.prevVset.Some?
                && IsDictOf(b.prevVset.value.list, b.signatures, sent.value.signatures)
                && sent.value.epochData.utimeSince == b.currentVset.utimeSince
                && sent.value.epochData.utimeUntil == b.currentVset.utimeUntil
                && sent.value.epochData.main == b.currentVset.main == |sent.value.epochData.validators|
                && b.currentVset.main <= |b.currentVset.list|
                && (forall i | 0 <= i < b.currentVset.main ::
                      sent.value.epochData.validators[i] == (i, b.currentVset.list[i]))
                && sent.value.epochData.cutoffWeight
                   == TotalWeight(b.currentVset.list, b.currentVset.main) * 2 / 3 + 1
      ensures delivery == if sent.Some? then env.deliver(b) else Lost
      ensures minBridgeStateLt == if delivery.Landed? then delivery.lt else old(minBridgeStateLt)
      ensures r.Ok? <==> delivery.Landed? && delivery.success
    {
      delivery, sent := Lost, None;
      if b.prevVset.None? {
        return Err(NoPrevVset), delivery, sent;
      }
      var signatures := PrepareSignatures(b.signatures, b.prevVset.value);
      if signatures.Err? {
        return Err(InvalidKeyBlock(signatures.error)), delivery, sent;
      }
      var epochData := MakeEpochData(b.currentVset);
      if epochData.Err? {
        return Err(InvalidKeyBlock(epochData.error)), delivery, sent;
      }
      if !env.libraryDeployed {
        return Err(NotSent), delivery, sent;
      }
      sent := Some(Message(b, signatures.value, epochData.value));
      var answer := env.deliver(b);
      delivery := answer;
      if answer.Lost? {
        return Err(NotSent), delivery, sent;
      }
      minBridgeStateLt := answer.lt;
      if !answer.success {
        return Err(Rejected), delivery, sent;
      }
      return Ok(()), delivery, sent;
    }

    /** `sync_key_blocks`, with a source and a bridge that have grown since `before`: sends at most one
        key block, which the bridge accepts only if it is the next one of the epoch it is really in,
        and afterwards keeps cached what the next walks will need. */
    method SyncKeyBlocks(env: Env, ghost before: Source, ghost source: Source, ghost known: BridgeLog,
                         ghost log: BridgeLog)
      returns (r: Result<(), UploadError>, ghost log': BridgeLog)
      requires Valid(before, known) && Extends(before, source) && SourceOk(source)
      requires BridgeGrows(source, known, log) && HonestEnv(source, log, env)
      modifies this
      ensures Valid(source, log')
      ensures Syncs(Moment(before, known, old(minBridgeStateLt)), log, Moment(source, log', minBridgeStateLt), env,
                    r.Ok?)
      ensures log' != log ==> KeepsCached(source, log, log', env)
    {
      log' := log;
      var epoch := GetCurrentEpoch(env.answers, source, log);
      if epoch.Err? {
        return Err(epoch.error), log';
      }
      if epoch.value != lastCheckedVset {
        lastCheckedVset := epoch.value;
      }
      r, log' := SendNextOf(epoch.value, env, Moment(before, known, minBridgeStateLt), source, log);
    }

    /** After a success the cache has what the next walks will need. */
    ghost predicate KeepsCached(source: Source, log: BridgeLog, log': BridgeLog, env: Env)
      reads this
    {
      && env.latest.Ok?
      && exists b :: HasSent(source, log, log', b, env)
                  && Caches(keyBlocksCache, source, b.prevKeyBlockSeqno, env.latest.value)
    }

    /** `sync_key_blocks` once an epoch of the bridge is read. */
    method SendNextOf(epoch: nat, env: Env, ghost m: Moment, ghost source: Source, ghost log: BridgeLog)
      returns (r: Result<(), UploadError>, ghost log': BridgeLog)
      requires Valid(source, log) && HonestEnv(source, log, env)
      requires m.minLt == minBridgeStateLt && IsRead(log, m.minLt, epoch)
      modifies this
      ensures Valid(source, log') && Ends(m, log, Moment(source, log', minBridgeStateLt), env, r.Ok?)
      ensures log' != log ==> KeepsCached(source, log, log', env)
    {
      log' := log;
      var next := FindNextKeyBlock(epoch, env.latest, env.fetch, source);
      if next.Err? {
        SmoothWalkCompletes(source, log, m.minLt, epoch, env);
        return Err(next.error), log';
      }
      if next.value.None? {
        return Ok(()), log';
      }
      WalkFindsNext(source, env.latest.value, epoch, None);
      r, log' := SendNext(epoch, next.value.value, env, m, source, log);
    }

    /** The rest of `sync_key_blocks` once the next key block is found. */
    method SendNext(ghost epoch: nat, keyBlock: KeyBlock, env: Env, ghost m: Moment, ghost source: Source,
                    ghost log: BridgeLog)
      returns (r: Result<(), UploadError>, ghost log': BridgeLog)
      requires Valid(source, log) && HonestEnv(source, log, env) && env.latest.Ok?
      requires m.minLt == minBridgeStateLt && IsRead(log, m.minLt, epoch) && IsNext(source, epoch, keyBlock)
      requires Caches(keyBlocksCache, source, keyBlock.prevKeyBlockSeqno, env.latest.value)
      modifies this
      ensures Valid(source, log') && Ends(m, log, Moment(source, log', minBridgeStateLt), env, r.Ok?)
      ensures log' != log ==> KeepsCached(source, log, log', env)
    {
      ghost var delivery, sent;
      r, delivery, sent := SendKeyBlock(keyBlock, env);
      log' := Adopted(log, keyBlock, delivery);
      assert HonestDelivery(log, keyBlock, env.deliver(keyBlock));
      if r.Ok? {
        AcceptedIsNext(source, log, m.minLt, epoch, keyBlock);
        AdoptingNextVisits(source, log, keyBlock, delivery);
        assert HasSent(source, log, log', keyBlock, env);
        SplitOff(keyBlock.prevKeyBlockSeqno, source, env.latest.value);
      } else {
        SmoothSendEnds(source, log, m.minLt, epoch, keyBlock, env);
      }
    }

    /** `split_off`: cutting off what is below `from` loses nothing from there on. */
    method SplitOff(from: nat, ghost source: Source, ghost latest: nat)
      requires CacheOk(keyBlocksCache, source) && Caches(keyBlocksCache, source, from, latest)
      modifies this`keyBlocksCache
      ensures CacheOk(keyBlocksCache, source) && Caches(keyBlocksCache, source, from, latest)
      ensures keyBlocksCache == map s | s in old(keyBlocksCache) && s >= from :: old(keyBlocksCache)[s]
    {
      keyBlocksCache := map s | s in keyBlocksCache && s >= from :: keyBlocksCache[s];
    }
  }

  /** When nothing fails, the walk for an epoch that was read completes. */
  lemma SmoothWalkCompletes(source: Source, log: BridgeLog, minLt: nat, epoch: nat, env: Env)
    requires SourceOk(source) && IsRead(log, minLt, epoch)
    ensures Smooth(source, log, minLt, env) && IsKnown(Moment(source, log, minLt)) ==>
              && env.latest.Ok? && (forall s | s in source :: env.fetch(s).Ok?)
              && (env.latest.value in source ==> Walk(source, env.latest.value, epoch, None).Ok?)
  {
    if Smooth(source, log, minLt, env) && IsKnown(Moment(source, log, minLt)) && env.latest.value in source {
      assert HasEpoch(source, epoch);
      WalkCompletes(source, env.latest.value, epoch, None);
    }
  }

  /** When nothing fails and the sent key block is not accepted, the epoch read was not the current one. */
  lemma SmoothSendEnds(source: Source, log: BridgeLog, minLt: nat, epoch: nat, b: KeyBlock, env: Env)
    requires VisitsEachEpoch(source, log) && IsRead(log, minLt, epoch) && IsNext(source, epoch, b)
    ensures Smooth(source, log, minLt, env) ==>
              && Sendable(b) && env.libraryDeployed && env.deliver(b).Landed?
              && (env.deliver(b).success || !IsFresh(log, minLt))
  {
    FreshReadIsCurrent(source, log, minLt, epoch);
    assert source[b.seqno] == b;
  }

  /** What is cached of a source is cached of it when it has grown. */
  lemma GrowthKeepsCached(cache: map<nat, KeyBlock>, source: Source, source': Source, from: nat, seen: nat)
    requires Caches(cache, source, from, seen) && Extends(source, source') && seen in source
    ensures Caches(cache, source', from, seen)
  {
  }

  /** After a success, the next walk, with the epoch the bridge had before or any later one, fetches
      nothing up to the newest key block seen then. Only a source that has fallen back behind what
      the cache starts with makes it fetch one key block again, the one the source takes for its
      newest. */
  lemma NothingIsFetchedAgain(source: Source, b: KeyBlock, seen: nat, cache: map<nat, KeyBlock>, latest: nat,
                              epoch: nat, fetched: set<nat>)
    requires SourceOk(source) && latest in source && b.prevKeyBlockSeqno in source
    requires Caches(cache, source, b.prevKeyBlockSeqno, seen)
    requires source[b.prevKeyBlockSeqno].Epoch() <= epoch
    requires fetched !! cache.Keys
    requires FetchesNeeded(source, latest, epoch, fetched)
    ensures forall s | s in fetched :: s > seen || s == latest < b.prevKeyBlockSeqno
  {
    var from := b.prevKeyBlockSeqno;
    forall s | s in fetched && s <= seen ensures s == latest < from {
      assert AllNewer(source, s, latest, epoch);
      assert s < from;
      assert latest < from;
      assert source[latest].Epoch() <= source[from].Epoch();
    }
  }

  /** So it is in the next round of a run, on the source as it has grown by then. */
  lemma NextRoundFetchesNothingAgain(source: Source, source': Source, b: KeyBlock, seen: nat, cache: map<nat, KeyBlock>,
                                     latest: nat, epoch: nat, fetched: set<nat>)
    requires Extends(source, source') && SourceOk(source') && latest in source' && seen in source
    requires b.prevKeyBlockSeqno in source && Caches(cache, source, b.prevKeyBlockSeqno, seen)
    requires source[b.prevKeyBlockSeqno].Epoch() <= epoch
    requires fetched !! cache.Keys && FetchesNeeded(source', latest, epoch, fetched)
    ensures forall s | s in fetched :: s > seen || s == latest < b.prevKeyBlockSeqno
  {
    GrowthKeepsCached(cache, source, source', b.prevKeyBlockSeqno, seen);
    NothingIsFetchedAgain(source', b, seen, cache, latest, epoch, fetched);
  }

  // --- Runs

  /** One round of the endless loop: the log of the bridge when it starts, and what it ends in. */
  datatype Round = Round(log: BridgeLog, env: Env, ok: bool, after: Moment)

  function EndOf(start: Moment, rounds: seq<Round>): Moment {
    if rounds == [] then start else rounds[|rounds| - 1].after
  }

  /** Round after round, whether they succeed or not, while the source and the bridge grow. */
  ghost predicate IsRun(start: Moment, rounds: seq<Round>) {
    rounds == [] || (IsRun(start, rounds[..|rounds| - 1]) && IsRound(start, rounds))
  }

  ghost predicate IsRound(start: Moment, rounds: seq<Round>)
    requires rounds != []
  {
    var last := rounds[|rounds| - 1];
    Syncs(EndOf(start, rounds[..|rounds| - 1]), last.log, last.after, last.env, last.ok)
  }

  ghost predicate IsStart(start: Moment) {
    SourceOk(start.source) && VisitsEachEpoch(start.source, start.log)
  }

  lemma SyncKeepsVisits(m: Moment, log: BridgeLog, m': Moment, env: Env, ok: bool)
    requires Syncs(m, log, m', env, ok)
    ensures VisitsEachEpoch(m'.source, m'.log) && m.log <= log <= m'.log
  {
    if m'.log != log {
      var b :| HasSent(m'.source, log, m'.log, b, env);
      assert HonestDelivery(log, b, env.deliver(b));
      AdoptingNextVisits(m'.source, log, b, Landed(env.deliver(b).lt, true));
    }
  }

  /** Over every run the bridge visits the epochs of the source, as far as it has grown by then, one
      after another, and forgets none; whatever acknowledgements were lost. */
  lemma {:induction false} RunVisitsEachEpoch(start: Moment, rounds: seq<Round>)
    requires IsStart(start) && IsRun(start, rounds)
    ensures var end := EndOf(start, rounds);
            IsStart(end) && start.log <= end.log && Extends(start.source, end.source)
  {
    if rounds != [] {
      var init, last := rounds[..|rounds| - 1], rounds[|rounds| - 1];
      RunVisitsEachEpoch(start, init);
      SyncKeepsVisits(EndOf(start, init), last.log, last.after, last.env, last.ok);
      ExtendsOn(start.source, EndOf(start, init).source, last.after.source);
    }
  }

  lemma ExtendsOn(a: Source, b: Source, c: Source)
    requires Extends(a, b) && Extends(b, c)
    ensures Extends(a, c)
  {
  }

  lemma GrowthKeepsEpoch(source: Source, source': Source, epoch: nat)
    requires Extends(source, source') && HasEpoch(source, epoch)
    ensures HasEpoch(source', epoch)
  {
    var s :| s in source && source[s].Epoch() == epoch;
    assert s in source' && source'[s].Epoch() == epoch;
  }

  lemma {:induction false} SubsetIsSmaller(a: set<nat>, b: set<nat>)
    requires a <= b
    ensures |a| <= |b|
  {
    if a != {} {
      var x :| x in a;
      SubsetIsSmaller(a - {x}, b - {x});
    }
  }

  lemma LaterEpochLeavesFewer(source: Source, epoch: nat, epoch': nat)
    requires epoch <= epoch'
    ensures Pending(source, epoch') <= Pending(source, epoch)
    ensures |Pending(source, epoch')| <= |Pending(source, epoch)|
  {
    SubsetIsSmaller(Pending(source, epoch'), Pending(source, epoch));
  }

  /** The next epoch of a grown source is the epoch of a key block that was pending in the source
      before, as long as any was. */
  lemma NextWasPending(source: Source, source': Source, last: (nat, nat), next: (nat, nat)) returns (s: nat)
    requires Extends(source, source') && EpochsGrow(source') && Follows(source', last, next)
    requires Pending(source, last.1) != {}
    ensures s in Pending(source, last.1) && source[s].Epoch() == next.1
  {
    var t: nat :| t in Pending(source, last.1);
    assert t in source' && source'[t] == source[t];
    s :| s in source' && source'[s].Epoch() == next.1;
    if s !in source {
      assert t < s;
      s := t;
    }
  }

  /** Whenever the bridge adopts something, fewer key blocks are pending of what a source had before,
      until there are none. */
  lemma AdoptionShrinks(source: Source, source': Source, log: BridgeLog, log': BridgeLog)
    requires Extends(source, source') && EpochsGrow(source') && BridgeGrows(source', log, log')
    requires log' != log && Pending(source, CurrentEpoch(log)) != {}
    ensures |Pending(source, CurrentEpoch(log'))| < |Pending(source, CurrentEpoch(log))|
  {
    var k := |log|;
    assert log[k - 1] == log'[k - 1];
    assert Follows(source', log'[k - 1], log'[k]);
    var s := NextWasPending(source, source', log[k - 1], log'[k]);
    LogGrows(source', log', k);
    LogGrows(source', log', k - 1);
    SubsetIsSmaller(Pending(source, CurrentEpoch(log')), Pending(source, CurrentEpoch(log)) - {s});
  }

  /** When a walk from the newest key block of the source finds nothing to send, the source has
      nothing newer than the epoch. */
  lemma NothingNextMeansCaughtUp(source: Source, latest: nat, epoch: nat)
    requires SourceOk(source) && latest in source && (forall s | s in source :: s <= latest)
    requires HasEpoch(source, epoch) && Walk(source, latest, epoch, None) == Ok(None)
    ensures Pending(source, epoch) == {}
  {
    WalkFindsNext(source, latest, epoch, None);
    assert source[latest].Epoch() == epoch;
  }

  lemma NothingPendingMeansNothingBefore(source: Source, source': Source, epoch: nat)
    requires Extends(source, source') && Pending(source', epoch) == {}
    ensures Pending(source, epoch) == {}
  {
    assert Pending(source, epoch) <= Pending(source', epoch);
  }

  /** What can be read stays known while the source and the bridge grow. */
  lemma GrowthKeepsKnown(m: Moment, source': Source, log: BridgeLog)
    requires IsKnown(m) && Extends(m.source, source') && BridgeGrows(source', m.log, log)
    ensures IsKnown(Moment(source', log, m.minLt))
  {
    forall i: nat | CanShow(log, m.minLt, i) ensures HasEpoch(source', log[i].1) {
      if i < |m.log| {
        assert CanShow(m.log, m.minLt, i);
        GrowthKeepsEpoch(m.source, source', m.log[i].1);
      } else {
        assert Follows(source', log[i - 1], log[i]);
      }
    }
  }

  lemma RoundKeepsKnown(m: Moment, log: BridgeLog, m': Moment, env: Env, ok: bool)
    requires Syncs(m, log, m', env, ok) && IsKnown(m)
    ensures IsKnown(Moment(m'.source, log, m.minLt)) && IsKnown(m')
  {
    GrowthKeepsKnown(m, m'.source, log);
    if m'.log == log {
      KnowingMoreKeepsKnown(Moment(m'.source, log, m.minLt), m'.minLt);
    } else {
      SyncKeepsVisits(m, log, m', env, ok);
      GrowthKeepsKnown(Moment(m'.source, log, m.minLt), m'.source, m'.log);
      KnowingMoreKeepsKnown(Moment(m'.source, m'.log, m.minLt), m'.minLt);
    }
  }

  lemma KnowingMoreKeepsKnown(m: Moment, minLt: nat)
    requires IsKnown(m) && VisitsEachEpoch(m.source, m.log) && (minLt == m.minLt || IsFresh(m.log, minLt))
    ensures IsKnown(m.(minLt := minLt))
  {
    forall i: nat | CanShow(m.log, minLt, i) ensures CanShow(m.log, m.minLt, i) {
      if i < |m.log| - 1 {
        LogGrows(m.source, m.log, i + 1);
      }
    }
  }

  // --- Catching up

  /** What the bridge is behind by: the pending key blocks of a source, and one more round if the
      uploader does not know of the last adoption. */
  function Behind(source: Source, m: Moment): nat {
    |Pending(source, CurrentEpoch(m.log))| + if IsFresh(m.log, m.minLt) then 0 else 1
  }

  /** The bridge has everything that the source had. */
  predicate IsCaughtUp(source: Source, log: BridgeLog) {
    Pending(source, CurrentEpoch(log)) == {}
  }

  /** While the source and the bridge grow, the bridge falls behind no further. */
  lemma GrowthKeepsBehind(source: Source, source': Source, log: BridgeLog, log': BridgeLog, minLt: nat)
    requires Extends(source, source') && EpochsGrow(source') && BridgeGrows(source', log, log')
    ensures IsCaughtUp(source, log) ==> IsCaughtUp(source, log')
    ensures IsCaughtUp(source, log)
            || Behind(source, Moment(source', log', minLt)) <= Behind(source, Moment(source', log, minLt))
  {
    LogGrows(source', log', |log| - 1);
    LaterEpochLeavesFewer(source, CurrentEpoch(log), CurrentEpoch(log'));
    if log' != log && !IsCaughtUp(source, log) {
      AdoptionShrinks(source, source', log, log');
    }
  }

  /** A success with nothing to send, when nothing fails, means that the bridge has caught up. */
  lemma NothingToSendMeansCaughtUp(source: Source, source': Source, log: BridgeLog, minLt: nat, env: Env)
    requires Extends(source, source') && SourceOk(source') && VisitsEachEpoch(source', log)
    requires HonestEnv(source', log, env)
    requires Smooth(source', log, minLt, env) && IsKnown(Moment(source', log, minLt))
    requires NothingToSend(source', log, minLt, env)
    ensures IsCaughtUp(source, log)
  {
    var epoch :| IsRead(log, minLt, epoch) && Walk(source', env.latest.value, epoch, None) == Ok(None);
    FreshReadIsCurrent(source', log, minLt, epoch);
    NothingNextMeansCaughtUp(source', env.latest.value, epoch);
    LaterEpochLeavesFewer(source', epoch, CurrentEpoch(log));
    NothingPendingMeansNothingBefore(source, source', CurrentEpoch(log));
  }

  lemma SendingLeavesFewer(source: Source, source': Source, log: BridgeLog, log': BridgeLog, b: KeyBlock, env: Env)
    requires Extends(source, source') && EpochsGrow(source') && VisitsEachEpoch(source', log)
    requires HonestEnv(source', log, env)
    requires HasSent(source', log, log', b, env) && !IsCaughtUp(source, log)
    ensures |Pending(source, CurrentEpoch(log'))| < |Pending(source, CurrentEpoch(log))|
  {
    assert HonestDelivery(log, b, env.deliver(b));
    AdoptingNextVisits(source', log, b, Landed(env.deliver(b).lt, true));
    AdoptionShrinks(source, source', log, log');
  }

  /** A round itself leaves the bridge no further behind, and less far if nothing fails. */
  lemma RoundLeavesLess(source: Source, m: Moment, log: BridgeLog, m': Moment, env: Env, ok: bool)
    requires Extends(source, m'.source) && Syncs(m, log, m', env, ok) && !IsCaughtUp(source, log)
    requires IsKnown(Moment(m'.source, log, m.minLt))
    ensures Behind(source, m') + (if Smooth(m'.source, log, m.minLt, env) then 1 else 0)
            <= Behind(source, Moment(m'.source, log, m.minLt))
  {
    if m'.log != log {
      var b :| HasSent(m'.source, log, m'.log, b, env);
      SendingLeavesFewer(source, m'.source, log, m'.log, b, env);
    } else if ok && Smooth(m'.source, log, m.minLt, env) {
      NothingToSendMeansCaughtUp(source, m'.source, log, m.minLt, env);
    }
  }

  lemma CaughtUpStays(source: Source, m: Moment, log: BridgeLog, m': Moment, env: Env, ok: bool)
    requires Extends(source, m'.source) && Syncs(m, log, m', env, ok) && IsCaughtUp(source, log)
    ensures IsCaughtUp(source, m'.log)
  {
    SyncKeepsVisits(m, log, m', env, ok);
    LogGrows(m'.source, m'.log, |log| - 1);
    LaterEpochLeavesFewer(source, CurrentEpoch(log), CurrentEpoch(m'.log));
  }

  /** How many rounds of a run go smoothly. */
  ghost function SmoothRounds(start: Moment, rounds: seq<Round>): nat {
    if rounds == [] then 0
    else
      var init, last := rounds[..|rounds| - 1], rounds[|rounds| - 1];
      SmoothRounds(start, init)
      + if Smooth(last.after.source, last.log, EndOf(start, init).minLt, last.env) then 1 else 0
  }

  /** Each smooth round of a run leaves the bridge less far behind of what the source had at the
      start, until it has caught up. */
  lemma {:induction false} SmoothRoundsShrink(start: Moment, rounds: seq<Round>)
    requires IsStart(start) && IsRun(start, rounds) && IsKnown(start)
    ensures var end := EndOf(start, rounds);
            && IsKnown(end)
            && (IsCaughtUp(start.source, end.log)
                || Behind(start.source, end) + SmoothRounds(start, rounds) <= Behind(start.source, start))
  {
    if rounds != [] {
      var init, last := rounds[..|rounds| - 1], rounds[|rounds| - 1];
      var m := EndOf(start, init);
      SmoothRoundsShrink(start, init);
      RunVisitsEachEpoch(start, rounds);
      RoundKeepsKnown(m, last.log, last.after, last.env, last.ok);
      GrowthKeepsBehind(start.source, last.after.source, m.log, last.log, m.minLt);
      if IsCaughtUp(start.source, last.log) {
        CaughtUpStays(start.source, m, last.log, last.after, last.env, last.ok);
      } else {
        RoundLeavesLess(start.source, m, last.log, last.after, last.env, last.ok);
      }
    }
  }

  lemma CaughtUpMeansNoneNewer(source: Source, m: Moment)
    requires IsCaughtUp(source, m.log) || Behind(source, m) == 0
    ensures forall s | s in source :: source[s].Epoch() <= CurrentEpoch(m.log)
  {
    assert Pending(source, CurrentEpoch(m.log)) == {};
    forall s | s in source ensures source[s].Epoch() <= CurrentEpoch(m.log) {
      assert s !in Pending(source, CurrentEpoch(m.log));
    }
  }

  /** No more than all key blocks of the source are ever pending. */
  lemma BehindIsBounded(source: Source, m: Moment)
    ensures Behind(source, m) <= |source| + 1
  {
    SubsetIsSmaller(Pending(source, CurrentEpoch(m.log)), source.Keys);
  }

  /** Catching up: after as many smooth rounds as key blocks were pending at the start (and one more
      if the uploader does not know of the last adoption), whatever rounds failed in between, whatever
      acknowledgements were lost and however the source has grown meanwhile, the bridge has an
      epoch at least as new as every key block the source had at the start. */
  lemma RunCatchesUp(start: Moment, rounds: seq<Round>)
    requires IsStart(start) && IsRun(start, rounds) && IsKnown(start)
    requires SmoothRounds(start, rounds) >= Behind(start.source, start)
    ensures forall s | s in start.source :: start.source[s].Epoch() <= CurrentEpoch(EndOf(start, rounds).log)
  {
    SmoothRoundsShrink(start, rounds);
    CaughtUpMeansNoneNewer(start.source, EndOf(start, rounds));
  }
}
