# TON/Tycho bridge: a verified model

A Dafny model of the parts of the bridge repository that keep state or transform data, with proofs of
what they promise.

- **The light node's proof storage** (`StorageKeys`, `ProofStorage`, `World`, `TableRows`,
  `LightNode`, `LightCollection`, `LightStranding`, `LightProofs`, `LightSubscriber`, `FirstProof`):
  five ordered byte-key tables, one atomic batch per block, age-based collection by key ranges, a
  read snapshot, restarts, and the order in which the block subscriber drives them. The main
  theorems speak of every state any run can reach: the tables hold exactly the rows that the history
  of stored blocks and collections says; a block is refused only for its signatures; a proof can be
  built exactly when all rows on its way are there and the chain of blocks can be packed, whenever
  its index row was read; and then it checks itself. That collection takes no row that a surviving
  index row needs is true except after one kind of step, which is given with its exact condition and
  with what it strands.
- **What a proof shows** (`Verifier`): someone who knows nothing but the hash of a masterchain block
  can follow a built proof from hash to hash down to the transaction, and whatever passes that
  check, whoever made it, is a transaction of the chain.
- **Proof construction** (`Cells`, `Dicts`, `ShardTree`, `Blocks`, `TxProofs`, `McProofs`,
  `ProofChain`, `Signatures`): pruning along a usage tree, lookups in pruned blocks, the descent in
  shard trees, packing a proof chain, and the arithmetic of signature quorums.
- **Transaction search** (`TransactionSearch`): polling, batching and retrying over a hash-linked
  history, with a sound verdict that a message expired.
- **The key-block uploader** (`Uploader`): a cached backward walk that finds the next epoch, a guard
  against reading an old bridge state, and whole runs on a growing source that visit the epochs one
  after another and catch up, also when acknowledgements are lost or others send key blocks too.
- **ADNL over TCP** (`AdnlFraming`, `QueriesCache`): the packet encoder, the incremental reader, and
  the table of pending queries under any interleaving.

## How the model speaks of the code

- Code that updates state is a class whose methods are proved against functions or relations on the
  old and new state; a run is a sequence of states whose steps are those methods' effects.
- A cell is a tree with data and references. Its hash is symbolic, as of a collision-free hash, and
  a pruned part carries the hash of what it stands for. Serialising a cell loses nothing. A pruned
  cell may keep any cells beyond those visited (`prune_big_cells`): the extra marks are a parameter
  of every method that prunes, and all theorems hold for every choice.
- The repository checks after each pruning that the hash is unchanged. That this check can never
  fail is proved (`Cells.PruneKeepsHash`); its error branch is therefore absent.
- `make_proof_chain` is read literally. `iter.by_ref().take(k).rev()` asks the borrowed iterator for
  its `k`-th element from the back first, which consumes everything before it. So after the part
  that is not a multiple of three has been taken, no blocks are left for full cells: the function
  completes exactly for at most three shard blocks or for a count that is 1 modulo 3, and panics
  otherwise (in `build_proof` that panic surfaces as an error). The theorems about built proofs
  carry that condition.
- The random nonce that `encrypt_data` draws is never written into the packet. The filler is what
  moving the payload up leaves behind: the payload's own bytes 4 to 36, padded with zeros.
- The `+ 1` of a collection bound wraps at the integer maximum, and then its range is empty. The
  range lemmas say so: each is exact if and only if the bound is below the maximum.
- What the chain guarantees comes in two parts. `World.OrderedWorld` is what collection rests on.
  Blocks are well formed and complete, and account blocks sit under the account they name. End times
  and generation times of masterchain blocks never decrease, a transaction is not later than the end
  time of its masterchain block, and what lies under a shard top of a masterchain block belongs to
  that masterchain block or an earlier one. `World.ValidWorld` adds what proofs rest on. A
  masterchain block names the seqno and the root hash of the top block of each shard, and a shard
  block the root hash of the block before it. There is no split or merge between a block and the top
  of its shard in its masterchain block. What the tables hold at all (`LightNode.Recorded`) needs no
  more than well-formed blocks.
- A run of the light node prepares the blocks of the next masterchain block in any order and any
  number of times, handles it, and may restart on its database after any masterchain block handled
  before. Any block can be skipped as outdated; the theorems say what follows for the others.
- A history (`TableRows.History`) tells which blocks were stored, after how many collections each,
  and by which masterchain block each collection was bound. In every reachable state the live tables
  and the snapshot hold exactly what their histories say, whatever was collected.
- "Collection strands nothing" is false of the code at one step, the storing of a masterchain block
  whose batch is bound ahead of what is handled (`LightCollection.Ahead`): the block brings a
  collection, is not skipped, and some timing row that is old enough tells a masterchain block after
  the last handled one. This comes about only when a masterchain block from this one on was stored
  before (it is prepared again, or after a restart), and only in the last second before it is
  skipped, when its age is exactly the lifetime of proofs. The batch then deletes the pivot and the
  pruned block that it has just written, and a shard block stored afterwards is indexed although no
  proof of it can be built. `LightStranding.SecondTimeIsAhead` and `LightStranding.AheadStrands`
  show both, and `LightCollection.PrepareKeepsInv` and `LightCollection.RunKeepsInv` say that
  nothing else breaks the invariant but a restart that goes back to before the bound of a
  collection.
- The acknowledgement of a key block can be lost after the message is out. The bridge may therefore
  have moved on between two rounds of the uploader without its knowledge. It accepts only newer
  epochs, so a stale reading of its state leads to a rejection, from which the uploader learns the
  time.
- Ed25519 verification, SHA-256 and the key stream are parameters: any function of the right type.
  So are clocks, answers of servers, arrivals of bytes and deliveries of messages.

## Model

| member | source | states |
|---|---|---|
| Bytes.BigEndianOrder | proof-api-l2/src/storage/mod.rs:222-225 | on big-endian integers of one width the byte order of the key-value store is the numeric order, and equal keys mean equal numbers |
| Bytes.LittleEndianRoundTrip | proof-api-l2/src/storage/mod.rs:601 | little-endian integers are read back as they were written |
| Cells.PruneKeepsHash | util/src/block/mod.rs:385-391 | pruning any parts of a cell keeps its hash, so the check after pruning never fails |
| Cells.PruneAll | util/src/block/mod.rs:408-410 | what is touched recursively is kept unchanged |
| Dicts.FoundIsEntry | util/src/block/mod.rs:541 | a lookup in a readable dictionary is never undecided, and what it finds is an entry of the iteration |
| Dicts.EntryIsFound | util/src/block/mod.rs:367-368 | every entry of the iteration is found again by its own key, at its own place |
| Dicts.GetAfterPrune | util/src/block/mod.rs:541-552 | a lookup whose way is kept gives the same answer in the pruned dictionary, found or not |
| Dicts.EntriesAfterPrune | util/src/block/mod.rs:367-383 | iterating a dictionary whose nodes are kept gives the same keys in the same order, with the leaves pruned |
| Dicts.EntriesInOrder | util/src/block/mod.rs:367-368 | an iteration lists the entries in the order of their keys |
| Dicts.ForkIsReadable | util/src/block/mod.rs:367-368 | a fork can be iterated if and only if both branches can, with keys shorter by its edge and one bit |
| ShardTree.PathOfPrefix | util/src/block/mod.rs:569-582 | a path of at most 63 turns is spelled by its prefix: the bits above the lowest set bit |
| ShardTree.PrefixOfPath | util/src/block/mod.rs:569-582 | every nonzero 64-bit prefix is the prefix of the path it spells |
| ShardTree.FindShardDescr | util/src/block/mod.rs:566-591 | the loop ends for every cell and prefix and is the descent along the spelled path; for prefix zero it ends with an error |
| ShardTree.DescendMatchesLeaves | util/src/block/mod.rs:566-591 | the descent gives a leaf if and only if the enumeration has exactly that leaf at exactly that path |
| ShardTree.ForkIsReadable | util/src/block/mod.rs:566-591 | a fork can be enumerated if and only if both branches can, the left one first |
| ShardTree.ShardDescentIsExact | util/src/block/mod.rs:566-591 | the same by prefixes, for all of them, and each enumerated leaf is found again by its own prefix |
| Blocks.UsageTree.Visit | util/src/block/mod.rs:350-352 | a visit adds marks and forgets none |
| Blocks.LookupMatchesList | util/src/block/mod.rs:364-382 | a transaction is listed by the iteration of a block if and only if the two lookups of a transaction proof find it |
| Blocks.TxIdsReadable | util/src/block/mod.rs:367-383 | the transactions of an account can be listed if and only if each leaf has the cell of its transaction |
| Blocks.FindTxAfterPrune | util/src/block/mod.rs:528-552 | with the way of a lookup kept, the pruned block gives the same answer |
| Blocks.PrunedBlockCoversTx | util/src/block/mod.rs:354-377 | what a pruned block keeps covers the way to any account and time, and the block info of masterchain blocks |
| TxProofs.MakePrunedBlock | util/src/block/mod.rs:345-394 | succeeds if and only if the transactions can be iterated, reports exactly these, and keeps all that was visited |
| TxProofs.MakeTxProof | util/src/block/mod.rs:517-564 | a proof, nothing or an error exactly as the lookups in the block say, and a proof keeps the way of the lookup |
| TxProofs.PruningComposes | util/src/block/mod.rs:345-394 | in a pruned block the lookup of a transaction proof succeeds for exactly the transactions reported when it was made; the hash is that of the full block, and so is the whole info of a masterchain block |
| TxProofs.TxProofOpens | util/src/block/mod.rs:517-564 | a transaction proof has the hash of the block it is made from, leads to the transaction, and with the info shows the block before |
| McProofs.DescentMatchesEnumeration | util/src/block/tycho.rs:208-231 | the seqno found for a shard is that of the shard's block among the enumerated top blocks, and there is none exactly when the shard is not enumerated |
| McProofs.TopIdsReadable | util/src/block/tycho.rs:208-216 | the top blocks of a workchain can be listed if and only if every description has one of the two tags and is not too deep |
| McProofs.MakePivotBlockProof | util/src/block/mod.rs:399-433 | when it succeeds, both ways, and that it keeps block info and all shard descriptions (masterchain) or the info (shards) |
| McProofs.PivotOpens | util/src/block/mod.rs:139-155 | the bounds read from a pivot are those of the full masterchain block, and its info is unchanged |
| McProofs.MakeMcProof | util/src/block/mod.rs:480-512 | when it succeeds, both ways, with the seqno of the shard's top block |
| McProofs.McProofOfPivotOpens | util/src/block/mod.rs:480-512 | a masterchain proof made from a pivot has the hash of the full block and tells the same top of the shard |
| ProofChain.TakeReversed | util/src/block/mod.rs:304-308 | what the reversed taking yields, in which order, and that it uses the iterator up |
| ProofChain.MakeProofChain | util/src/block/mod.rs:284-340 | completes if and only if there are at most three shard blocks or their count is 1 modulo 3; then unpacking gives all parts back with the shard blocks in order, no cell has more than four references, and the depth is a third of the blocks after the first, rounded up |
| ProofChain.PackFive | util/src/block/mod.rs:299-327 | five shard blocks of any content make it panic |
| Signatures.CheckSignatures | util/src/block/mod.rs:233-281 | accepts exactly when every signature can be read and names a listed key, the last one of each node verifies and the nodes named weigh more than two thirds, with no overflow |
| Signatures.QuorumsIntersect | util/src/block/mod.rs:265-280 | any two accepted sequences for one validator set name common signers, and these weigh more than one third |
| Signatures.PrepareSignatures | util/src/block/mod.rs:192-231 | succeeds exactly for at least one readable signature by distinct listed nodes, and then stores for each of them its place and the very signature given |
| Signatures.SignedEntriesExact | util/src/block/mod.rs:214-223 | the dictionary has each signer once, at its position, with its signature, in increasing order, and weighs what the check counts |
| Signatures.CollectedIsLast | util/src/block/mod.rs:239-243 | collecting succeeds exactly if every signature can be read, and keeps for each node the last signature given |
| Signatures.PreparedExactly | util/src/block/mod.rs:205-230 | in terms of the given sequence alone: when the dictionary exists, and that it has exactly the places of the named validators with the signatures given for them, in increasing order |
| Signatures.AcceptedExactly | util/src/block/mod.rs:233-281 | in terms of the given sequence alone: what an accepted block needs of it |
| Signatures.MakeEpochData | util/src/block/mod.rs:158-189 | fails exactly on a short list or an overflow, and holds the main validators, their times and the cutoff |
| Signatures.PreparedAgreesWithCheck | util/src/block/mod.rs:180 | for distinct signers and a list of exactly the main validators, the check accepts if and only if the prepared dictionary exists, all its signatures verify and it reaches the cutoff of the epoch data, with no overflow |
| StorageKeys.BlockKeyDecodes | proof-api-l2/src/storage/mod.rs:238-243 | a block key is decoded to its shard and seqno |
| StorageKeys.BlockKeyLayout | proof-api-l2/src/storage/mod.rs:300-303 | a block key byte by byte: workchain, prefix and seqno, big-endian |
| StorageKeys.TxKeyLayout | proof-api-l2/src/storage/mod.rs:473-482 | an index key byte by byte: time, workchain and account, big-endian |
| StorageKeys.NumberLayout | proof-api-l2/src/storage/mod.rs:460-465 | the masterchain seqno in an index value is little-endian, a 32-bit key big-endian |
| StorageKeys.TxValueDecodes | proof-api-l2/src/storage/mod.rs:460-465 | an index value is decoded to its block and masterchain seqno and starts with the block's key |
| StorageKeys.TxKeyIsInjective | proof-api-l2/src/storage/mod.rs:480-481 | different transactions have different index keys |
| StorageKeys.BlockRangeExact | proof-api-l2/src/storage/mod.rs:571-589 | a block range holds exactly the keys of the same shard up to the bound, and nothing when the bound wraps |
| StorageKeys.TxRangeExact | proof-api-l2/src/storage/mod.rs:562-569 | the transaction range holds exactly the keys of all accounts with a time up to the bound, and nothing when the bound wraps |
| StorageKeys.TimingRangeExact | proof-api-l2/src/storage/mod.rs:557-560 | the timings range holds exactly the times up to the bound, and nothing when the bound wraps |
| StorageKeys.RangesDeleteUpToTheBound | proof-api-l2/src/storage/mod.rs:556-590 | each range deletes exactly what is up to its bound if and only if the bound is below the integer maximum |
| ProofStorage.SeekForPrev | proof-api-l2/src/storage/mod.rs:595-602 | finds the last key not after the target, and nothing only if all are after it |
| ProofStorage.FindOutdatedBound | proof-api-l2/src/storage/mod.rs:594-625 | the bound is that of the masterchain block of the last timing that is old enough; it fails exactly when that block's pivot cannot be read |
| ProofStorage.SeqnoValueLayout | proof-api-l2/src/storage/mod.rs:451-455 | the value of a timing is the seqno, little-endian |
| ProofStorage.WithTxsExact | proof-api-l2/src/storage/mod.rs:473-485 | the index after a block has exactly its old rows and one for each transaction, which wins |
| ProofStorage.WithoutBlocksExact | proof-api-l2/src/storage/mod.rs:527-530 | a block row survives the deletions exactly if it is above every bound of its shard, and is unchanged |
| ProofStorage.WriteBlock | proof-api-l2/src/storage/mod.rs:436-505 | the writing half of the batch gives the five tables with exactly the rows of the block added |
| ProofStorage.Collect | proof-api-l2/src/storage/mod.rs:507-532 | the deleting half takes exactly the ranges of the bound out of four tables; signatures stay |
| ProofStorage.Storage.UpdateSnapshot | proof-api-l2/src/storage/mod.rs:210-213 | the snapshot becomes the live tables |
| ProofStorage.Storage.SetCurrentVset | proof-api-l2/src/storage/mod.rs:215-217 | the current validator set is replaced |
| ProofStorage.Storage.StoreBlock | proof-api-l2/src/storage/mod.rs:357-547 | when it skips, by workchain and age, when it writes and when it fails, all exactly; a failure or a skip changes nothing, and a write is the whole batch |
| ProofStorage.Storage.ReadIndex | proof-api-l2/src/storage/mod.rs:219-238 | the row of the live index, or nothing exactly if there is none |
| ProofStorage.Storage.BuildFromRow | proof-api-l2/src/storage/mod.rs:254-353 | from a row read before, a proof exactly when the snapshot has all rows it needs by then, made of exactly those rows with the newest shard block first |
| ProofStorage.Storage.BuildProof | proof-api-l2/src/storage/mod.rs:219-354 | nothing exactly without a live index row; otherwise a proof exactly when the snapshot has all rows it needs, made of exactly those rows with the newest shard block first |
| ProofStorage.WalkPivots | proof-api-l2/src/storage/mod.rs:322-337 | collects the pivots from the top of the shard down by one to the block above that of the transaction, and fails exactly if one is missing |
| World.VsetIsOfLatestKeyBlock | proof-api-l2/src/storage/mod.rs:161-208 | the tracked validator set is that of the latest key block, or the initial one if there was none |
| TableRows.TimingsPointAtPivots | proof-api-l2/src/storage/mod.rs:451-455 | every timing row tells a stored hundredth masterchain block; its pivot is there if and only if no collection since takes it, and then gives the bounds of the full block |
| TableRows.BoundIsAtStoredBlock | proof-api-l2/src/storage/mod.rs:594-625 | a collection is bound by a stored masterchain block that is old enough, the one of the last old enough timing |
| TableRows.StoreKeepsTables | proof-api-l2/src/storage/mod.rs:438-537 | after one batch, with or without a collection, all five tables hold exactly what the history with the block and its collection says, timings included, and the bound is an old masterchain block stored before |
| LightNode.RunIsRecorded | proof-api-l2/src/cmd/run.rs:134-250 | at the end of every run, whatever its order, restarts and collections, the live tables and the snapshot hold exactly what their histories say, and every collection was bound by a masterchain block as old as proofs are kept; signatures stored with a masterchain block are prepared with the set of the latest key block strictly before it |
| LightNode.StorableExactly | proof-api-l2/src/storage/mod.rs:394-546 | in every reachable state a block of the chain can be stored if and only if its signatures belong to the current validator set |
| LightNode.BlockRowsExactly | proof-api-l2/src/storage/mod.rs:507-532 | the pruned block and the pivot of a block are there if and only if it is stored and no collection since takes it |
| LightNode.TimingRowsExactly | proof-api-l2/src/storage/mod.rs:451-455 | there is a timing exactly for the times of the stored hundredth masterchain blocks since whose storing no collection has removed timings of that time |
| LightNode.YoungTimingStays | proof-api-l2/src/storage/mod.rs:451-455 | a stored hundredth masterchain block keeps its timing as long as it is younger than proofs are kept, whatever is stored after it |
| LightNode.TakenUpToTop | proof-api-l2/src/storage/mod.rs:571-589 | a collection takes every block row of a shard up to the block that the bounding masterchain block names for it |
| LightNode.VanishedShardStays | proof-api-l2/src/storage/mod.rs:571-589 | a collection takes no block row of a shard that the bounding masterchain block does not name |
| LightNode.IndexedExactly | proof-api-l2/src/storage/mod.rs:562-569 | a transaction is indexed if and only if a block with it is stored and no collection since its storing is bound by a masterchain block that ended at or after the transaction: the exact condition under which a young masterchain block loses index rows early |
| LightNode.YoungIsRetained | proof-api-l2/src/storage/mod.rs:594-625 | a stored transaction is still indexed if every masterchain block as old as proofs are kept ended before it |
| LightCollection.CollectionStrandsNothing | proof-api-l2/src/storage/mod.rs:507-532 | under that invariant every surviving index row still has its pruned block and, once its masterchain block is stored, the signatures, that masterchain pivot and every stored shard pivot of that masterchain block; shards may split and merge |
| LightCollection.BoundAdvances | proof-api-l2/src/storage/mod.rs:594-625 | as long as no collection was bound ahead, each is bound after all earlier ones |
| LightCollection.CollectsExactly | proof-api-l2/src/storage/mod.rs:594-625 | a batch that looks for something to collect collects if and only if a masterchain block with a timing is old enough, as long as the pivots of these are there, and is then bound by the last of them |
| LightCollection.DuePivotsAreThere | proof-api-l2/src/storage/mod.rs:594-625 | as long as no collection was bound ahead, these pivots are there |
| LightCollection.DueIsCollected | proof-api-l2/src/storage/mod.rs:507-532 | what is old enough goes: after such a batch no old enough timing is left, and no transaction and no masterchain block up to the last that was due |
| LightCollection.PrepareKeepsInv | proof-api-l2/src/cmd/run.rs:201-204 | preparing a block, for the first time or again, stored or skipped, keeps the invariant under which nothing is stranded if and only if no old enough timing tells a masterchain block that is not handled yet (or the block looks for none) |
| LightCollection.HandleKeepsInv | proof-api-l2/src/cmd/run.rs:229-245 | handling a masterchain block keeps the invariant of the node |
| LightCollection.RestartKeepsInv | proof-api-l2/src/storage/mod.rs:119-208 | a restart on the database keeps that invariant if and only if it goes on from no earlier than the bound of every collection |
| LightCollection.RunKeepsInv | proof-api-l2/src/cmd/run.rs:134-250 | that invariant holds all along a run if and only if none of its steps puts a collection ahead of what is handled, whatever the order and number of preparations, the restarts, the clock and the lifetime of proofs |
| LightStranding.AheadIsLastSecond | proof-api-l2/src/storage/mod.rs:372-377 | a batch is bound ahead only when the generation time of its block is exactly the time up to which it collects, the last second in which the block is not skipped, and a masterchain block from this one on was stored before |
| LightStranding.SecondTimeIsAhead | proof-api-l2/src/storage/mod.rs:594-625 | it happens: a masterchain block that brings a collection, stored once and then again at exactly that age |
| LightStranding.BoundAheadTakesItself | proof-api-l2/src/storage/mod.rs:594-625 | a batch bound by a masterchain block at or after its own takes away the pivot it has just written |
| LightStranding.OwnRowsStayExactly | proof-api-l2/src/storage/mod.rs:438-537 | after the batch of a masterchain block its pruned block and its pivot are there if and only if the batch was not bound ahead |
| LightStranding.AheadStrands | proof-api-l2/src/storage/mod.rs:229-340 | what follows: every transaction of a shard block stored after such a batch has an index row, but the pivot of its masterchain block is gone and no proof of it can be built |
| LightProofs.BuildableExactly | proof-api-l2/src/storage/mod.rs:229-340 | for an index row of any reachable state and the snapshot of any other, a proof can be built if and only if every block on the way has its rows in the snapshot, taken by no collection since it was stored, and the chain can be packed; as long as the collections are bound before the row that is when the snapshot has seen every block on the way, and for handled masterchain blocks that is when none of them was skipped |
| LightProofs.ProofIsRight | proof-api-l2/src/storage/mod.rs:229-353 | a proof built from an index row of any reachable state and the snapshot of any other passes the check of hashes from the masterchain block down, is made of the chain's own blocks from the top of the shard down by one to the transaction's block, with the file hash and the signatures of the right validator set |
| LightProofs.VerifiedIsGenuine | util/src/block/mod.rs:399-433 | any cells that pass the check against the hash of a masterchain block of the chain are the chain's blocks from the top of the shard down, as far as these are known without a gap, and if they all are, the transaction is one of the block at that place |
| Verifier.FindTxOpens | util/src/block/mod.rs:528-552 | a transaction that any opening of a block leads to is in the full block |
| Verifier.PrevRootHashOpens | util/src/block/mod.rs:417-420 | the hash of the block before, as an opening shows it, is that of the full block |
| Verifier.TopDescrOpens | util/src/block/mod.rs:480-512 | the top of a shard, as an opening of a masterchain block shows it, is that of the full block |
| LightSubscriber.Subscriber.constructor | proof-api-l2/src/storage/mod.rs:161-208 | a fresh storage with the initial validator set starts a run |
| LightSubscriber.Subscriber.Restarted | proof-api-l2/src/storage/mod.rs:119-208 | a storage opened on the database of any reachable state makes the restarting step of a run, and tells when that keeps the invariant |
| LightSubscriber.Subscriber.PrepareBlock | proof-api-l2/src/cmd/run.rs:134-207 | is one step of a run when it succeeds and no step when it fails, and fails exactly for missing or unusable signatures; it may be repeated at any time, and keeps the invariant under which nothing is stranded exactly if its batch is not bound ahead |
| LightSubscriber.Subscriber.HandleBlock | proof-api-l2/src/cmd/run.rs:209-249 | is one step of a run: snapshot first, then the validator set of a key block; it keeps the invariant |
| LightSubscriber.Subscriber.ReadIndex | proof-api-l2/src/storage/mod.rs:219-238 | there is an index row exactly for a transaction that survives: of a stored block, and not reached by a collection since |
| LightSubscriber.Subscriber.BuildFromRow | proof-api-l2/src/storage/mod.rs:254-353 | from a row of any earlier or later moment, a proof is built exactly when the snapshot has all rows on the way and the chain can be packed, and what is built proves the transaction |
| LightSubscriber.Subscriber.BuildProof | proof-api-l2/src/storage/mod.rs:219-354 | at any moment of a run nothing is answered exactly for a transaction that does not survive, otherwise a proof is given exactly when all rows on the way are there and the chain can be packed, and it proves the transaction; under the invariant collection never makes it fail |
| FirstProof.ChainIsValid | proof-api-l2/src/storage/mod.rs:357-547 | what is assumed of a chain can be met, by a shard block with any one transaction and a masterchain block that names it |
| FirstProof.ProveFirst | proof-api-l2/src/cmd/run.rs:134-250 | over that chain the node stores both blocks, handles the masterchain block and hands out a proof of the transaction |
| TransactionSearch.NewestMatchIsNewest | sync-service/src/client/mod.rs:133-137 | the specification of a search: the transaction with exactly that incoming message that has no newer one, or none exactly if no transaction after the known time has it |
| TransactionSearch.DoFindTransaction | sync-service/src/client/mod.rs:120-151 | ends for every server; without an error it gives the newest transaction after the known time whose incoming message has exactly the hash, or that there is none, however the history is batched, and it has no error when the batches follow the links |
| TransactionSearch.FindWithRetries | sync-service/src/client/mod.rs:152-163 | retries give the same answer, and none only if no attempt was served |
| TransactionSearch.RaisingSkipsNothing | sync-service/src/client/mod.rs:172-180 | raising the known time after a search without a match skips no transaction |
| TransactionSearch.ToldIsKnown | sync-service/src/client/mod.rs:172-180 | the known time is never less than what it was first, nor than any time told so far |
| TransactionSearch.KnownIsTold | sync-service/src/client/mod.rs:172-180 | and it is one of these |
| TransactionSearch.FindTransaction | sync-service/src/client/mod.rs:106-198 | over all polls: it finds only a transaction whose incoming message has exactly the hash, the newest one of a state it saw; it gives up only when the answer to the known time it really asked with was generated after the deadline and none of that state's transactions after the first known time has the message; and if it goes on after served polls, no answer was late and no state had the message |
| TransactionSearch.SendMessageReliable | sync-service/src/client/mod.rs:58-74 | the verdict that a message expired is final when the account takes no message after its deadline |
| Uploader.WalkFindsNext | sync-service/src/service/mod.rs:285-316 | the uncached walk gives the next key block of the epoch, and nothing only if it starts in that epoch or the source has no key block of it |
| Uploader.WalkCompletes | sync-service/src/service/mod.rs:285-316 | the walk ends without an error when the source goes back far enough |
| Uploader.KeyBlockUploader.GetKeyBlock | sync-service/src/service/mod.rs:318-341 | gives the source's block, from the cache if it is there, and then remembers it |
| Uploader.KeyBlockUploader.FindNextKeyBlock | sync-service/src/service/mod.rs:285-316 | the cached walk refines the uncached one and fetches only what is not cached |
| Uploader.KeyBlockUploader.GetCurrentEpoch | sync-service/src/service/mod.rs:343-422 | no state older than the last sent block's transaction is used, so the epoch is the one the bridge is in |
| Uploader.KeyBlockUploader.SendKeyBlock | sync-service/src/service/mod.rs:184-283 | sends exactly a key block that can be sent once its library is deployed, with the given signatures by places of the previous set and the epoch data of the current one; succeeds exactly on a successful delivery, and remembers the transaction's time even if the bridge rejected the block |
| Uploader.SendableExactly | sync-service/src/service/mod.rs:192-200 | a key block can be sent if and only if it has signatures, each by another validator of the previous set, and all main validators of the current set, with weights that fit |
| Uploader.AcceptedIsSendable | sync-service/src/service/mod.rs:192-196 | one that the previous set has accepted can be sent, whatever the new set is, and one with a signer outside the previous set cannot |
| Uploader.KeyBlockUploader.SyncKeyBlocks | sync-service/src/service/mod.rs:148-182 | one round, on a source and a bridge that have grown since the last one, adds at most one epoch to the bridge, that of the key block next to what it is really in; a success means that it did or that there was nothing to send for the epoch read; and when nothing fails it succeeds or learns of an adoption that it did not know of |
| Uploader.AdoptingNextVisits | sync-service/src/service/mod.rs:148-182 | sending the next key block extends the visited epochs without skipping or repeating one |
| Uploader.AcceptedIsNext | sync-service/src/service/mod.rs:285-316 | a key block that is next for some epoch that a possibly stale bridge state shows, and that the bridge accepts, is next for the epoch the bridge is in |
| Uploader.GrowthKeepsVisits | sync-service/src/service/mod.rs:132-146 | later key blocks never make the bridge have skipped an epoch |
| Uploader.NothingIsFetchedAgain | sync-service/src/service/mod.rs:174-177 | after a success, whatever newest key block the source tells next and with the old or a newer epoch, nothing up to the newest key block seen before is fetched, except one key block when the source has fallen back behind the start of the cache |
| Uploader.NextRoundFetchesNothingAgain | sync-service/src/service/mod.rs:132-177 | the same for the next round of a run, on a source that has grown meanwhile |
| Uploader.RunVisitsEachEpoch | sync-service/src/service/mod.rs:132-182 | over every run of rounds, failing or not, with lost acknowledgements and other senders, on a growing source, the bridge visits the epochs of the source one after another, skips none and forgets none |
| Uploader.RunCatchesUp | sync-service/src/service/mod.rs:132-182 | after as many smooth rounds as key blocks were pending at the start, and one more if the last adoption was not known, whatever rounds failed in between, whatever acknowledgements were lost and however the source has grown, none of those key blocks is pending |
| Uploader.NothingNextMeansCaughtUp | sync-service/src/service/mod.rs:164-167 | when a walk from the newest key block finds nothing to send, there is no newer epoch in the source |
| AdnlFraming.KeyedTwice | ton-lite-client/src/tcp_adnl/mod.rs:223 | deciphering with the key stream from the same position undoes enciphering |
| AdnlFraming.XorBitwise | ton-lite-client/src/tcp_adnl/mod.rs:223 | adding the key stream is the exclusive or, bit by bit |
| AdnlFraming.KeyedAppend | ton-lite-client/src/tcp_adnl/mod.rs:223 | enciphering piece by piece is enciphering at once |
| AdnlFraming.Cipher.ApplyKeystream | ton-lite-client/src/tcp_adnl/mod.rs:287 | changes every byte in place by its position and moves the position on |
| AdnlFraming.EncryptData | ton-lite-client/src/tcp_adnl/mod.rs:274-288 | the vector becomes the enciphered length, filler, payload and digest, 68 bytes longer |
| AdnlFraming.SendAll | ton-lite-client/src/tcp_adnl/mod.rs:135-141 | what payload after payload puts on the wire is the one enciphered stream of their packets |
| AdnlFraming.ParseAppend | ton-lite-client/src/tcp_adnl/mod.rs:212-271 | the law of incremental reading: parsing from the undecoded tail on gives what parsing all at once gives |
| AdnlFraming.TailIsParsed | ton-lite-client/src/tcp_adnl/mod.rs:232-237 | no complete packet is left in the tail |
| AdnlFraming.ParsePackets | ton-lite-client/src/tcp_adnl/mod.rs:239-270 | a packet with a wrong digest or no payload is passed over without losing any other |
| AdnlFraming.PayloadStands | ton-lite-client/src/tcp_adnl/mod.rs:239-256 | every payload taken out of any stream stands in it in an intact packet: after its length and the filler, and before the digest of filler and payload |
| AdnlFraming.StreamRoundTrip | ton-lite-client/src/tcp_adnl/mod.rs:232-288 | a stream of any payloads is read back as exactly these payloads in order but for the empty ones, with nothing left over |
| AdnlFraming.RoundTripExactly | ton-lite-client/src/tcp_adnl/mod.rs:274-280 | a packet is read back as its payload if and only if the payload is not empty and its body's length fits in 32 bits |
| AdnlFraming.SocketReader.CheckPacket | ton-lite-client/src/tcp_adnl/mod.rs:239-256 | gives the payload exactly of a body that is long enough, has the right digest and is not empty |
| AdnlFraming.SocketReader.TakePackets | ton-lite-client/src/tcp_adnl/mod.rs:232-270 | takes every complete packet out of the buffer and leaves the tail; the target length is the declared length of the packet at its front |
| AdnlFraming.AnswerIsPassed | ton-lite-client/src/tcp_adnl/mod.rs:258-263 | each payload that can be decoded is passed on, in order |
| AdnlFraming.PassedIsAnswer | ton-lite-client/src/tcp_adnl/mod.rs:258-263 | and nothing else is |
| AdnlFraming.ReceivedExactly | ton-lite-client/src/tcp_adnl/mod.rs:212-230 | what is received is the bytes of the reads one after another up to the first empty or failed one, and that one ends the reader |
| AdnlFraming.SocketReader.Run | ton-lite-client/src/tcp_adnl/mod.rs:196-272 | for every way the bytes are cut into reads, the answers passed on, the tail and the target length are those of parsing the whole deciphered stream at once |
| AdnlFraming.ReceivedArePrefix | ton-lite-client/src/tcp_adnl/mod.rs:196-288 | from whatever part of the sent wire has arrived come the first payloads sent, in order, and from all of it all of them |
| QueriesCache.QueryIdsRepeat | ton-lite-client/src/tcp_adnl/mod.rs:105-107 | two query ids are equal exactly when their counter values are a multiple of 2^64 apart |
| QueriesCache.QueryIdLayout | ton-lite-client/src/tcp_adnl/mod.rs:105-107 | an id byte by byte: the counter, little-endian, and zeros |
| QueriesCache.CounterIdsAreDistinct | ton-lite-client/src/tcp_adnl/mod.rs:105-107 | within one round of the counter, different values give different ids |
| QueriesCache.RunKeepsInv | ton-lite-client/src/tcp_adnl/queries_cache.rs:11-58 | under any interleaving, even with equal ids, the table holds exactly the existing senders and a finished wait gave what was sent |
| QueriesCache.AnswersAreFinal | ton-lite-client/src/tcp_adnl/queries_cache.rs:24-28 | an answer is never replaced, and only an answer to its own id gives a query one |
| QueriesCache.SenderIsLostExactly | ton-lite-client/src/tcp_adnl/queries_cache.rs:11-58 | a step loses a sender that could still answer if and only if another query with the same id is added or, while pending, dropped; then the wait ends without an answer |
| QueriesCache.SenderIsUntouched | ton-lite-client/src/tcp_adnl/queries_cache.rs:11-58 | whatever the ids, a query keeps its sender exactly until the first later answer to its id, addition of its id or dropping of a pending query with its id |
| QueriesCache.AnswerIsTheFirst | ton-lite-client/src/tcp_adnl/queries_cache.rs:11-58 | whatever the ids and the interleaving, a query has the answer of the first event that answers its id before anything else takes its sender, and no other |
| QueriesCache.WaitGoesOnExactly | ton-lite-client/src/tcp_adnl/queries_cache.rs:39-45 | under any interleaving a wait that is polled goes on if and only if no event has taken its sender, and otherwise ends with the first answer, or with nothing if there is none |
| QueriesCache.AnsweredWaitEnds | ton-lite-client/src/tcp_adnl/queries_cache.rs:39-45 | an answered query that is waited for gets exactly its first answer, and keeps it whatever comes later |
| QueriesCache.TableIsUnanswered | ton-lite-client/src/tcp_adnl/queries_cache.rs:11-58 | as long as no query is added under the id of a pending one, the table holds exactly the unanswered pending queries, and no wait ends without an answer |
| QueriesCache.CounterKeepsApart | ton-lite-client/src/tcp_adnl/mod.rs:105-121 | with ids from the counter that condition holds unless the counter laps a query that is still pending |
| QueriesCache.DistinctAddsApart | ton-lite-client/src/tcp_adnl/queries_cache.rs:11-22 | distinct ids meet that condition |
| QueriesCache.DuplicatesLoseAnswers | ton-lite-client/src/tcp_adnl/queries_cache.rs:14 | it happens: a second query under an id takes the first one's place, and giving up the first one loses the second |
| QueriesCache.Cache.AddQuery | ton-lite-client/src/tcp_adnl/queries_cache.rs:11-22 | the objects make exactly the protocol's step, with a new pending handle |
| QueriesCache.Cache.UpdateQuery | ton-lite-client/src/tcp_adnl/queries_cache.rs:24-28 | the objects make exactly the protocol's step; an unknown id changes nothing |
| QueriesCache.PendingQuery.Poll | ton-lite-client/src/tcp_adnl/queries_cache.rs:39-45 | a wait ends exactly when there is an answer or no sender, then with that answer or with nothing, and makes the protocol's step |
| QueriesCache.PendingQuery.Drop | ton-lite-client/src/tcp_adnl/queries_cache.rs:48-58 | a finished handle changes nothing; an unfinished one removes the sender under its id |

## Left out

- LightProofs.BuildableExactly: a chain with a split or merge between a transaction's block and the top of its shard is outside the chain assumptions, because the walk by seqno is not meant for it.
- LightProofs.VerifiedIsGenuine: what cells show below the first known block of a shard is not compared with the chain, of which the model knows only the blocks after the start; the signatures in a proof are checked by `Signatures.CheckSignatures` on their own.
- LightSubscriber.Subscriber.PrepareBlock: block connections, block handles and archives are stores of the surrounding node and are not modelled; which block is prepared or handled when is what the node's block stream guarantees.
- McProofs.DescentMatchesEnumeration: the enumeration of shards is library code; it is modelled with its limit of 60 on the depth of a split.
- ProofChain.MakeProofChain: the Merkle proof cell around the chain is its hash and the chain itself; its depth field is not modelled.
- TransactionSearch.FindTransaction: polling forever is a run over any finite list of polls; an answer that the account does not exist is taken to mean that it has no transactions.
- Uploader.KeyBlockUploader.SyncKeyBlocks: a lost message that arrives later, in the middle of a later round, is taken to arrive between two rounds.
- Uploader.RunCatchesUp: how often a round fails is up to the network.
- AdnlFraming.EncryptData: payloads are sent in the order in which the sender's lock is taken; that a cancelled query sends nothing is not modelled.
- QueriesCache.Cache.UpdateQuery: the shared map is taken to be atomic per operation, and the table lives as long as its handles.
- Signatures table rows are never collected, and the rows of shards that no later bounding masterchain block names are never collected either; the model keeps both, as the code does.
- Times are below the 32-bit maximum by more than one, so that saturating and wrapping at the end of time do not meet.
- Key-block proofs (`make_key_block_proof`): the same pruning with other marks.
- Proof clients for the other chains, the HTTP and RPC interfaces, rate limits, metrics and configuration: plumbing around the functions modelled here.
- The wallet, contract calls, and the account state that carries them: foreign calls, given as deliveries.
- Field-by-field parsing of block headers and of wire messages: the shapes of cells and a decoder parameter stand for them.
- The handshake packet and its key agreement: the two key streams are parameters.
- The query retry and reconnect loops of the lite-server client: driven by timeouts only.
- Database tuning, compaction, migrations and cancellation: each batch is one atomic step.
