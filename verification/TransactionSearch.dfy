/**
 The search for the transaction of a message: account states are polled, transactions are fetched
 in batches backwards along their hash links, and failed fetches are retried.

 A transaction hash is collision-free, so the hash of the previous transaction stands for that
 transaction itself: histories are linked lists, newest first. What a server answers is arbitrary.
 Within one attempt it is a function of the request, because every request of an attempt asks for
 another transaction.
 */
module TransactionSearch {
  import opened Results

  /** The hash of a transaction, or no hash. */
  datatype TxHash = Zero | HashOf(tx: Transaction)

  datatype Transaction = Transaction(lt: nat, inMsg: Option<nat>, prevLt: nat, prevHash: TxHash)

  datatype LastTransactionId = LastTransactionId(lt: nat, hash: TxHash)

  /** A cell of a response: a transaction, or something else with another hash. */
  datatype RawTx = Valid(tx: Transaction) | Garbage(id: nat)

  datatype FetchError = RequestFailed | EmptyResponse | HashMismatch | InvalidTx | LtMismatch

  type Response = Result<seq<RawTx>, FetchError>

  /** What the server answers in one attempt. */
  type Server = LastTransactionId -> Response

  datatype AccountState =
    | Exists(genUtime: nat, last: LastTransactionId)
    | NotExists(genUtime: nat)
    | Unchanged(genUtime: nat)

  /** One poll: the state the server gives for the known time in the request, and the attempts to
      search the transactions since then. */
  datatype Poll = Poll(state: nat -> AccountState, attempts: seq<Server>)

  datatype SendError = SendFailed | MessageExpired | Unfinished

  datatype Outcome =
    | Found(tx: Transaction)
    | Expired
    | StillPolling

  function PrevId(tx: Transaction): LastTransactionId {
    LastTransactionId(tx.prevLt, tx.prevHash)
  }

  // --- Histories

  /** An account's transactions up to the one with this id: times strictly decrease along the
      links, and only the first transaction links to nothing. */
  predicate IsHistory(id: LastTransactionId)
    decreases id.hash
  {
    match id.hash
    case Zero => id.lt == 0
    case HashOf(tx) => tx.lt == id.lt && tx.prevLt < tx.lt && IsHistory(PrevId(tx))
  }

  /** The transactions of a history, newest first. */
  function History(id: LastTransactionId): seq<Transaction>
    decreases id.hash
  {
    match id.hash
    case Zero => []
    case HashOf(tx) => [tx] + History(PrevId(tx))
  }

  /** The newest transaction after `knownLt` whose incoming message has the hash. */
  function NewestMatch(id: LastTransactionId, knownLt: nat, msgHash: nat): Option<Transaction>
    decreases id.hash
  {
    match id.hash
    case Zero => None
    case HashOf(tx) =>
      if tx.lt <= knownLt then None
      else if tx.inMsg == Some(msgHash) then Some(tx)
      else NewestMatch(PrevId(tx), knownLt, msgHash)
  }

  lemma {:induction false} HistoryIsOlder(id: LastTransactionId, tx: Transaction)
    requires IsHistory(id) && tx in History(id)
    ensures tx.lt <= id.lt
    decreases id.hash
  {
    if tx != id.hash.tx {
      HistoryIsOlder(PrevId(id.hash.tx), tx);
    }
  }

  /** `NewestMatch` is what its name says: the match of the history after `knownLt` with no newer
      match, and nothing exactly when there is none. */
  lemma {:induction false} NewestMatchIsNewest(id: LastTransactionId, knownLt: nat, msgHash: nat)
    requires IsHistory(id)
    ensures var r := NewestMatch(id, knownLt, msgHash);
            && (r.Some? ==>
                  && r.value in History(id) && r.value.lt > knownLt && r.value.inMsg == Some(msgHash)
                  && forall tx | tx in History(id) && tx.inMsg == Some(msgHash) :: tx.lt <= r.value.lt)
            && (r.None? <==> forall tx | tx in History(id) && tx.lt > knownLt :: tx.inMsg != Some(msgHash))
    decreases id.hash
  {
    if id.hash.HashOf? {
      var tx := id.hash.tx;
      NewestMatchIsNewest(PrevId(tx), knownLt, msgHash);
      assert tx in History(id);
      assert forall t | t in History(PrevId(tx)) :: t in History(id);
      forall t | t in History(id) ensures t.lt <= tx.lt && (t == tx || t in History(PrevId(tx))) {
        HistoryIsOlder(id, t);
      }
    }
  }

  // --- One search

  /** The batch follows the hash links from `id`, and is not empty. */
  predicate FollowsLinks(id: LastTransactionId, batch: seq<RawTx>) {
    batch != [] && Links(id, batch)
  }

  predicate Links(id: LastTransactionId, batch: seq<RawTx>)
    decreases |batch|
  {
    batch != [] ==>
      && batch[0].Valid? && id.hash == HashOf(batch[0].tx)
      && Links(PrevId(batch[0].tx), batch[1..])
  }

  /** The server answers every request for a transaction of the history with a batch that follows
      the links. */
  ghost predicate Serves(server: Server, id: LastTransactionId)
    decreases id.hash
  {
    match id.hash
    case Zero => true
    case HashOf(tx) => server(id).Ok? && FollowsLinks(id, server(id).value) && Serves(server, PrevId(tx))
  }

  /** `do_find_transaction`: whatever the server answers, a search that ends without an error finds
      the newest match or that there is none; and it ends without an error if the batches follow the
      links, however long they are. */
  method DoFindTransaction(start: LastTransactionId, knownLt: nat, msgHash: nat, server: Server)
    returns (r: Result<Option<Transaction>, FetchError>)
    requires IsHistory(start) && start.lt > knownLt
    ensures r.Ok? ==> r.value == NewestMatch(start, knownLt, msgHash)
    ensures r.Ok? && r.value.Some? ==>
              && r.value.value in History(start) && r.value.value.lt > knownLt && r.value.value.inMsg == Some(msgHash)
              && forall tx | tx in History(start) && tx.inMsg == Some(msgHash) :: tx.lt <= r.value.value.lt
    ensures r == Ok(None) ==> forall tx | tx in History(start) && tx.lt > knownLt :: tx.inMsg != Some(msgHash)
    ensures Serves(server, start) ==> r.Ok?
  {
    NewestMatchIsNewest(start, knownLt, msgHash);
    var last := start;
    while true
      invariant IsHistory(last) && last.lt > knownLt
      invariant NewestMatch(last, knownLt, msgHash) == NewestMatch(start, knownLt, msgHash)
      invariant Serves(server, start) ==> Serves(server, last)
      decreases last.lt
    {
      var response := server(last);
      if response.Err? {
        return Err(response.error);
      }
      var batch := response.value;
      if batch == [] {
        return Err(EmptyResponse);
      }
      var i := 0;
      ghost var asked := last;
      while i < |batch|
        invariant i <= |batch|
        invariant IsHistory(last) && last.lt > knownLt && last.lt <= asked.lt && (i > 0 ==> last.lt < asked.lt)
        invariant NewestMatch(last, knownLt, msgHash) == NewestMatch(start, knownLt, msgHash)
        invariant Serves(server, start) ==> Serves(server, last) && Links(last, batch[i..])
      {
        var rawTx := batch[i];
        if rawTx.Garbage? || HashOf(rawTx.tx) != last.hash {
          return Err(HashMismatch);
        }
        var tx := rawTx.tx;
        if tx.lt != last.lt {
          return Err(LtMismatch);
        }
        if tx.inMsg == Some(msgHash) {
          return Ok(Some(tx));
        }
        last := PrevId(tx);
        if tx.prevLt <= knownLt {
          break;
        }
        assert batch[i..][1..] == batch[i + 1..];
        i := i + 1;
      }
      if last.lt <= knownLt {
        return Ok(None);
      }
    }
  }

  /** The retry loop around one search. `None` means that no attempt has succeeded yet. */
  method FindWithRetries(last: LastTransactionId, knownLt: nat, msgHash: nat, attempts: seq<Server>)
    returns (r: Option<Option<Transaction>>)
    requires IsHistory(last) && last.lt > knownLt
    ensures r.Some? ==> r.value == NewestMatch(last, knownLt, msgHash)
    ensures r.None? ==> forall server | server in attempts :: !Serves(server, last)
  {
    for i := 0 to |attempts|
      invariant forall j | 0 <= j < i :: !Serves(attempts[j], last)
    {
      var found := DoFindTransaction(last, knownLt, msgHash, attempts[i]);
      if found.Ok? {
        return Some(found.value);
      }
    }
    return None;
  }

  // --- Polling

  /** `id` is the last transaction of some earlier state of the account. */
  predicate Reaches(ledger: LastTransactionId, id: LastTransactionId)
    decreases ledger.hash
  {
    ledger == id || (ledger.hash.HashOf? && Reaches(PrevId(ledger.hash.tx), id))
  }

  /** An earlier state has exactly the older part of the history. */
  lemma {:induction false} EarlierState(ledger: LastTransactionId, id: LastTransactionId, tx: Transaction)
    requires IsHistory(ledger) && Reaches(ledger, id)
    ensures IsHistory(id) && id.lt <= ledger.lt
    ensures tx in History(id) <==> tx in History(ledger) && tx.lt <= id.lt
    decreases ledger.hash
  {
    if ledger == id {
      if tx in History(id) {
        HistoryIsOlder(id, tx);
      }
    } else {
      EarlierState(PrevId(ledger.hash.tx), id, tx);
    }
  }

  /** What a server says about an account whose last transaction is `last`. A missing account has
      no transactions. */
  ghost predicate Honest(state: AccountState, knownLt: nat, last: LastTransactionId) {
    match state
    case Exists(_, told) => told == last
    case NotExists(_) => last.hash.Zero?
    case Unchanged(_) => last.lt <= knownLt
  }

  /** No transaction of the history in this range of times carries the message. */
  ghost predicate NoMatch(ledger: LastTransactionId, after: nat, upTo: nat, msgHash: nat) {
    forall tx | tx in History(ledger) && after < tx.lt <= upTo :: tx.inMsg != Some(msgHash)
  }

  /** The message was in none of the transactions after `after` that the state had. */
  ghost predicate NotIn(last: LastTransactionId, after: nat, msgHash: nat) {
    forall tx | tx in History(last) && tx.lt > after :: tx.inMsg != Some(msgHash)
  }

  /** The polls see states of one account, in any order: poll `i` the one with last transaction `seen[i]`. */
  ghost predicate HonestPolls(polls: seq<Poll>, seen: seq<LastTransactionId>, ledger: LastTransactionId) {
    && |seen| == |polls| && IsHistory(ledger)
    && forall i | 0 <= i < |polls| :: IsHonestPoll(polls[i], seen[i], ledger)
  }

  ghost predicate IsHonestPoll(poll: Poll, last: LastTransactionId, ledger: LastTransactionId) {
    Reaches(ledger, last) && forall known: nat :: Honest(poll.state(known), known, last)
  }

  /** The known time that poll `i` is asked with: the last time told by a poll before it, if that was
      later than what was known. */
  function Asked(polls: seq<Poll>, first: nat, i: nat): nat
    requires i <= |polls|
  {
    if i == 0 then first
    else
      var known := Asked(polls, first, i - 1);
      Raised(polls[i - 1].state(known), known)
  }

  function Raised(state: AccountState, known: nat): nat {
    if state.Exists? && state.last.lt > known then state.last.lt else known
  }

  /** Poll `j` tells a last transaction of this time. */
  predicate Tells(polls: seq<Poll>, first: nat, j: nat, lt: nat)
    requires j < |polls|
  {
    var state := polls[j].state(Asked(polls, first, j));
    state.Exists? && state.last.lt == lt
  }

  /** The known time is at least the first one and all that was told so far. */
  lemma {:induction false} ToldIsKnown(polls: seq<Poll>, first: nat, j: nat, i: nat, lt: nat)
    requires j < i <= |polls| && Tells(polls, first, j, lt)
    ensures first <= Asked(polls, first, j) <= Asked(polls, first, i) && lt <= Asked(polls, first, i)
  {
    KnownGrows(polls, first, 0, j);
    KnownGrows(polls, first, j + 1, i);
  }

  lemma {:induction false} KnownGrows(polls: seq<Poll>, first: nat, j: nat, i: nat)
    requires j <= i <= |polls|
    ensures Asked(polls, first, j) <= Asked(polls, first, i)
  {
    if j < i {
      KnownGrows(polls, first, j, i - 1);
    }
  }

  /** And it is one of these. */
  lemma {:induction false} KnownIsTold(polls: seq<Poll>, first: nat, i: nat) returns (j: nat)
    requires i <= |polls| && Asked(polls, first, i) != first
    ensures j < i && Tells(polls, first, j, Asked(polls, first, i))
  {
    j := i - 1;
    if Asked(polls, first, i) == Asked(polls, first, j) {
      j := KnownIsTold(polls, first, j);
    }
  }

  /** What poll `i` answers is a state after the deadline. */
  predicate IsLate(polls: seq<Poll>, first: nat, i: nat, expireAt: nat)
    requires i < |polls|
  {
    polls[i].state(Asked(polls, first, i)).genUtime > expireAt
  }

  /** Some attempt of the poll reaches a server that answers. */
  ghost predicate IsServed(poll: Poll, last: LastTransactionId) {
    exists server :: server in poll.attempts && Serves(server, last)
  }

  ghost predicate AllServed(polls: seq<Poll>, seen: seq<LastTransactionId>)
    requires |seen| == |polls|
  {
    forall i | 0 <= i < |polls| :: IsServed(polls[i], seen[i])
  }

  /** None of the first states had the message after that time. */
  ghost predicate NoneHad(seen: seq<LastTransactionId>, count: nat, after: nat, msgHash: nat)
    requires count <= |seen|
  {
    forall i: nat | i < count :: NotIn(seen[i], after, msgHash)
  }

  /** None of the first polls gave a state after the deadline. */
  ghost predicate NoneLate(polls: seq<Poll>, first: nat, count: nat, expireAt: nat)
    requires count <= |polls|
  {
    forall i: nat | i < count :: !IsLate(polls, first, i, expireAt)
  }

  /** Raising the known time after a search without a match skips nothing. */
  lemma RaisingSkipsNothing(ledger: LastTransactionId, last: LastTransactionId, first: nat, knownLt: nat, msgHash: nat)
    requires IsHistory(ledger) && Reaches(ledger, last) && first <= knownLt < last.lt
    requires NoMatch(ledger, first, knownLt, msgHash) && NewestMatch(last, knownLt, msgHash).None?
    ensures NoMatch(ledger, first, last.lt, msgHash)
  {
    EarlierState(ledger, last, Transaction(0, None, 0, Zero));
    NewestMatchIsNewest(last, knownLt, msgHash);
    forall tx | tx in History(ledger) && first < tx.lt <= last.lt ensures tx.inMsg != Some(msgHash) {
      EarlierState(ledger, last, tx);
    }
  }

  lemma NothingSeen(ledger: LastTransactionId, last: LastTransactionId, first: nat, knownLt: nat, msgHash: nat)
    requires IsHistory(ledger) && Reaches(ledger, last) && last.lt <= knownLt
    requires NoMatch(ledger, first, knownLt, msgHash)
    ensures NotIn(last, first, msgHash)
  {
    forall tx | tx in History(last) && tx.lt > first ensures tx.inMsg != Some(msgHash) {
      EarlierState(ledger, last, tx);
    }
  }

  /** `tx` is a match after the known time, and the newest one of some state that was seen. */
  ghost predicate IsFound(tx: Transaction, seen: seq<LastTransactionId>, ledger: LastTransactionId, knownLt: nat,
                          msgHash: nat)
  {
    && tx in History(ledger) && tx.lt > knownLt && tx.inMsg == Some(msgHash)
    && exists i :: 0 <= i < |seen| && IsNewestOf(tx, seen[i], msgHash)
  }

  ghost predicate IsNewestOf(tx: Transaction, last: LastTransactionId, msgHash: nat) {
    tx in History(last) && forall other | other in History(last) && other.inMsg == Some(msgHash) :: other.lt <= tx.lt
  }

  lemma NewestIsFound(ledger: LastTransactionId, last: LastTransactionId, first: nat, knownLt: nat, msgHash: nat,
                      tx: Transaction)
    requires IsHistory(ledger) && Reaches(ledger, last) && IsHistory(last) && first <= knownLt < last.lt
    requires NewestMatch(last, knownLt, msgHash) == Some(tx)
    ensures tx in History(ledger) && tx.lt > first && tx.inMsg == Some(msgHash) && IsNewestOf(tx, last, msgHash)
  {
    NewestMatchIsNewest(last, knownLt, msgHash);
    EarlierState(ledger, last, tx);
  }

  /** What `find_transaction` does with one state: it searches what is newer than the known time, and
      raises it when there is no match. `None` means that no attempt has succeeded yet. */
  method SearchState(state: AccountState, knownLt: nat, msgHash: nat, attempts: seq<Server>,
                     ghost last: LastTransactionId, ghost ledger: LastTransactionId, ghost first: nat)
    returns (r: Option<Option<Transaction>>, known: nat)
    requires IsHistory(ledger) && Reaches(ledger, last) && Honest(state, knownLt, last)
    requires first <= knownLt && NoMatch(ledger, first, knownLt, msgHash)
    ensures r.None? ==> forall server | server in attempts :: !Serves(server, last)
    ensures r.Some? && r.value.Some? ==>
              var tx := r.value.value;
              tx in History(ledger) && tx.lt > first && tx.inMsg == Some(msgHash) && IsNewestOf(tx, last, msgHash)
    ensures r == Some(None) ==>
              && known == Raised(state, knownLt) && NoMatch(ledger, first, known, msgHash)
              && NotIn(last, first, msgHash)
  {
    EarlierState(ledger, last, Transaction(0, None, 0, Zero));
    r, known := Some(None), knownLt;
    if state.Exists? && state.last.lt > knownLt {
      r := FindWithRetries(state.last, knownLt, msgHash, attempts);
      if r.Some? {
        if r.value.Some? {
          NewestIsFound(ledger, last, first, knownLt, msgHash, r.value.value);
        } else {
          RaisingSkipsNothing(ledger, last, first, knownLt, msgHash);
          known := state.last.lt;
        }
      }
    }
    if r == Some(None) {
      NothingSeen(ledger, last, first, known, msgHash);
    }
  }

  /** `find_transaction`, over any number of polls. It finds only matches after the known time, the
      newest of the state it saw. It gives up only after a state later than the deadline in which
      no transaction after the first known time carries the message. And while it goes on polling
      servers that answer, no state it has seen had the message. */
  method FindTransaction(msgHash: nat, firstKnownLt: nat, expireAt: Option<nat>, polls: seq<Poll>,
                         ghost seen: seq<LastTransactionId>, ghost ledger: LastTransactionId) returns (r: Outcome)
    requires HonestPolls(polls, seen, ledger)
    ensures r.Found? ==>
              && r.tx.inMsg == Some(msgHash) && r.tx.lt > firstKnownLt
              && IsFound(r.tx, seen, ledger, firstKnownLt, msgHash)
    ensures r.Expired? ==>
              && expireAt.Some?
              && exists i: nat :: i < |seen| && IsLate(polls, firstKnownLt, i, expireAt.value)
                               && polls[i].state(Asked(polls, firstKnownLt, i)).genUtime > expireAt.value
                               && forall tx | tx in History(seen[i]) && tx.lt > firstKnownLt ::
                                    tx.inMsg != Some(msgHash)
    ensures r.StillPolling? && AllServed(polls, seen) ==>
              && NoneHad(seen, |seen|, firstKnownLt, msgHash)
              && (expireAt.Some? ==> NoneLate(polls, firstKnownLt, |polls|, expireAt.value))
  {
    var knownLt := firstKnownLt;
    for i := 0 to |polls|
      invariant knownLt == Asked(polls, firstKnownLt, i)
      invariant firstKnownLt <= knownLt && NoMatch(ledger, firstKnownLt, knownLt, msgHash)
      invariant expireAt.Some? ==> NoneLate(polls, firstKnownLt, i, expireAt.value)
      invariant NoneHad(seen, i, firstKnownLt, msgHash)
    {
      var state := polls[i].state(knownLt);
      assert IsHonestPoll(polls[i], seen[i], ledger);
      var found;
      found, knownLt := SearchState(state, knownLt, msgHash, polls[i].attempts, seen[i], ledger, firstKnownLt);
      if found.None? {
        return StillPolling;
      }
      if found.value.Some? {
        return Found(found.value.value);
      }
      if expireAt.Some? && state.genUtime > expireAt.value {
        assert IsLate(polls, firstKnownLt, i, expireAt.value);
        return Expired;
      }
    }
    return StillPolling;
  }

  /** The state has every transaction of the ledger that carries the message. */
  ghost predicate HasCarriers(last: LastTransactionId, ledger: LastTransactionId, msgHash: nat) {
    forall tx | tx in History(ledger) && tx.inMsg == Some(msgHash) :: tx in History(last)
  }

  /** `send_message_reliable`. When the account takes no message after its deadline, so that a state
      later than the deadline has every transaction that will ever carry the message, the verdict
      that the message expired is final. */
  method SendMessageReliable(sent: bool, msgHash: nat, knownLt: nat, expireAt: nat, polls: seq<Poll>,
                             ghost seen: seq<LastTransactionId>, ghost ledger: LastTransactionId)
    returns (r: Result<Transaction, SendError>)
    requires HonestPolls(polls, seen, ledger)
    requires forall i: nat | i < |polls| && IsLate(polls, knownLt, i, expireAt) :: HasCarriers(seen[i], ledger, msgHash)
    ensures r.Ok? ==> r.value in History(ledger) && r.value.lt > knownLt && r.value.inMsg == Some(msgHash)
    ensures r == Err(MessageExpired) ==>
              forall tx | tx in History(ledger) && tx.lt > knownLt :: tx.inMsg != Some(msgHash)
  {
    if !sent {
      return Err(SendFailed);
    }
    var found := FindTransaction(msgHash, knownLt, Some(expireAt), polls, seen, ledger);
    match found
    case Found(tx) => return Ok(tx);
    case Expired => return Err(MessageExpired);
    case StillPolling => return Err(Unfinished);
  }
}
