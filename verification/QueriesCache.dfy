/**
 The table of pending ADNL queries: each query waits on a one-shot channel whose sender sits in the
 table under the query id until an answer takes it out.

 The protocol is a state machine over the four things that can happen, in any interleaving. The
 shared table itself, the channels and the handles are objects whose methods make these steps.
 */
module QueriesCache {
  import opened Results
  import opened Bytes

  type QueryId = id: ByteString | |id| == 32 witness seq(32, _ => 0)

  // --- Query ids

  /** The id of a query from the value of the counter, a 64-bit `usize` that wraps around. */
  function QueryIdOf(seqno: nat): QueryId {
    SpanValues();
    LittleEndian(seqno % U64_SPAN, 8) + seq(24, _ => 0)
  }

  /** An id, byte by byte: the counter, little-endian, and zeros. */
  lemma QueryIdLayout(seqno: nat)
    ensures forall i | 0 <= i < 8 :: QueryIdOf(seqno)[i] == DigitAt(seqno % U64_SPAN, i)
    ensures forall i | 8 <= i < 32 :: QueryIdOf(seqno)[i] == 0
  {
    SpanValues();
    forall i | 0 <= i < 8 ensures QueryIdOf(seqno)[i] == DigitAt(seqno % U64_SPAN, i) {
      LittleEndianDigits(seqno % U64_SPAN, 8, i);
    }
  }

  /** Two queries share an id exactly when their counter values are a multiple of 2^64 apart. */
  lemma QueryIdsRepeat(m: nat, n: nat)
    ensures QueryIdOf(m) == QueryIdOf(n) <==> m % U64_SPAN == n % U64_SPAN
  {
    SpanValues();
    LittleEndianRoundTrip(m % U64_SPAN, 8);
    LittleEndianRoundTrip(n % U64_SPAN, 8);
    assert QueryIdOf(m)[..8] == LittleEndian(m % U64_SPAN, 8);
    assert QueryIdOf(n)[..8] == LittleEndian(n % U64_SPAN, 8);
  }

  // --- The protocol

  datatype Stage = Pending | Finished(result: Option<ByteString>) | Dropped

  /** A query and its channel: whether the sender still exists, and the answer sent through it. */
  datatype Query = Query(id: QueryId, hasSender: bool, answer: Option<ByteString>, stage: Stage)

  /** The table maps an id to the number of the query whose sender it holds. */
  datatype State = State(table: map<QueryId, nat>, queries: seq<Query>)

  const NO_QUERIES := State(map[], [])

  /** `Add` is `add_query`, `Answer` is `update_query`, `Wait` polls the wait of a query, and
      `Drop` gives up its handle. Queries are numbered in the order they are added. */
  datatype Event = Add(id: QueryId) | Answer(id: QueryId, data: ByteString) | Wait(n: nat) | Drop(n: nat)

  /** The queries after the sender in the table under this id, if any, is gone. */
  function Release(s: State, id: QueryId): (queries: seq<Query>)
    ensures |queries| == |s.queries|
  {
    if id in s.table && s.table[id] < |s.queries|
    then s.queries[s.table[id] := s.queries[s.table[id]].(hasSender := false)]
    else s.queries
  }

  /** The answer reaches the query unless its receiver is gone. */
  function Send(q: Query, data: ByteString): Query {
    q.(hasSender := false, answer := if q.stage.Pending? then Some(data) else q.answer)
  }

  /** A wait ends with the answer, or with nothing once there is no sender that could answer. */
  function Poll(q: Query): Query {
    if q.stage.Pending? && (q.answer.Some? || !q.hasSender) then q.(stage := Finished(q.answer)) else q
  }

  function Step(s: State, e: Event): State {
    match e
    case Add(id) =>
      State(s.table[id := |s.queries|], Release(s, id) + [Query(id, true, None, Pending)])
    case Answer(id, data) =>
      if id in s.table && s.table[id] < |s.queries|
      then State(s.table - {id}, s.queries[s.table[id] := Send(s.queries[s.table[id]], data)])
      else s
    case Wait(n) =>
      if n < |s.queries| then s.(queries := s.queries[n := Poll(s.queries[n])]) else s
    case Drop(n) =>
      if n < |s.queries| && s.queries[n].stage.Pending?
      then var id := s.queries[n].id;
           State(s.table - {id}, Release(s, id)[n := Release(s, id)[n].(stage := Dropped)])
      else s
  }

  function Run(events: seq<Event>): State {
    if events == [] then NO_QUERIES
    else Step(Run(events[..|events| - 1]), events[|events| - 1])
  }

  /** What every interleaving keeps: the table holds exactly the existing senders, a sender exists
      only while its query is pending and unanswered, and a finished wait gave what was sent. */
  ghost predicate Inv(s: State) {
    && (forall id | id in s.table ::
          s.table[id] < |s.queries| && s.queries[s.table[id]].id == id && s.queries[s.table[id]].hasSender)
    && (forall n | 0 <= n < |s.queries| && s.queries[n].hasSender ::
          && s.queries[n].id in s.table && s.table[s.queries[n].id] == n
          && s.queries[n].answer.None? && s.queries[n].stage.Pending?)
    && (forall n | 0 <= n < |s.queries| && s.queries[n].stage.Finished? ::
          s.queries[n].stage.result == s.queries[n].answer)
  }

  lemma AddKeepsInv(s: State, id: QueryId)
    requires Inv(s)
    ensures Inv(Step(s, Add(id)))
  {
  }

  lemma AnswerKeepsInv(s: State, id: QueryId, data: ByteString)
    requires Inv(s)
    ensures Inv(Step(s, Answer(id, data)))
  {
  }

  lemma WaitKeepsInv(s: State, n: nat)
    requires Inv(s)
    ensures Inv(Step(s, Wait(n)))
  {
  }

  lemma DropKeepsInv(s: State, n: nat)
    requires Inv(s)
    ensures Inv(Step(s, Drop(n)))
  {
  }

  lemma StepKeepsInv(s: State, e: Event)
    requires Inv(s)
    ensures Inv(Step(s, e))
  {
    match e
    case Add(id) => AddKeepsInv(s, id);
    case Answer(id, data) => AnswerKeepsInv(s, id, data);
    case Wait(n) => WaitKeepsInv(s, n);
    case Drop(n) => DropKeepsInv(s, n);
  }

  lemma {:induction false} RunKeepsInv(events: seq<Event>)
    ensures Inv(Run(events))
  {
    if events != [] {
      RunKeepsInv(events[..|events| - 1]);
      StepKeepsInv(Run(events[..|events| - 1]), events[|events| - 1]);
    }
  }

  /** A step changes no id, no answer once sent and no result; an answer changes at most the one
      query whose sender the table holds under its id. */
  lemma AnswersAreFinal(s: State, e: Event, n: nat)
    requires Inv(s) && n < |s.queries|
    ensures var q, q' := s.queries[n], Step(s, e).queries[n];
            && q'.id == q.id && (q.answer.Some? ==> q'.answer == q.answer)
            && (!q.stage.Pending? ==> q'.stage == q.stage)
            && (q'.answer != q.answer ==> e == Answer(q.id, q'.answer.value) && q.hasSender && !q'.hasSender)
  {
  }

  // --- Ids in the order of the queries

  /** The ids of the queries, in the order they are added. */
  function Added(events: seq<Event>): seq<QueryId> {
    if events == [] then []
    else
      var e := events[|events| - 1];
      Added(events[..|events| - 1]) + if e.Add? then [e.id] else []
  }

  lemma StepKeepsIds(s: State, e: Event)
    ensures |Step(s, e).queries| == |s.queries| + if e.Add? then 1 else 0
    ensures forall n | 0 <= n < |s.queries| :: Step(s, e).queries[n].id == s.queries[n].id
    ensures e.Add? ==> Step(s, e).queries[|s.queries|].id == e.id
  {
  }

  /** The queries have these ids. */
  ghost predicate HaveIds(queries: seq<Query>, ids: seq<QueryId>) {
    |queries| == |ids| && forall n | 0 <= n < |ids| :: queries[n].id == ids[n]
  }

  lemma StepAddsId(s: State, ids: seq<QueryId>, e: Event)
    requires HaveIds(s.queries, ids)
    ensures HaveIds(Step(s, e).queries, ids + if e.Add? then [e.id] else [])
  {
    StepKeepsIds(s, e);
  }

  lemma {:induction false} AddedIsQueries(events: seq<Event>)
    ensures HaveIds(Run(events).queries, Added(events))
  {
    if events != [] {
      var before, e := events[..|events| - 1], events[|events| - 1];
      AddedIsQueries(before);
      StepAddsId(Run(before), Added(before), e);
    }
  }

  // --- What becomes of a sender

  /** In this state, event `e` takes whatever sender the table has under the id: it is an answer to
      the id, another query under it, or the dropping of some pending query that has it. */
  predicate Takes(s: State, e: Event, id: QueryId) {
    match e
    case Add(other) => other == id
    case Answer(other, data) => other == id
    case Wait(n) => false
    case Drop(n) => n < |s.queries| && s.queries[n].stage.Pending? && s.queries[n].id == id
  }

  /** What a step does to one query, whatever other queries there are. */
  lemma StepTakes(s: State, e: Event, n: nat)
    requires Inv(s) && n < |s.queries|
    ensures n < |Step(s, e).queries|
    ensures var q, q' := s.queries[n], Step(s, e).queries[n];
            && q'.id == q.id
            && (q'.hasSender <==> q.hasSender && !Takes(s, e, q.id))
            && q'.answer == (if e.Answer? && e.id == q.id && q.hasSender then Some(e.data) else q.answer)
            && (q'.stage.Dropped? <==> q.stage.Dropped? || (e == Drop(n) && q.stage.Pending?))
  {
  }

  /** The sender is not lost: it exists, or was used, or the query was given up. */
  predicate IsKept(q: Query) {
    q.hasSender || q.answer.Some? || q.stage.Dropped?
  }

  /** Another query with the id of query `n` is added, or a pending one of them is dropped. */
  predicate Intrudes(s: State, e: Event, n: nat)
    requires n < |s.queries|
  {
    Takes(s, e, s.queries[n].id) && !e.Answer? && e != Drop(n)
  }

  /** A step loses a sender exactly when the query still has it and another query with the same id is
      added or, while pending, dropped. Then the wait ends without an answer. */
  lemma SenderIsLostExactly(s: State, e: Event, n: nat)
    requires Inv(s) && n < |s.queries| && IsKept(s.queries[n])
    ensures n < |Step(s, e).queries|
    ensures !IsKept(Step(s, e).queries[n]) <==> s.queries[n].hasSender && Intrudes(s, e, n)
    ensures !IsKept(Step(s, e).queries[n]) ==> Poll(Step(s, e).queries[n]).stage == Finished(None)
  {
    StepTakes(s, e, n);
    AnswersAreFinal(s, e, n);
  }

  /** Event `a` adds query `n`. */
  ghost predicate Adds(events: seq<Event>, a: nat, n: nat) {
    a < |events| && events[a].Add? && |Added(events[..a])| == n
  }

  /** The state just before event `j`. */
  function Before(events: seq<Event>, j: nat): State
    requires j <= |events|
  {
    Run(events[..j])
  }

  /** Event `j` does not take the sender of the id that event `a` adds. */
  ghost predicate Leaves(events: seq<Event>, a: nat, j: nat)
    requires a < |events| && events[a].Add? && j < |events|
  {
    !Takes(Before(events, j), events[j], events[a].id)
  }

  /** No event after `a` and before `k` takes it. */
  ghost predicate Untouched(events: seq<Event>, a: nat, k: nat)
    requires a < k <= |events| && events[a].Add?
  {
    forall j: nat | a < j < k :: Leaves(events, a, j)
  }

  /** Event `k` answers the query that `a` adds, before anything else takes its sender. */
  ghost predicate FirstAnswer(events: seq<Event>, a: nat, k: nat) {
    && a < k < |events| && events[a].Add?
    && events[k].Answer? && events[k].id == events[a].id && Untouched(events, a, k)
  }

  lemma BeforeInPrefix(events: seq<Event>, j: nat)
    requires j < |events|
    ensures Before(events[..|events| - 1], j) == Before(events, j)
  {
    assert events[..|events| - 1][..j] == events[..j];
  }

  lemma UntouchedInPrefix(events: seq<Event>, a: nat, k: nat)
    requires a < k < |events| && events[a].Add?
    ensures Untouched(events[..|events| - 1], a, k) <==> Untouched(events, a, k)
  {
    var before := events[..|events| - 1];
    forall j: nat | a < j < k ensures Leaves(before, a, j) <==> Leaves(events, a, j) {
      BeforeInPrefix(events, j);
    }
  }

  lemma UntouchedStep(events: seq<Event>, a: nat)
    requires a < |events| - 1 && events[a].Add?
    ensures var last := |events| - 1;
            Untouched(events, a, |events|) <==> Untouched(events, a, last) && Leaves(events, a, last)
  {
    assert Untouched(events, a, |events|) ==> Leaves(events, a, |events| - 1);
  }

  lemma {:induction false} AddedGrows(events: seq<Event>, a: nat)
    requires a < |events| && events[a].Add?
    ensures |Added(events[..a])| < |Added(events)| && Added(events)[|Added(events[..a])|] == events[a].id
  {
    var last := |events| - 1;
    if a < last {
      assert events[..last][..a] == events[..a];
      AddedGrows(events[..last], a);
    }
  }

  /** What event `a` adds is query `n`, from then on. */
  lemma AddedIsThere(events: seq<Event>, a: nat, n: nat)
    requires Adds(events, a, n)
    ensures n < |Run(events).queries| && Run(events).queries[n].id == events[a].id
    ensures a < |events| - 1 ==> Adds(events[..|events| - 1], a, n)
  {
    AddedIsQueries(events);
    AddedGrows(events, a);
    if a < |events| - 1 {
      assert events[..|events| - 1][..a] == events[..a];
    }
  }

  lemma NewHasSender(events: seq<Event>, n: nat)
    requires events != [] && Adds(events, |events| - 1, n)
    ensures n < |Run(events).queries| && Run(events).queries[n] == Query(events[|events| - 1].id, true, None, Pending)
  {
    AddedIsQueries(events[..|events| - 1]);
  }

  /** A query keeps its sender exactly until the first event that takes it, whatever the ids. */
  lemma {:induction false} SenderIsUntouched(events: seq<Event>, a: nat, n: nat)
    requires Adds(events, a, n)
    ensures n < |Run(events).queries| && (Run(events).queries[n].hasSender <==> Untouched(events, a, |events|))
    decreases |events|
  {
    AddedIsThere(events, a, n);
    if a == |events| - 1 {
      NewHasSender(events, n);
    } else {
      var before := events[..|events| - 1];
      SenderIsUntouched(before, a, n);
      AddedIsThere(before, a, n);
      UntouchedInPrefix(events, a, |events| - 1);
      UntouchedStep(events, a);
      RunKeepsInv(before);
      StepTakes(Run(before), events[|events| - 1], n);
    }
  }

  /** A later event changes the answer exactly when it is the first answer. */
  lemma LastEventAnswers(events: seq<Event>, a: nat, n: nat)
    requires Adds(events, a, n) && a < |events| - 1
    ensures n < |Run(events[..|events| - 1]).queries| && n < |Run(events).queries|
    ensures var q, q' := Run(events[..|events| - 1]).queries[n], Run(events).queries[n];
            q'.answer == if FirstAnswer(events, a, |events| - 1) then Some(events[|events| - 1].data) else q.answer
  {
    var last := |events| - 1;
    var before := events[..last];
    AddedIsThere(events, a, n);
    AddedIsThere(before, a, n);
    SenderIsUntouched(before, a, n);
    UntouchedInPrefix(events, a, last);
    RunKeepsInv(before);
    StepTakes(Run(before), events[last], n);
  }

  /** There is at most one first answer. */
  lemma FirstAnswerIsOne(events: seq<Event>, a: nat, j: nat, k: nat)
    requires FirstAnswer(events, a, j) && FirstAnswer(events, a, k)
    ensures j == k
  {
    assert !Leaves(events, a, j) && !Leaves(events, a, k);
  }

  lemma FirstAnswerInPrefix(events: seq<Event>, a: nat, k: nat)
    requires a < k < |events| - 1 && events[a].Add?
    ensures FirstAnswer(events[..|events| - 1], a, k) <==> FirstAnswer(events, a, k)
  {
    UntouchedInPrefix(events, a, k);
  }

  lemma {:induction false} GetsFirstAnswer(events: seq<Event>, a: nat, n: nat, k: nat)
    requires Adds(events, a, n) && FirstAnswer(events, a, k)
    ensures n < |Run(events).queries| && Run(events).queries[n].answer == Some(events[k].data)
    decreases |events|
  {
    LastEventAnswers(events, a, n);
    if k < |events| - 1 {
      AddedIsThere(events, a, n);
      FirstAnswerInPrefix(events, a, k);
      GetsFirstAnswer(events[..|events| - 1], a, n, k);
      if FirstAnswer(events, a, |events| - 1) {
        FirstAnswerIsOne(events, a, k, |events| - 1);
      }
    }
  }

  lemma {:induction false} AnsweredByFirst(events: seq<Event>, a: nat, n: nat) returns (k: nat)
    requires Adds(events, a, n) && n < |Run(events).queries| && Run(events).queries[n].answer.Some?
    ensures FirstAnswer(events, a, k)
    decreases |events|, 1
  {
    k := |events| - 1;
    if a == k {
      NewHasSender(events, n);
    } else {
      LastEventAnswers(events, a, n);
      if !FirstAnswer(events, a, k) {
        k := AnsweredEarlier(events, a, n);
      }
    }
  }

  lemma {:induction false} AnsweredEarlier(events: seq<Event>, a: nat, n: nat) returns (k: nat)
    requires Adds(events, a, n) && a < |events| - 1
    requires n < |Run(events[..|events| - 1]).queries| && Run(events[..|events| - 1]).queries[n].answer.Some?
    ensures FirstAnswer(events, a, k)
    decreases |events|, 0
  {
    AddedIsThere(events, a, n);
    k := AnsweredByFirst(events[..|events| - 1], a, n);
    FirstAnswerInPrefix(events, a, k);
  }

  /** The specification of one query, under any interleaving of all queries and whatever their ids: it
      has the answer of the first event that answers its id before anything else takes its sender,
      and no other. */
  lemma AnswerIsTheFirst(events: seq<Event>, a: nat, n: nat)
    requires Adds(events, a, n)
    ensures n < |Run(events).queries|
    ensures forall k: nat | FirstAnswer(events, a, k) :: Run(events).queries[n].answer == Some(events[k].data)
    ensures Run(events).queries[n].answer.Some? ==> exists k: nat :: FirstAnswer(events, a, k)
  {
    AddedIsThere(events, a, n);
    forall k: nat | FirstAnswer(events, a, k) ensures Run(events).queries[n].answer == Some(events[k].data) {
      GetsFirstAnswer(events, a, n, k);
    }
    if Run(events).queries[n].answer.Some? {
      var k := AnsweredByFirst(events, a, n);
    }
  }

  // --- How waits end

  /** The handle of query `n` was not given up between events `a` and `j`. */
  ghost predicate NotDropped(events: seq<Event>, a: nat, n: nat, j: nat)
    requires j <= |events|
  {
    forall i: nat | a < i < j :: events[i] != Drop(n)
  }

  lemma {:induction false} IsNotDropped(events: seq<Event>, a: nat, n: nat)
    requires Adds(events, a, n) && NotDropped(events, a, n, |events|)
    ensures n < |Run(events).queries| && !Run(events).queries[n].stage.Dropped?
    decreases |events|
  {
    AddedIsThere(events, a, n);
    if a == |events| - 1 {
      NewHasSender(events, n);
    } else {
      var before := events[..|events| - 1];
      AddedIsThere(before, a, n);
      IsNotDropped(before, a, n);
      RunKeepsInv(before);
      StepTakes(Run(before), events[|events| - 1], n);
    }
  }

  /** A wait polled now goes on exactly while the query has its sender; otherwise it ends, with the
      answer if there is one. */
  lemma PolledWait(s: State, n: nat)
    requires Inv(s) && n < |s.queries| && !s.queries[n].stage.Dropped?
    ensures var q, q' := s.queries[n], Step(s, Wait(n)).queries[n];
            if q.hasSender then q'.stage == Pending else q'.stage == Finished(q.answer)
  {
  }

  /** The wait of a query that is not given up goes on exactly as long as no event has taken its sender;
      the first poll after that ends it, with the first answer if there was one and with nothing
      otherwise. */
  lemma WaitGoesOnExactly(events: seq<Event>, a: nat, n: nat)
    requires Adds(events, a, n) && a < |events| - 1 && events[|events| - 1] == Wait(n)
    requires NotDropped(events, a, n, |events|)
    ensures n < |Run(events).queries|
    ensures Run(events).queries[n].stage == Pending <==> Untouched(events, a, |events|)
    ensures forall k: nat | FirstAnswer(events, a, k) ::
              Run(events).queries[n].stage == Finished(Some(events[k].data))
    ensures !Untouched(events, a, |events|) && (forall k: nat :: !FirstAnswer(events, a, k)) ==>
              Run(events).queries[n].stage == Finished(None)
  {
    var before := events[..|events| - 1];
    AddedIsThere(events, a, n);
    AddedIsThere(before, a, n);
    IsNotDropped(before, a, n);
    RunKeepsInv(before);
    PolledWait(Run(before), n);
    SenderIsUntouched(before, a, n);
    UntouchedInPrefix(events, a, |events| - 1);
    UntouchedStep(events, a);
    LastEventAnswers(events, a, n);
    AnswerIsTheFirst(events, a, n);
    forall k: nat | FirstAnswer(events, a, k) ensures !Untouched(events, a, |events|) {
      assert !Leaves(events, a, k);
    }
  }

  /** Every answered query that is waited for gets its answer, and keeps it whatever comes later. */
  lemma {:induction false} AnsweredWaitEnds(events: seq<Event>, a: nat, n: nat, k: nat, j: nat)
    requires Adds(events, a, n) && FirstAnswer(events, a, k)
    requires k < j < |events| && events[j] == Wait(n) && NotDropped(events, a, n, j)
    ensures n < |Run(events).queries| && Run(events).queries[n].stage == Finished(Some(events[k].data))
    decreases |events|
  {
    AddedIsThere(events, a, n);
    if j == |events| - 1 {
      WaitGoesOnExactly(events, a, n);
    } else {
      var before := events[..|events| - 1];
      AddedIsThere(before, a, n);
      FirstAnswerInPrefix(events, a, k);
      AnsweredWaitEnds(before, a, n, k, j);
      RunKeepsInv(before);
      AnswersAreFinal(Run(before), events[|events| - 1], n);
    }
  }

  // --- Ids of live queries

  /** No pending query has this id. */
  ghost predicate IsFree(s: State, id: QueryId) {
    forall m | 0 <= m < |s.queries| && s.queries[m].stage.Pending? :: s.queries[m].id != id
  }

  /** Every query is added under an id that no query pending at that moment has. */
  ghost predicate AddsApart(events: seq<Event>) {
    forall j | 0 <= j < |events| && events[j].Add? :: IsFree(Before(events, j), events[j].id)
  }

  /** Pending queries have different ids, and no sender is lost. */
  ghost predicate LiveApart(s: State) {
    && (forall m, n | 0 <= m < n < |s.queries| && s.queries[m].stage.Pending? && s.queries[n].stage.Pending? ::
          s.queries[m].id != s.queries[n].id)
    && (forall n | 0 <= n < |s.queries| :: IsKept(s.queries[n]))
  }

  /** A step makes at most the added query pending. */
  lemma StepMakesPending(s: State, e: Event, n: nat)
    requires Inv(s) && n < |Step(s, e).queries| && Step(s, e).queries[n].stage.Pending?
    ensures if n < |s.queries| then s.queries[n].stage.Pending? && Step(s, e).queries[n].id == s.queries[n].id
            else e.Add? && n == |s.queries| && Step(s, e).queries[n].id == e.id
  {
    StepKeepsIds(s, e);
  }

  lemma StepKeepsApart(s: State, e: Event, m: nat, n: nat)
    requires Inv(s) && LiveApart(s) && (e.Add? ==> IsFree(s, e.id))
    requires m < n < |Step(s, e).queries| && Step(s, e).queries[m].stage.Pending?
    requires Step(s, e).queries[n].stage.Pending?
    ensures Step(s, e).queries[m].id != Step(s, e).queries[n].id
  {
    StepMakesPending(s, e, m);
    StepMakesPending(s, e, n);
  }

  lemma StepKeepsSender(s: State, e: Event, n: nat)
    requires Inv(s) && LiveApart(s) && (e.Add? ==> IsFree(s, e.id)) && n < |Step(s, e).queries|
    ensures IsKept(Step(s, e).queries[n])
  {
    StepKeepsIds(s, e);
    if n < |s.queries| {
      SenderIsLostExactly(s, e, n);
      assert s.queries[n].hasSender ==> s.queries[n].stage.Pending?;
    }
  }

  lemma {:induction false} RunKeepsApart(events: seq<Event>)
    requires AddsApart(events)
    ensures LiveApart(Run(events))
  {
    if events != [] {
      var before, e := events[..|events| - 1], events[|events| - 1];
      var s, s' := Run(before), Run(events);
      PrefixAddsApart(events);
      RunKeepsApart(before);
      RunKeepsInv(before);
      forall m, n | 0 <= m < n < |s'.queries| && s'.queries[m].stage.Pending? && s'.queries[n].stage.Pending?
        ensures s'.queries[m].id != s'.queries[n].id
      {
        StepKeepsApart(s, e, m, n);
      }
      forall n | 0 <= n < |s'.queries| ensures IsKept(s'.queries[n]) {
        StepKeepsSender(s, e, n);
      }
    }
  }

  lemma PrefixAddsApart(events: seq<Event>)
    requires events != [] && AddsApart(events)
    ensures var before, e := events[..|events| - 1], events[|events| - 1];
            AddsApart(before) && (e.Add? ==> IsFree(Run(before), e.id))
  {
    var before := events[..|events| - 1];
    assert Before(events, |before|) == Run(before);
    forall j | 0 <= j < |before| && before[j].Add? ensures IsFree(Before(before, j), before[j].id) {
      BeforeInPrefix(events, j);
      assert IsFree(Before(events, j), events[j].id);
    }
  }

  /** As long as no query is added under the id of a pending one, the table holds exactly the
      unanswered pending queries, and no wait ever ends without an answer. */
  lemma TableIsUnanswered(events: seq<Event>)
    requires AddsApart(events)
    ensures var s := Run(events);
            && (forall id, n :: id in s.table && s.table[id] == n <==>
                  && 0 <= n < |s.queries| && s.queries[n].id == id
                  && s.queries[n].answer.None? && s.queries[n].stage.Pending?)
            && (forall n | 0 <= n < |s.queries| && s.queries[n].stage.Finished? :: s.queries[n].stage.result.Some?)
  {
    RunKeepsInv(events);
    RunKeepsApart(events);
  }

  /** The id of an event that adds query `n` and that of an older query are those of the order of adding. */
  lemma OlderIds(events: seq<Event>, a: nat, m: nat)
    requires a < |events| && events[a].Add? && m < |Before(events, a).queries|
    ensures var n := |Added(events[..a])|;
            && Adds(events, a, n) && m < n < |Added(events)|
            && Before(events, a).queries[m].id == Added(events)[m] && events[a].id == Added(events)[n]
  {
    AddedIsQueries(events[..a]);
    AddedGrows(events, a);
    AddedPrefix(events, a);
  }

  /** Distinct ids are always free. */
  lemma DistinctAddsApart(events: seq<Event>)
    requires forall m, n | 0 <= m < n < |Added(events)| :: Added(events)[m] != Added(events)[n]
    ensures AddsApart(events)
  {
    forall a: nat | a < |events| && events[a].Add? ensures IsFree(Before(events, a), events[a].id) {
      var s := Before(events, a);
      forall m | 0 <= m < |s.queries| && s.queries[m].stage.Pending? ensures s.queries[m].id != events[a].id {
        OlderIds(events, a, m);
      }
    }
  }

  /** The ids made from a counter are distinct until the counter has run through all its values. */
  lemma CounterIdsAreDistinct(m: nat, n: nat, from: nat)
    requires from <= m < from + U64_SPAN && from <= n < from + U64_SPAN
    ensures QueryIdOf(m) == QueryIdOf(n) <==> m == n
  {
    QueryIdsRepeat(m, n);
    WithinOneRound(m, n, m / U64_SPAN, n / U64_SPAN);
  }

  lemma WithinOneRound(m: nat, n: nat, p: nat, q: nat)
    requires m < n + U64_SPAN && n < m + U64_SPAN && p == m / U64_SPAN && q == n / U64_SPAN
    ensures m % U64_SPAN == n % U64_SPAN <==> m == n
  {
    assert m == U64_SPAN * p + m % U64_SPAN && n == U64_SPAN * q + n % U64_SPAN;
  }

  /** Ids from a counter are free whenever no pending query is a multiple of 2^64 counts away. So the
      counter has to lap a query that is still pending before anything can go wrong. */
  lemma CounterKeepsApart(events: seq<Event>, seqnos: seq<nat>)
    requires |seqnos| == |Added(events)| && forall i | 0 <= i < |seqnos| :: Added(events)[i] == QueryIdOf(seqnos[i])
    requires forall a: nat, n: nat, m: nat | Adds(events, a, n) && m < n < |seqnos| && IsPendingAt(events, a, m) ::
               seqnos[m] % U64_SPAN != seqnos[n] % U64_SPAN
    ensures AddsApart(events)
  {
    forall a: nat | a < |events| && events[a].Add? ensures IsFree(Before(events, a), events[a].id) {
      var s, n := Before(events, a), |Added(events[..a])|;
      forall m | 0 <= m < |s.queries| && s.queries[m].stage.Pending? ensures s.queries[m].id != events[a].id {
        OlderIds(events, a, m);
        assert IsPendingAt(events, a, m);
        QueryIdsRepeat(seqnos[m], seqnos[n]);
      }
    }
  }

  /** Query `m` is pending just before event `a`. */
  ghost predicate IsPendingAt(events: seq<Event>, a: nat, m: nat) {
    a <= |events| && m < |Before(events, a).queries| && Before(events, a).queries[m].stage.Pending?
  }

  lemma {:induction false} AddedPrefix(events: seq<Event>, a: nat)
    requires a <= |events|
    ensures Added(events[..a]) <= Added(events)
  {
    if a < |events| {
      assert events[..|events| - 1][..a] == events[..a];
      AddedPrefix(events[..|events| - 1], a);
    } else {
      assert events[..a] == events;
    }
  }

  // --- Repeated ids

  lemma RunAppend(events: seq<Event>, e: Event)
    ensures Run(events + [e]) == Step(Run(events), e)
  {
    assert (events + [e])[..|events|] == events;
  }

  lemma TwoUnderOneId(id: QueryId)
    ensures Run([Add(id), Add(id)])
            == State(map[id := 1], [Query(id, false, None, Pending), Query(id, true, None, Pending)])
  {
    assert [] + [Add(id)] + [Add(id)] == [Add(id), Add(id)];
    RunAppend([], Add(id));
    RunAppend([] + [Add(id)], Add(id));
  }

  /** It happens: a second query under the same id takes the place of the first, whose wait ends
      without an answer; and giving up the first one loses the second. */
  lemma DuplicatesLoseAnswers(id: QueryId, data: ByteString)
    ensures var s := Run([Add(id), Add(id)] + [Answer(id, data)] + [Wait(0)]);
            |s.queries| == 2 && s.queries[0].stage == Finished(None)
    ensures var s := Run([Add(id), Add(id)] + [Drop(0)] + [Answer(id, data)] + [Wait(1)]);
            |s.queries| == 2 && s.queries[1].stage == Finished(None)
  {
    FirstIsReplaced(id, data);
    SecondIsDropped(id, data);
  }

  lemma FirstIsReplaced(id: QueryId, data: ByteString)
    ensures var s := Run([Add(id), Add(id)] + [Answer(id, data)] + [Wait(0)]);
            |s.queries| == 2 && s.queries[0].stage == Finished(None)
  {
    var two := [Add(id), Add(id)];
    TwoUnderOneId(id);
    RunAppend(two, Answer(id, data));
    RunAppend(two + [Answer(id, data)], Wait(0));
  }

  lemma SecondIsDropped(id: QueryId, data: ByteString)
    ensures var s := Run([Add(id), Add(id)] + [Drop(0)] + [Answer(id, data)] + [Wait(1)]);
            |s.queries| == 2 && s.queries[1].stage == Finished(None)
  {
    var two := [Add(id), Add(id)];
    TwoUnderOneId(id);
    RunAppend(two, Drop(0));
    RunAppend(two + [Drop(0)], Answer(id, data));
    RunAppend(two + [Drop(0)] + [Answer(id, data)], Wait(1));
  }

  // --- The objects

  /** The one-shot channel between the table and a handle. */
  class Channel {
    var sent: Option<ByteString>
    var hasSender: bool
    var hasReceiver: bool

    constructor ()
      ensures sent == None && hasSender && hasReceiver
    {
      sent, hasSender, hasReceiver := None, true, true;
    }

    /** Sending uses the sender up, and fails without notice if nobody can receive any more. */
    method Send(data: ByteString)
      modifies this
      ensures !hasSender && hasReceiver == old(hasReceiver)
      ensures sent == if hasReceiver then Some(data) else old(sent)
    {
      if hasReceiver {
        sent := Some(data);
      }
      hasSender := false;
    }

    /** Dropping the sender without sending. */
    method DropSender()
      modifies this
      ensures !hasSender && hasReceiver == old(hasReceiver) && sent == old(sent)
    {
      hasSender := false;
    }
  }

  /** The channels are in the states of the queries. */
  ghost predicate Represents(channels: seq<Channel>, queries: seq<Query>)
    reads channels
  {
    && |channels| == |queries|
    && forall n | 0 <= n < |channels| ::
         && channels[n].sent == queries[n].answer && channels[n].hasSender == queries[n].hasSender
         && channels[n].hasReceiver == queries[n].stage.Pending?
  }

  /** The table holds the channels of the numbers in the table of the protocol state. */
  ghost predicate HoldsSenders(queries: map<QueryId, Channel>, s: State, channels: seq<Channel>) {
    && |channels| == |s.queries| && queries.Keys == s.table.Keys
    && (forall m, n | 0 <= m < n < |channels| :: channels[m] != channels[n])
    && (forall id | id in queries :: s.table[id] < |channels| && queries[id] == channels[s.table[id]])
  }

  lemma RemoveHoldsSenders(queries: map<QueryId, Channel>, s: State, channels: seq<Channel>, id: QueryId, s': State)
    requires HoldsSenders(queries, s, channels) && s'.table == s.table - {id} && |s'.queries| == |s.queries|
    ensures HoldsSenders(queries - {id}, s', channels)
  {
  }

  lemma AddHoldsSenders(queries: map<QueryId, Channel>, s: State, channels: seq<Channel>, id: QueryId, channel: Channel,
                        s': State)
    requires HoldsSenders(queries, s, channels) && channel !in channels
    requires s'.table == s.table[id := |s.queries|] && |s'.queries| == |s.queries| + 1
    ensures HoldsSenders(queries[id := channel], s', channels + [channel])
  {
  }

  /** The effect of each event on the table and the queries of a reachable state. */
  lemma AddChanges(events: seq<Event>, id: QueryId)
    ensures var s, s' := Run(events), Run(events + [Add(id)]);
            s' == State(s.table[id := |s.queries|], Release(s, id) + [Query(id, true, None, Pending)])
  {
    RunAppend(events, Add(id));
  }

  lemma AnswerChanges(events: seq<Event>, id: QueryId, data: ByteString)
    ensures var s, s' := Run(events), Run(events + [Answer(id, data)]);
            && s'.table == s.table - {id}
            && (id in s.table ==>
                  && s.table[id] < |s.queries|
                  && s'.queries == s.queries[s.table[id] := Send(s.queries[s.table[id]], data)])
            && (id !in s.table ==> s'.queries == s.queries)
  {
    RunAppend(events, Answer(id, data));
    RunKeepsInv(events);
  }

  lemma WaitChanges(events: seq<Event>, n: nat)
    requires n < |Run(events).queries|
    ensures var s, s' := Run(events), Run(events + [Wait(n)]);
            s'.table == s.table && s'.queries == s.queries[n := Poll(s.queries[n])]
  {
    RunAppend(events, Wait(n));
  }

  lemma DropChanges(events: seq<Event>, n: nat)
    requires n < |Run(events).queries|
    ensures var s, s' := Run(events), Run(events + [Drop(n)]);
            var q := s.queries[n];
            && (!q.stage.Pending? ==> s' == s)
            && (q.stage.Pending? ==>
                  && s'.table == s.table - {q.id} && |s'.queries| == |s.queries|
                  && s'.queries[n] == Release(s, q.id)[n].(stage := Dropped)
                  && forall m | 0 <= m < |s.queries| && m != n :: s'.queries[m] == Release(s, q.id)[m])
  {
    RunAppend(events, Drop(n));
  }

  class Cache {
    var queries: map<QueryId, Channel>
    /** What has happened so far: the state of the protocol is that after these events. */
    ghost var events: seq<Event>
    /** The channels of all queries ever added, by number. */
    ghost var channels: seq<Channel>

    ghost predicate Valid()
      reads this, channels
    {
      HoldsSenders(queries, Run(events), channels) && Represents(channels, Run(events).queries)
    }

    constructor ()
      ensures Valid() && events == [] && channels == []
    {
      queries, events, channels := map[], [], [];
    }

    /** `add_query` */
    method AddQuery(queryId: QueryId) returns (pending: PendingQuery)
      requires Valid()
      modifies this, channels
      ensures events == old(events) + [Add(queryId)]
      ensures fresh(pending) && pending.cache == this && pending.n == |old(channels)| && pending.Valid()
      ensures channels == old(channels) + [pending.dataRx] && fresh(pending.dataRx)
    {
      var channel := new Channel();
      AddChanges(events, queryId);
      Insert(queryId, channel);
      pending := new PendingQuery(queryId, channel, this, |old(channels)|);
    }

    /** Puts a new sender into the table: one already under the id is replaced and so dropped. */
    method Insert(queryId: QueryId, channel: Channel)
      requires Valid() && channel !in channels && channel.sent == None && channel.hasSender && channel.hasReceiver
      modifies this, channels
      ensures Valid() && events == old(events) + [Add(queryId)] && channels == old(channels) + [channel]
    {
      AddChanges(events, queryId);
      Replace(queryId, channel, Run(events), Run(events + [Add(queryId)]));
      events := events + [Add(queryId)];
    }

    method Replace(queryId: QueryId, channel: Channel, ghost s: State, ghost s': State)
      requires HoldsSenders(queries, s, channels) && Represents(channels, s.queries)
      requires channel !in channels && channel.sent == None && channel.hasSender && channel.hasReceiver
      requires s' == State(s.table[queryId := |s.queries|], Release(s, queryId) + [Query(queryId, true, None, Pending)])
      modifies this`queries, this`channels, channels
      ensures channels == old(channels) + [channel]
      ensures HoldsSenders(queries, s', channels) && Represents(channels, s'.queries)
    {
      AddHoldsSenders(queries, s, channels, queryId, channel, s');
      if queryId in queries {
        DropSenderOf(queries[queryId], s.table[queryId], channels, s.queries, Release(s, queryId));
      }
      RepresentsMore(channels, Release(s, queryId), channel, Query(queryId, true, None, Pending));
      Put(queryId, channel, s');
    }

    method Put(queryId: QueryId, channel: Channel, ghost s': State)
      requires HoldsSenders(queries[queryId := channel], s', channels + [channel])
      requires Represents(channels + [channel], s'.queries)
      modifies this`queries, this`channels
      ensures channels == old(channels) + [channel]
      ensures HoldsSenders(queries, s', channels) && Represents(channels, s'.queries)
    {
      queries := queries[queryId := channel];
      channels := channels + [channel];
    }

    /** Takes the sender under the id out of the table and drops it. */
    method Remove(queryId: QueryId, ghost s: State)
      requires HoldsSenders(queries, s, channels) && Represents(channels, s.queries)
      modifies this`queries, set id | id in queries :: queries[id]
      ensures queries == old(queries) - {queryId} && Represents(channels, Release(s, queryId))
    {
      if queryId in queries {
        DropSenderOf(queries[queryId], s.table[queryId], channels, s.queries, Release(s, queryId));
        queries := queries - {queryId};
      }
    }

    /** `update_query`: an answer to an unknown id is ignored. */
    method UpdateQuery(queryId: QueryId, answer: ByteString)
      requires Valid()
      modifies this`queries, this`events, channels
      ensures Valid() && events == old(events) + [Answer(queryId, answer)]
    {
      ghost var s, s' := Run(events), Run(events + [Answer(queryId, answer)]);
      AnswerChanges(events, queryId, answer);
      RemoveHoldsSenders(queries, s, channels, queryId, s');
      events := events + [Answer(queryId, answer)];
      if queryId in queries {
        var channel := queries[queryId];
        queries := queries - {queryId};
        SendTo(channel, answer, s.table[queryId], channels, s.queries, s'.queries);
      }
    }
  }

  lemma RepresentsMore(channels: seq<Channel>, queries: seq<Query>, channel: Channel, q: Query)
    requires Represents(channels, queries)
    requires channel.sent == q.answer && channel.hasSender == q.hasSender && channel.hasReceiver == q.stage.Pending?
    ensures Represents(channels + [channel], queries + [q])
  {
  }

  /** One of different channels loses its sender. */
  method DropSenderOf(channel: Channel, ghost n: nat, ghost channels: seq<Channel>,
                      ghost before: seq<Query>, ghost after: seq<Query>)
    requires Represents(channels, before) && n < |channels| && channels[n] == channel
    requires forall m, k | 0 <= m < k < |channels| :: channels[m] != channels[k]
    requires after == before[n := before[n].(hasSender := false)]
    modifies channel
    ensures Represents(channels, after)
  {
    channel.DropSender();
  }

  /** One of different channels sends. */
  method SendTo(channel: Channel, data: ByteString, ghost n: nat, ghost channels: seq<Channel>,
                ghost before: seq<Query>, ghost after: seq<Query>)
    requires Represents(channels, before) && n < |channels| && channels[n] == channel
    requires forall m, k | 0 <= m < k < |channels| :: channels[m] != channels[k]
    requires after == before[n := Send(before[n], data)]
    modifies channel
    ensures Represents(channels, after)
  {
    channel.Send(data);
  }

  class PendingQuery {
    const queryId: QueryId
    const dataRx: Channel
    const cache: Cache
    var finished: bool
    ghost const n: nat

    ghost predicate Valid()
      reads this, cache, cache.channels
    {
      && cache.Valid() && n < |cache.channels| && dataRx == cache.channels[n]
      && Query().id == queryId && finished == Query().stage.Finished?
    }

    /** The query in the state of the protocol. */
    ghost function Query(): Query
      reads this, cache
      requires n < |Run(cache.events).queries|
    {
      Run(cache.events).queries[n]
    }

    constructor (queryId: QueryId, dataRx: Channel, cache: Cache, ghost n: nat)
      ensures this.queryId == queryId && this.dataRx == dataRx && this.cache == cache && this.n == n && !finished
    {
      this.queryId, this.dataRx, this.cache, this.n := queryId, dataRx, cache, n;
      finished := false;
    }

    /** One poll of `wait`: nothing yet, or the end of the wait, with the answer or without. */
    method Poll() returns (r: Option<Option<ByteString>>)
      requires Valid() && Query().stage.Pending?
      modifies this`finished, cache`events, dataRx
      ensures Valid() && cache.events == old(cache.events) + [Wait(n)]
      ensures r == if Query().stage.Finished? then Some(Query().stage.result) else None
      ensures r.Some? <==> old(dataRx.sent).Some? || !old(dataRx.hasSender)
      ensures r.Some? ==> r.value == old(dataRx.sent)
      ensures finished == r.Some?
    {
      ghost var s, s' := Run(cache.events), Run(cache.events + [Wait(n)]);
      WaitChanges(cache.events, n);
      cache.events := cache.events + [Wait(n)];
      r := None;
      if dataRx.sent.Some? || !dataRx.hasSender {
        r := Some(dataRx.sent);
        finished := true;
        CloseReceiver(cache.channels, s.queries, s'.queries, Finished(dataRx.sent));
      }
    }

    /** `drop` of the handle: an unfinished query leaves the table, by its id. */
    method Drop()
      requires Valid() && !Query().stage.Dropped?
      modifies cache`queries, cache`events, cache.channels
      ensures Valid() && cache.events == old(cache.events) + [Event.Drop(n)]
    {
      if !finished {
        DropUnfinished();
      } else {
        DropChanges(cache.events, n);
        cache.events := cache.events + [Event.Drop(n)];
      }
    }

    method DropUnfinished()
      requires Valid() && Query().stage.Pending?
      modifies cache`queries, cache`events, cache.channels
      ensures Valid() && cache.events == old(cache.events) + [Event.Drop(n)]
    {
      ghost var s, s' := Run(cache.events), Run(cache.events + [Event.Drop(n)]);
      DropChanges(cache.events, n);
      RemoveHoldsSenders(cache.queries, s, cache.channels, queryId, s');
      cache.events := cache.events + [Event.Drop(n)];
      cache.Remove(queryId, s);
      CloseReceiver(cache.channels, Release(s, queryId), s'.queries, Dropped);
    }

    /** The receiver is gone, and with it the pending stage. */
    method CloseReceiver(ghost channels: seq<Channel>, ghost before: seq<Query>, ghost after: seq<Query>,
                         ghost stage: Stage)
      requires Represents(channels, before) && |after| == |before| && n < |channels| && channels[n] == dataRx
      requires forall m, k | 0 <= m < k < |channels| :: channels[m] != channels[k]
      requires !stage.Pending? && after[n] == before[n].(stage := stage)
      requires forall m | 0 <= m < |before| && m != n :: after[m] == before[m]
      modifies dataRx
      ensures Represents(channels, after)
      ensures dataRx.sent == old(dataRx.sent) && dataRx.hasSender == old(dataRx.hasSender)
    {
      dataRx.hasReceiver := false;
    }
  }
}
