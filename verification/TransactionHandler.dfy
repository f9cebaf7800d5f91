/** The capture handler: two hand-kept indexes over transactions, five counters, and the
    dispatch of decoded payloads. `Handler<R>` is its state over storage addresses `R`, with
    freed storage outside `heap`; the class below keeps the same state in its fields. */
module TransactionHandler {
  import opened LatencyReport
  import opened Options
  import opened Ordering
  import opened Transactions

  // ---- what a frame carries ----

  datatype TxSelector = TxId(id: string) | BeginTx | OtherSelector

  datatype DataQuery = DataQuery(hasQuery: bool, session: string, txControl: Option<TxSelector>, text: string)

  datatype CommitRequest = CommitRequest(session: string, txId: string)

  /** How each of the four message types decodes the same bytes; for the two responses the
      flag says whether the decoded message has an operation. */
  datatype Payload = Payload(
    dataQuery: Option<DataQuery>,
    commit: Option<CommitRequest>,
    queryResponse: Option<bool>,
    commitResponse: Option<bool>)

  datatype Frame = Frame(source: Endpoint, destination: Endpoint, number: nat, ts: U64)

  /** What the handler is asked to do. */
  datatype Event =
    | Begin(stream: StreamId, session: string, ts: U64)
    | Request(stream: StreamId, session: string, txId: string, ts: U64, isCommit: bool)
    | Response(stream: StreamId, ts: U64, asQuery: bool, asCommit: bool)
    | Skip(ts: U64)
    | Nothing(ts: U64)

  type Filter = Option<DataQuery -> bool>

  function ClassifyQuery(q: DataQuery, frame: Frame, filter: Filter): Event {
    var stream := StreamId(frame.source, frame.number);
    match q.txControl
    case None => Nothing(frame.ts)
    case Some(TxId(id)) => Request(stream, q.session, id, frame.ts, false)
    case Some(BeginTx) =>
      if filter == None || filter.value(q) then Begin(stream, q.session, frame.ts) else Skip(frame.ts)
    case Some(OtherSelector) => Skip(frame.ts)
  }

  predicate LooksLikeQuery(p: Payload) {
    p.dataQuery.Some? && p.dataQuery.value.hasQuery && p.dataQuery.value.session != ""
  }

  predicate LooksLikeCommit(p: Payload) {
    p.commit.Some? && p.commit.value.session != "" && p.commit.value.txId != ""
  }

  /** Requests are recognised before responses, and data queries before commits. */
  function Classify(p: Payload, frame: Frame, filter: Filter): (e: Event)
    ensures e.ts == frame.ts
    ensures e.Response? <==> !LooksLikeQuery(p) && !LooksLikeCommit(p)
    ensures e.Request? && e.isCommit <==> !LooksLikeQuery(p) && LooksLikeCommit(p)
    ensures e.Request? || e.Begin? ==> e.session != "" && e.stream == StreamId(frame.source, frame.number)
    ensures e.Response? ==> e.stream == StreamId(frame.destination, frame.number)
  {
    if LooksLikeQuery(p) then
      ClassifyQuery(p.dataQuery.value, frame, filter)
    else if LooksLikeCommit(p) then
      Request(StreamId(frame.source, frame.number), p.commit.value.session, p.commit.value.txId, frame.ts, true)
    else
      Response(StreamId(frame.destination, frame.number), frame.ts,
               p.queryResponse == Some(true), p.commitResponse == Some(true))
  }

  /** A decoded query with text and a session. */
  predicate IsQuery(p: Payload, q: DataQuery) { p.dataQuery == Some(q) && q.hasQuery && q.session != "" }

  /** What a query is taken for follows from its selector alone, and for one that begins a transaction from the filter;
      a begin that the filter rejects is counted as skipped. */
  lemma {:induction false} QueryEvents(p: Payload, q: DataQuery, frame: Frame, filter: Filter)
    requires IsQuery(p, q)
    ensures var e := Classify(p, frame, filter); var stream := StreamId(frame.source, frame.number);
            && (e.Begin? <==> q.txControl == Some(BeginTx) && (filter.Some? ==> filter.value(q)))
            && (e.Begin? ==> e == Begin(stream, q.session, frame.ts))
            && (e.Request? <==> q.txControl.Some? && q.txControl.value.TxId?)
            && (e.Request? ==> e == Request(stream, q.session, q.txControl.value.id, frame.ts, false))
            && (e.Skip? <==> q.txControl == Some(OtherSelector)
                             || (q.txControl == Some(BeginTx) && filter.Some? && !filter.value(q)))
            && (e.Nothing? <==> q.txControl == None)
  {
  }

  /** A payload that is no such query is a commit if it has a session and a transaction, and a response otherwise, with
      what it decodes to. Nothing else begins a transaction, or sends a request in one. */
  lemma {:induction false} OtherEvents(p: Payload, frame: Frame, filter: Filter)
    requires forall q :: !IsQuery(p, q)
    ensures var e := Classify(p, frame, filter);
            if p.commit.Some? && p.commit.value.session != "" && p.commit.value.txId != "" then
              var c := p.commit.value;
              e == Request(StreamId(frame.source, frame.number), c.session, c.txId, frame.ts, true)
            else
              && e.Response?
              && e.stream == StreamId(frame.destination, frame.number) && e.ts == frame.ts
              && (e.asQuery <==> p.queryResponse == Some(true))
              && (e.asCommit <==> p.commitResponse == Some(true))
  {
    if p.dataQuery.Some? {
      assert !IsQuery(p, p.dataQuery.value);
    }
  }

  // ---- the state and its operations ----

  datatype Handler<!R> = Handler(
    active: map<string, R>,
    byStream: map<StreamId, R>,
    heap: map<R, Txn>,
    finished: seq<R>,
    processed: nat,
    skipped: nat,
    aborted: nat,
    idMismatch: nat,
    requestMismatch: nat)
  {
    /** Erasing an owning pointer frees the transaction. */
    function EraseActive(session: string): Handler<R> {
      if session in active then this.(active := active - {session}, heap := heap - {active[session]}) else this
    }
  }

  /** `Fault`: freed storage or the end of an index was dereferenced. */
  datatype Result<!R> = Next(h: Handler<R>) | Threw(error: Error, left: Handler<R>) | Fault

  function Init<R>(): Handler<R> { Handler(map[], map[], map[], [], 0, 0, 0, 0, 0) }

  /** Storage available to a begin: what is free once the old transaction of its session is freed. */
  predicate Free<R(==)>(h: Handler<R>, e: Event, slot: R) {
    slot in h.heap ==> e.Begin? && e.session in h.active && h.active[e.session] == slot
  }

  function DropEffect<R>(h: Handler<R>, session: string, stream: StreamId): Handler<R> {
    h.(byStream := h.byStream - {stream}, requestMismatch := h.requestMismatch + 1).EraseActive(session)
  }

  function InstallEffect<R>(h: Handler<R>, stream: StreamId, session: string, slot: R, t: Txn): Handler<R> {
    h.(heap := h.heap[slot := t], byStream := h.byStream[stream := slot], active := h.active[session := slot],
       processed := h.processed + 1)
  }

  function BeginEffect<R>(h: Handler<R>, stream: StreamId, session: string, ts: U64, slot: R): Result<R> {
    if stream in h.byStream then
      Next(DropEffect(h, session, stream))
    else
      var h1 := if session in h.active then h.EraseActive(session).(aborted := h.aborted + 1) else h;
      match NewTxn(stream, session, ts)
      case Throws(e) => Threw(e, h1)
      case Ok(t) =>
        Next(InstallEffect(h1, stream, session, slot, t))
  }

  /** What the search through the stream index for an entry that points at `r` can come to. */
  ghost predicate Finds<R>(byStream: map<StreamId, R>, r: R, found: StreamId) {
    || (found in byStream && byStream[found] == r)
    || (found == NoStream && forall k :: k in byStream ==> byStream[k] != r)
  }

  ghost function FindStream<R>(byStream: map<StreamId, R>, r: R): (found: StreamId)
    ensures Finds(byStream, r, found)
  {
    if exists k :: k in byStream && byStream[k] == r then
      var k :| k in byStream && byStream[k] == r;
      k
    else NoStream
  }

  /** Start the request on transaction `t`, kept at `r`, and index it. */
  function IssueRequest<R>(h: Handler<R>, r: R, t: Txn, stream: StreamId, session: string, ts: U64, isCommit: bool)
    : Result<R>
  {
    match if isCommit then t.StartCommit(stream, session, ts) else t.StartRequest(stream, session, ts)
    case Throws(e) => Threw(e, h.(heap := h.heap[r := t]))
    case Ok(t1) => Next(h.(heap := h.heap[r := t1], byStream := h.byStream[stream := r], processed := h.processed + 1))
  }

  function MismatchEffect<R>(h: Handler<R>, session: string, found: StreamId): Handler<R> {
    h.(byStream := if found.Empty() then h.byStream else h.byStream - {found}, idMismatch := h.idMismatch + 1)
     .EraseActive(session)
  }

  /** `found` is what a search through the stream index comes to, where there is one. */
  function RequestEffect<R>(h: Handler<R>, stream: StreamId, session: string, txId: string, ts: U64, isCommit: bool,
                            found: StreamId): Result<R>
  {
    if session == "" then Threw(EmptySession, h)
    else if session !in h.active then Next(h.(skipped := h.skipped + 1))
    else
      var r := h.active[session];
      if r !in h.heap then Fault
      else
        var t := h.heap[r];
        if t.InProgress() then
          Next(DropEffect(h, session, t.current))
        else if t.txId != "" && t.txId != txId then
          Next(MismatchEffect(h, session, found))
        else
          IssueRequest(h, r, if t.txId == "" then t.(txId := txId) else t, stream, session, ts, isCommit)
  }

  function ResponseEffect<R>(h: Handler<R>, stream: StreamId, ts: U64): Result<R> {
    if stream !in h.byStream || h.byStream[stream] !in h.heap then Fault
    else match h.heap[h.byStream[stream]].FinishRequest(stream, ts)
      case Throws(e) => Threw(e, h)
      case Ok(t) =>
        Next(h.(heap := h.heap[h.byStream[stream] := t], byStream := h.byStream - {stream},
                processed := h.processed + 1))
  }

  function RetireEffect<R>(h: Handler<R>, session: string, stream: StreamId): Handler<R>
    requires session in h.active
  {
    h.(byStream := h.byStream - {stream}, active := h.active - {session},
       finished := h.finished + [h.active[session]], processed := h.processed + 1)
  }

  function CommitResponseEffect<R>(h: Handler<R>, stream: StreamId, ts: U64): Result<R> {
    if stream !in h.byStream then Next(h.(skipped := h.skipped + 1))
    else if h.byStream[stream] !in h.heap then Fault
    else match h.heap[h.byStream[stream]].FinishTransaction(stream, ts)
      case Throws(e) => Threw(e, h)
      case Ok(t) =>
        var h1 := h.(heap := h.heap[h.byStream[stream] := t]);
        if t.session !in h.active then Threw(TransactionNotFoundForSession, h1)
        else Next(RetireEffect(h1, t.session, stream))
  }

  /** What a try-handler did: left the message alone, or took it. */
  datatype Tried<!R> = NotMine | Taken(result: Result<R>)

  function TryQueryResponse<R>(h: Handler<R>, stream: StreamId, ts: U64): Tried<R> {
    if stream !in h.byStream then NotMine
    else if h.byStream[stream] !in h.heap then Taken(Fault)
    else if h.heap[h.byStream[stream]].committing then NotMine
    else Taken(ResponseEffect(h, stream, ts))
  }

  function TryCommitResponse<R>(h: Handler<R>, stream: StreamId, ts: U64): Tried<R> {
    if stream !in h.byStream then NotMine
    else if h.byStream[stream] !in h.heap then Taken(Fault)
    else if !h.heap[h.byStream[stream]].committing then NotMine
    else Taken(CommitResponseEffect(h, stream, ts))
  }

  function OnResponse<R>(h: Handler<R>, stream: StreamId, ts: U64, asQuery: bool, asCommit: bool): Result<R> {
    var q := if asQuery then TryQueryResponse(h, stream, ts) else NotMine;
    if q.Taken? then q.result
    else
      var c := if asCommit then TryCommitResponse(h, stream, ts) else NotMine;
      if c.Taken? then c.result else Next(h)
  }

  /** What the search after a request can come to. */
  ghost predicate Searched<R>(h: Handler<R>, e: Event, found: StreamId) {
    e.Request? && e.session in h.active ==> Finds(h.byStream, h.active[e.session], found)
  }

  ghost function SearchFor<R>(h: Handler<R>, e: Event): (found: StreamId)
    ensures Searched(h, e, found)
  {
    if e.Request? && e.session in h.active then FindStream(h.byStream, h.active[e.session]) else NoStream
  }

  /** The events that construct nothing. */
  ghost function React<R>(h: Handler<R>, e: Event): Result<R>
    requires !e.Begin?
  {
    ReactWith(h, e, SearchFor(h, e))
  }

  function ReactWith<R>(h: Handler<R>, e: Event, found: StreamId): Result<R>
    requires !e.Begin?
  {
    match e
    case Request(stream, session, txId, ts, isCommit) => RequestEffect(h, stream, session, txId, ts, isCommit, found)
    case Response(stream, ts, asQuery, asCommit) => OnResponse(h, stream, ts, asQuery, asCommit)
    case Skip(_) => Next(h.(skipped := h.skipped + 1))
    case Nothing(_) => Next(h)
  }

  /** One event; `slot` is the storage that a begin gets. */
  ghost function Step<R>(h: Handler<R>, e: Event, slot: R): Result<R> {
    if e.Begin? then BeginEffect(h, e.stream, e.session, e.ts, slot) else React(h, e)
  }

  /** A whole capture, each event with the storage a begin would get. */
  ghost function Run<R>(es: seq<(Event, R)>): Result<R> {
    if es == [] then Next(Init())
    else match Run(es[..|es| - 1])
      case Next(h) => Step(h, es[|es| - 1].0, es[|es| - 1].1)
      case other => other
  }

  /** Every live transaction that the stream index points at is waiting on that very stream. */
  ghost predicate Anchored<R>(h: Handler<R>) {
    forall k :: k in h.byStream && h.byStream[k] in h.heap ==>
      !k.Empty() && h.heap[h.byStream[k]].current == k
  }

  /** Whatever a search comes to, a fault does not depend on it; on an anchored index nothing does. */
  lemma {:induction false} SearchMatters<R>(h: Handler<R>, e: Event, found: StreamId)
    requires !e.Begin? && Searched(h, e, found)
    ensures ReactWith(h, e, found) == Fault <==> React(h, e) == Fault
    ensures Anchored(h) ==> ReactWith(h, e, found) == React(h, e)
  {
  }

  lemma {:induction false} ReactAnchored<R>(h: Handler<R>, e: Event)
    requires Anchored(h) && !e.Begin? && (e.Request? ==> !e.stream.Empty())
    ensures React(h, e).Next? ==> Anchored(React(h, e).h)
  {
  }

  lemma {:induction false} BeginAnchored<R>(h: Handler<R>, e: Event, slot: R)
    requires Anchored(h) && e.Begin? && !e.stream.Empty()
    requires e.stream in h.byStream || slot !in h.byStream.Values
    ensures Step(h, e, slot).Next? ==> Anchored(Step(h, e, slot).h)
  {
    if e.stream !in h.byStream {
      forall k | k in h.byStream ensures h.byStream[k] != slot {
        assert h.byStream[k] in h.byStream.Values;
      }
    }
  }

  /** The values kept at the addresses `rs`. */
  function Values<R>(heap: map<R, Txn>, rs: seq<R>): (r: seq<Txn>)
    requires forall i :: 0 <= i < |rs| ==> rs[i] in heap
    ensures |r| == |rs|
    ensures forall i :: 0 <= i < |rs| ==> r[i] == heap[rs[i]]
  {
    if rs == [] then [] else Values(heap, rs[..|rs| - 1]) + [heap[rs[|rs| - 1]]]
  }

  /** Sorting references by their total times permutes them and puts the times in order. */
  lemma {:induction false} SortedPairs<R>(keyed: seq<(U64, R)>, rs: seq<R>, heap: map<R, Txn>)
    requires |keyed| == |rs|
    requires forall i :: 0 <= i < |rs| ==> rs[i] in heap && keyed[i] == (heap[rs[i]].TotalTime(), rs[i])
    ensures var sorted := Seconds(Sort(FirstLe<R>(), keyed));
            && multiset(sorted) == multiset(rs)
            && (forall i :: 0 <= i < |sorted| ==> sorted[i] in heap)
            && ByTotalTime(Values(heap, sorted))
  {
    var pairs := Sort(FirstLe<R>(), keyed);
    SecondsSort(FirstLe<R>(), keyed);
    assert Seconds(keyed) == rs;
    SortSorts(FirstLe<R>(), keyed);
    PairsKept(keyed, pairs, heap);
    forall i, j | 0 <= i < j < |pairs| ensures heap[pairs[i].1].TotalTime() <= heap[pairs[j].1].TotalTime() {
      assert FirstLe<R>()(pairs[i], pairs[j]);
    }
  }

  lemma {:induction false} PairsKept<R>(keyed: seq<(U64, R)>, pairs: seq<(U64, R)>, heap: map<R, Txn>)
    requires multiset(pairs) == multiset(keyed)
    requires forall i :: 0 <= i < |keyed| ==> keyed[i].1 in heap && keyed[i].0 == heap[keyed[i].1].TotalTime()
    ensures forall i :: 0 <= i < |pairs| ==> pairs[i].1 in heap && pairs[i].0 == heap[pairs[i].1].TotalTime()
  {
    forall i | 0 <= i < |pairs| ensures pairs[i].1 in heap && pairs[i].0 == heap[pairs[i].1].TotalTime() {
      assert pairs[i] in multiset(pairs);
      assert pairs[i] in keyed;
    }
  }

  // ---- the object ----

  lemma {:induction false} ValuesCollected<R>(heap: map<R, Txn>, rs: seq<R>, f: R -> seq<Txn>)
    requires forall i :: 0 <= i < |rs| ==> rs[i] in heap
    requires forall r :: r in heap ==> f(r) == [heap[r]]
    ensures Values(heap, rs) == Collected(f, rs)
  {
    if rs != [] {
      ValuesCollected(heap, rs[..|rs| - 1], f);
    }
  }

  /** The same references lead to the same values, in any order. */
  lemma {:induction false} ValuesPermuted<R>(heap: map<R, Txn>, rs: seq<R>, ss: seq<R>)
    requires multiset(rs) == multiset(ss)
    requires forall i :: 0 <= i < |ss| ==> ss[i] in heap
    ensures forall i :: 0 <= i < |rs| ==> rs[i] in heap
    ensures multiset(Values(heap, rs)) == multiset(Values(heap, ss))
  {
    var f := (r: R) => if r in heap then [heap[r]] else [];
    SameElements(rs, ss);
    forall i | 0 <= i < |rs| ensures rs[i] in heap {
      assert rs[i] in ss;
    }
    ValuesCollected(heap, rs, f);
    ValuesCollected(heap, ss, f);
    CollectedPermuted(f, rs, ss);
  }

  // ---- what is printed ----

  datatype Counts = Counts(processed: nat, skipped: nat, aborted: nat, idMismatch: nat, requestMismatch: nat,
                           committed: nat)

  /** The counters, the percentile blocks of total, client, server and request time, and the slowest transactions. */
  datatype Printout =
    | NothingFinished
    | Printout(counts: Counts, blocks: seq<seq<int>>, slowest: seq<TransactionState>)

  /** The last `limit` elements, from the end. */
  ghost predicate LastOnes<T>(xs: seq<T>, limit: int, r: seq<T>) {
    && |r| == (if limit <= 0 then 0 else if limit <= |xs| then limit else |xs|)
    && forall i :: 0 <= i < |r| ==> r[i] == xs[|xs| - 1 - i]
  }

  /** The method did what the state operation says. */
  ghost predicate Performed(spec: Result<TransactionState>, r: Status, after: Handler<TransactionState>) {
    match spec
    case Next(h) => r == Done && after == h
    case Threw(e, left) => r == Thrown(e) && after == left
    case Fault => false
  }

  /** The event was handled as `Step` says; `slot` is the storage that a begin got, if it constructed anything. */
  ghost predicate EventHandled(h: Handler<TransactionState>, e: Event, slot: Option<TransactionState>, r: Status,
                               after: Handler<TransactionState>)
  {
    if e.Begin? && slot.None? then
      e.stream in h.byStream && r == Done && after == DropEffect(h, e.session, e.stream)
    else if e.Begin? then
      && slot.value !in h.heap && slot.value !in h.byStream.Values
      && Performed(Step(h, e, slot.value), r, after)
    else
      exists found :: Searched(h, e, found) && Performed(ReactWith(h, e, found), r, after)
  }

  lemma {:induction false} HandledAnchored(h: Handler<TransactionState>, e: Event, slot: Option<TransactionState>,
                                           r: Status, after: Handler<TransactionState>)
    requires EventHandled(h, e, slot, r, after) && r == Done && Anchored(h)
    requires e.Begin? || e.Request? ==> !e.stream.Empty()
    ensures Anchored(after)
  {
    if e.Begin? {
      BeginAnchored(h, e, if slot.Some? then slot.value else h.byStream[e.stream]);
    } else {
      var found :| Searched(h, e, found) && Performed(ReactWith(h, e, found), r, after);
      SearchMatters(h, e, found);
      ReactAnchored(h, e);
    }
  }

  class Tracker {
    const filter: Filter
    var activeTransactions: map<string, TransactionState>
    var transactionsByStream: map<StreamId, TransactionState>
    var finishedTransactions: seq<TransactionState>
    var requestResponsesProcessed: nat
    var requestResponsesSkipped: nat
    var transactionsAborted: nat
    var transactionIdMismatch: nat
    var requestResponseMismatch: nat
    var clientLatencies: seq<int>
    var serverLatencies: seq<int>
    var serverQueryLatencies: seq<int>
    /** The transactions that have been constructed and not freed, with their values. */
    ghost var heap: map<TransactionState, Txn>

    ghost predicate Valid()
      reads this, heap.Keys
    {
      forall t :: t in heap ==> t.Value() == heap[t]
    }

    ghost function State(): Handler<TransactionState>
      reads this
    {
      Handler(activeTransactions, transactionsByStream, heap, finishedTransactions,
              requestResponsesProcessed, requestResponsesSkipped, transactionsAborted,
              transactionIdMismatch, requestResponseMismatch)
    }

    constructor (filter: Filter)
      ensures Valid() && State() == Init() && this.filter == filter && Lists() == ([], [], [])
    {
      this.filter := filter;
      activeTransactions, transactionsByStream, finishedTransactions := map[], map[], [];
      requestResponsesProcessed, requestResponsesSkipped, transactionsAborted := 0, 0, 0;
      transactionIdMismatch, requestResponseMismatch := 0, 0;
      clientLatencies, serverLatencies, serverQueryLatencies := [], [], [];
      heap := map[];
    }

    function Lists(): (seq<int>, seq<int>, seq<int>)
      reads this
    {
      (clientLatencies, serverLatencies, serverQueryLatencies)
    }

    /** Record in `heap` what an update made of `t`. */
    ghost method Store(t: TransactionState)
      requires forall o :: o in heap && o != t ==> o.Value() == heap[o]
      modifies this`heap
      ensures Valid() && heap == old(heap)[t := t.Value()]
    {
      heap := heap[t := t.Value()];
    }

    method EraseActive(session: string)
      requires Valid()
      modifies this
      ensures Lists() == old(Lists())
      ensures Valid() && heap.Keys <= old(heap.Keys)
      ensures State() == old(State()).EraseActive(session)
    {
      if session in activeTransactions {
        heap := heap - {activeTransactions[session]};
        activeTransactions := activeTransactions - {session};
      }
    }

    /** A request that was not expected: the stream and the session are forgotten. */
    method DropWaiting(session: string, stream: StreamId)
      requires Valid()
      modifies this
      ensures Lists() == old(Lists())
      ensures Valid() && heap.Keys <= old(heap.Keys)
      ensures State() == DropEffect(old(State()), session, stream)
    {
      transactionsByStream := transactionsByStream - {stream};
      EraseActive(session);
      requestResponseMismatch := requestResponseMismatch + 1;
    }

    /** A begin on an indexed stream constructs nothing. */
    method StartTransaction(stream: StreamId, session: string, ts: U64)
      returns (r: Status, ghost slot: Option<TransactionState>)
      requires Valid()
      modifies this
      ensures Lists() == old(Lists())
      ensures Valid() && (forall t :: t in heap ==> t in old(heap) || Some(t) == slot)
      ensures slot.Some? <==> stream !in old(transactionsByStream)
      ensures slot.Some? ==> fresh(slot.value)
      ensures slot.Some? ==> Performed(BeginEffect(old(State()), stream, session, ts, slot.value), r, State())
      ensures slot.None? ==> r == Done && State() == DropEffect(old(State()), session, stream)
    {
      if stream in transactionsByStream {
        DropWaiting(session, stream);
        return Done, None;
      }
      if session in activeTransactions {
        EraseActive(session);
        transactionsAborted := transactionsAborted + 1;
      }
      var state := new TransactionState(stream, session, ts);
      Install(stream, session, state);
      return Done, Some(state);
    }

    /** Index a new transaction under its stream and own it under its session. */
    method Install(stream: StreamId, session: string, state: TransactionState)
      requires Valid()
      modifies this
      ensures Lists() == old(Lists())
      ensures Valid()
      ensures State() == InstallEffect(old(State()), stream, session, state, state.Value())
    {
      Store(state);
      transactionsByStream := transactionsByStream[stream := state];
      activeTransactions := activeTransactions[session := state];
      requestResponsesProcessed := requestResponsesProcessed + 1;
    }

    /** The loop over the stream index after a transaction id mismatch, in any order. */
    method SearchStream(t: TransactionState) returns (found: StreamId)
      ensures Finds(transactionsByStream, t, found)
    {
      found := NoStream;
      var rest := transactionsByStream.Keys;
      while rest != {}
        invariant rest <= transactionsByStream.Keys
        invariant forall k :: k in transactionsByStream && k !in rest ==> transactionsByStream[k] != t
        invariant found == NoStream
      {
        var k :| k in rest;
        if transactionsByStream[k] == t {
          found := k;
          break;
        }
        rest := rest - {k};
      }
    }

    /** A request of another transaction: the session and the stream found for it are forgotten. */
    method DropMismatch(session: string, found: StreamId)
      requires Valid()
      modifies this
      ensures Lists() == old(Lists())
      ensures Valid() && heap.Keys <= old(heap.Keys)
      ensures State() == MismatchEffect(old(State()), session, found)
    {
      if !found.Empty() {
        transactionsByStream := transactionsByStream - {found};
      }
      EraseActive(session);
      transactionIdMismatch := transactionIdMismatch + 1;
    }

    method HandleRequest(stream: StreamId, session: string, txId: string, ts: U64, isCommit: bool)
      returns (r: Status, ghost found: StreamId)
      requires Valid()
      requires session != "" && session in activeTransactions ==> activeTransactions[session] in heap
      modifies this, heap.Keys
      ensures Lists() == old(Lists())
      ensures Valid() && heap.Keys <= old(heap.Keys)
      ensures session in old(activeTransactions) ==>
                Finds(old(transactionsByStream), old(activeTransactions)[session], found)
      ensures Performed(RequestEffect(old(State()), stream, session, txId, ts, isCommit, found), r, State())
    {
      found := NoStream;
      if session in activeTransactions {
        found := FindStream(transactionsByStream, activeTransactions[session]);
      }
      if session == "" {
        return Thrown(EmptySession), found;
      }
      if session !in activeTransactions {
        requestResponsesSkipped := requestResponsesSkipped + 1;
        return Done, found;
      }
      var t := activeTransactions[session];
      if !t.currentRequestStreamId.Empty() {
        DropWaiting(session, t.currentRequestStreamId);
        return Done, found;
      }
      if t.transactionId == "" {
        r := t.SetTransactionId(txId);
        if r != Done {
          return;
        }
      } else if t.transactionId != txId {
        var streamFound := SearchStream(t);
        DropMismatch(session, streamFound);
        return Done, streamFound;
      }
      r := IssueOn(t, stream, session, ts, isCommit);
    }

    /** The last part of handling a request: start it on `t` and index `t` under its stream. */
    method IssueOn(t: TransactionState, stream: StreamId, session: string, ts: U64, isCommit: bool) returns (r: Status)
      requires t in heap && (forall o :: o in heap && o != t ==> o.Value() == heap[o])
      modifies this, t
      ensures Lists() == old(Lists())
      ensures Valid() && heap.Keys == old(heap.Keys)
      ensures Performed(IssueRequest(old(State()), t, old(t.Value()), stream, session, ts, isCommit), r, State())
    {
      r := StartOn(t, stream, session, ts, isCommit);
      if r != Done {
        return;
      }
      transactionsByStream := transactionsByStream[stream := t];
      requestResponsesProcessed := requestResponsesProcessed + 1;
    }

    method StartOn(t: TransactionState, stream: StreamId, session: string, ts: U64, isCommit: bool) returns (r: Status)
      requires t in heap && (forall o :: o in heap && o != t ==> o.Value() == heap[o])
      modifies this`heap, t
      ensures Valid() && heap == old(heap)[t := t.Value()]
      ensures var was := old(t.Value());
              Follows(if isCommit then was.StartCommit(stream, session, ts) else was.StartRequest(stream, session, ts),
                      r, was, t.Value())
    {
      if !isCommit {
        r := t.StartRequest(stream, session, ts);
      } else {
        r := t.StartCommit(stream, session, ts);
      }
      Store(t);
    }

    method FinishRequestOn(t: TransactionState, stream: StreamId, ts: U64) returns (r: Status)
      requires Valid() && t in heap
      modifies this`heap, t
      ensures Valid() && heap == old(heap)[t := t.Value()]
      ensures Follows(old(heap)[t].FinishRequest(stream, ts), r, old(heap)[t], t.Value())
    {
      r := t.FinishRequest(stream, ts);
      Store(t);
    }

    method FinishTransactionOn(t: TransactionState, stream: StreamId, ts: U64) returns (r: Status)
      requires Valid() && t in heap
      modifies this`heap, t
      ensures Valid() && heap == old(heap)[t := t.Value()]
      ensures Follows(old(heap)[t].FinishTransaction(stream, ts), r, old(heap)[t], t.Value())
    {
      r := t.FinishTransaction(stream, ts);
      Store(t);
    }

    method HandleResponse(stream: StreamId, ts: U64) returns (r: Status)
      requires Valid()
      requires ResponseEffect(State(), stream, ts) != Fault
      modifies this, heap.Keys
      ensures Lists() == old(Lists())
      ensures Valid() && heap.Keys == old(heap.Keys)
      ensures Performed(ResponseEffect(old(State()), stream, ts), r, State())
    {
      var t := transactionsByStream[stream];
      r := FinishRequestOn(t, stream, ts);
      if r != Done {
        return;
      }
      requestResponsesProcessed := requestResponsesProcessed + 1;
      transactionsByStream := transactionsByStream - {stream};
    }

    method HandleCommitResponse(stream: StreamId, ts: U64) returns (r: Status)
      requires Valid()
      requires CommitResponseEffect(State(), stream, ts) != Fault
      modifies this, heap.Keys
      ensures Lists() == old(Lists())
      ensures Valid() && heap.Keys == old(heap.Keys)
      ensures Performed(CommitResponseEffect(old(State()), stream, ts), r, State())
    {
      if stream !in transactionsByStream {
        requestResponsesSkipped := requestResponsesSkipped + 1;
        return Done;
      }
      var t := transactionsByStream[stream];
      r := FinishTransactionOn(t, stream, ts);
      if r != Done {
        return;
      }
      if t.sessionId !in activeTransactions {
        return Thrown(TransactionNotFoundForSession);
      }
      Retire(t.sessionId, stream);
    }

    /** Move what the session owns to the finished list and drop the stream from the index. */
    method Retire(session: string, stream: StreamId)
      requires session in activeTransactions
      modifies this
      ensures Lists() == old(Lists())
      ensures heap == old(heap) && State() == RetireEffect(old(State()), session, stream)
    {
      var owned := activeTransactions[session];
      activeTransactions := activeTransactions - {session};
      transactionsByStream := transactionsByStream - {stream};
      finishedTransactions := finishedTransactions + [owned];
      requestResponsesProcessed := requestResponsesProcessed + 1;
    }

    method TryHandleDataQueryResponse(stream: StreamId, ts: U64) returns (taken: bool, r: Status)
      requires Valid()
      requires TryQueryResponse(State(), stream, ts) != Taken(Fault)
      modifies this, heap.Keys
      ensures Lists() == old(Lists())
      ensures Valid() && heap.Keys == old(heap.Keys)
      ensures taken == TryQueryResponse(old(State()), stream, ts).Taken?
      ensures !taken ==> r == Done && State() == old(State())
      ensures taken ==> Performed(TryQueryResponse(old(State()), stream, ts).result, r, State())
    {
      if stream !in transactionsByStream {
        return false, Done;
      }
      if transactionsByStream[stream].isCommitting {
        return false, Done;
      }
      r := HandleResponse(stream, ts);
      taken := true;
    }

    method TryHandleCommitResponse(stream: StreamId, ts: U64) returns (taken: bool, r: Status)
      requires Valid()
      requires TryCommitResponse(State(), stream, ts) != Taken(Fault)
      modifies this, heap.Keys
      ensures Lists() == old(Lists())
      ensures Valid() && heap.Keys == old(heap.Keys)
      ensures taken == TryCommitResponse(old(State()), stream, ts).Taken?
      ensures !taken ==> r == Done && State() == old(State())
      ensures taken ==> Performed(TryCommitResponse(old(State()), stream, ts).result, r, State())
    {
      if stream !in transactionsByStream {
        return false, Done;
      }
      if !transactionsByStream[stream].isCommitting {
        return false, Done;
      }
      r := HandleCommitResponse(stream, ts);
      taken := true;
    }


    method HandleDataQueryRequest(q: DataQuery, frame: Frame)
      returns (r: Status, ghost slot: Option<TransactionState>)
      requires Valid()
      requires var e := ClassifyQuery(q, frame, filter); !e.Begin? ==> React(State(), e) != Fault
      modifies this, heap.Keys
      ensures Lists() == old(Lists())
      ensures Valid() && forall t :: t in heap && t !in old(heap) ==> fresh(t)
      ensures EventHandled(old(State()), ClassifyQuery(q, frame, filter), slot, r, State())
    {
      ghost var h := State();
      ghost var found := NoStream;
      slot := None;
      r := Done;
      var stream := StreamId(frame.source, frame.number);
      if q.txControl.Some? {
        match q.txControl.value {
          case TxId(id) =>
            r, found := HandleRequest(stream, q.session, id, frame.ts, false);
          case BeginTx =>
            if filter == None || filter.value(q) {
              r, slot := StartTransaction(stream, q.session, frame.ts);
            } else {
              requestResponsesSkipped := requestResponsesSkipped + 1;
            }
          case OtherSelector =>
            requestResponsesSkipped := requestResponsesSkipped + 1;
        }
      }
      assert Searched(h, ClassifyQuery(q, frame, filter), found);
    }

    /** One decoded payload, whose event must not dereference freed storage. The index stays anchored while streams
        are real ones. */
    method HandleGrpc(p: Payload, frame: Frame) returns (r: Status, ghost slot: Option<TransactionState>)
      requires Valid()
      requires var e := Classify(p, frame, filter); !e.Begin? ==> React(State(), e) != Fault
      modifies this, heap.Keys
      ensures Lists() == old(Lists())
      ensures Valid() && forall t :: t in heap && t !in old(heap) ==> fresh(t)
      ensures EventHandled(old(State()), Classify(p, frame, filter), slot, r, State())
      ensures old(Anchored(State())) && !StreamId(frame.source, frame.number).Empty() && r == Done ==> Anchored(State())
    {
      ghost var e := Classify(p, frame, filter);
      ghost var h := State();
      ghost var found := NoStream;
      slot := None;
      if p.dataQuery.Some? && p.dataQuery.value.hasQuery && p.dataQuery.value.session != "" {
        r, slot := HandleDataQueryRequest(p.dataQuery.value, frame);
      } else if p.commit.Some? && p.commit.value.session != "" && p.commit.value.txId != "" {
        r, found := HandleRequest(StreamId(frame.source, frame.number), p.commit.value.session, p.commit.value.txId,
                                  frame.ts, true);
        assert Searched(h, e, found);
      } else {
        r := DispatchResponse(p, StreamId(frame.destination, frame.number), frame.ts);
        assert Searched(h, e, found);
      }
      if r == Done && Anchored(h) && !StreamId(frame.source, frame.number).Empty() {
        HandledAnchored(h, e, slot, r, State());
      }
    }

    /** Responses look alike on the wire: the data query handler is tried first. */
    method DispatchResponse(p: Payload, stream: StreamId, ts: U64) returns (r: Status)
      requires Valid()
      requires OnResponse(State(), stream, ts, p.queryResponse == Some(true), p.commitResponse == Some(true)) != Fault
      modifies this, heap.Keys
      ensures Lists() == old(Lists())
      ensures Valid() && heap.Keys == old(heap.Keys)
      ensures Performed(OnResponse(old(State()), stream, ts, p.queryResponse == Some(true),
                                   p.commitResponse == Some(true)), r, State())
    {
      r := Done;
      if p.queryResponse.Some? && p.queryResponse.value {
        var taken;
        taken, r := TryHandleDataQueryResponse(stream, ts);
        if taken {
          return;
        }
      }
      if p.commitResponse.Some? && p.commitResponse.value {
        var taken;
        taken, r := TryHandleCommitResponse(stream, ts);
      }
    }

    ghost predicate FinishedStored()
      reads this
    {
      forall i :: 0 <= i < |finishedTransactions| ==> finishedTransactions[i] in heap
    }

    /** std::sort of the finished transactions by total time. */
    method SortFinished()
      requires Valid() && FinishedStored()
      modifies this`finishedTransactions
      ensures multiset(finishedTransactions) == multiset(old(finishedTransactions))
      ensures FinishedStored() && ByTotalTime(Values(heap, finishedTransactions))
    {
      var keyed: seq<(U64, TransactionState)> := [];
      var i := 0;
      while i < |finishedTransactions|
        invariant 0 <= i <= |finishedTransactions| && |keyed| == i
        invariant forall j :: 0 <= j < i ==>
          keyed[j].1 == finishedTransactions[j] && keyed[j].0 == heap[finishedTransactions[j]].TotalTime()
      {
        var t := finishedTransactions[i];
        keyed := keyed + [(t.TotalTimeUs(), t)];
        i := i + 1;
      }
      SortedPairs(keyed, finishedTransactions, heap);
      finishedTransactions := Seconds(Sort(FirstLe<TransactionState>(), keyed));
    }

    /** Fill the three latency lists from the finished transactions and sort them. */
    method CalculateResults()
      requires Valid() && FinishedStored()
      modifies this`finishedTransactions, this`clientLatencies, this`serverLatencies, this`serverQueryLatencies
      ensures Valid() && heap == old(heap)
      ensures multiset(finishedTransactions) == multiset(old(finishedTransactions))
      ensures FinishedStored() && ByTotalTime(Values(heap, finishedTransactions))
      ensures var ts := Values(heap, finishedTransactions);
              && clientLatencies == Sort(IntLe(), old(clientLatencies) + ClientTimes(ts))
              && serverLatencies == Sort(IntLe(), old(serverLatencies) + ServerTimes(ts))
              && serverQueryLatencies == Sort(IntLe(), old(serverQueryLatencies) + QueryTimes(ts))
    {
      SortFinished();
      FillLists(Values(heap, finishedTransactions));
    }

    method FillLists(ghost ts: seq<Txn>)
      requires |ts| == |finishedTransactions|
      requires forall i :: 0 <= i < |ts| ==> finishedTransactions[i].Value() == ts[i]
      modifies this`clientLatencies, this`serverLatencies, this`serverQueryLatencies
      ensures clientLatencies == Sort(IntLe(), old(clientLatencies) + ClientTimes(ts))
      ensures serverLatencies == Sort(IntLe(), old(serverLatencies) + ServerTimes(ts))
      ensures serverQueryLatencies == Sort(IntLe(), old(serverQueryLatencies) + QueryTimes(ts))
    {
      CollectClientTimes(ts);
      clientLatencies := Sort(IntLe(), clientLatencies);
      CollectServerTimes(ts);
      serverLatencies := Sort(IntLe(), serverLatencies);
      serverQueryLatencies := Sort(IntLe(), serverQueryLatencies);
    }

    method CollectClientTimes(ghost ts: seq<Txn>)
      requires |ts| == |finishedTransactions|
      requires forall i :: 0 <= i < |ts| ==> finishedTransactions[i].Value() == ts[i]
      modifies this`clientLatencies
      ensures clientLatencies == old(clientLatencies) + ClientTimes(ts)
    {
      var i := 0;
      while i < |finishedTransactions|
        invariant 0 <= i <= |finishedTransactions|
        invariant clientLatencies == old(clientLatencies) + ClientTimes(ts[..i])
      {
        OneMore(ts, i);
        var t := finishedTransactions[i];
        clientLatencies := clientLatencies + [AsLong(t.ClientTimeUs())];
        i := i + 1;
      }
      assert ts[..i] == ts;
    }

    method CollectServerTimes(ghost ts: seq<Txn>)
      requires |ts| == |finishedTransactions|
      requires forall i :: 0 <= i < |ts| ==> finishedTransactions[i].Value() == ts[i]
      modifies this`serverLatencies, this`serverQueryLatencies
      ensures serverLatencies == old(serverLatencies) + ServerTimes(ts)
      ensures serverQueryLatencies == old(serverQueryLatencies) + QueryTimes(ts)
    {
      var i := 0;
      while i < |finishedTransactions|
        invariant 0 <= i <= |finishedTransactions|
        invariant serverLatencies == old(serverLatencies) + ServerTimes(ts[..i])
        invariant serverQueryLatencies == old(serverQueryLatencies) + QueryTimes(ts[..i])
      {
        OneMore(ts, i);
        var t := finishedTransactions[i];
        Associative(old(serverLatencies), ServerTimes(ts[..i]), [AsLong(t.serverUs)]);
        Associative(old(serverQueryLatencies), QueryTimes(ts[..i]), Longs(t.requestLatencies));
        serverLatencies := serverLatencies + [AsLong(t.serverUs)];
        serverQueryLatencies := serverQueryLatencies + Longs(t.requestLatencies);
        i := i + 1;
      }
      assert ts[..i] == ts;
    }

    /** The lists must have been calculated. */
    method Print(topN: int) returns (out: Printout)
      requires Valid() && FinishedStored()
      requires finishedTransactions != [] ==>
                 clientLatencies != [] && serverLatencies != [] && serverQueryLatencies != []
      ensures out.NothingFinished? <==> finishedTransactions == []
      ensures out.Printout? ==>
                && out.counts == Counts(requestResponsesProcessed, requestResponsesSkipped, transactionsAborted,
                                        transactionIdMismatch, requestResponseMismatch, |finishedTransactions|)
                && |out.blocks| == 4
                && IsPercentileLine(TotalTimes(Values(heap, finishedTransactions)), out.blocks[0])
                && IsPercentileLine(clientLatencies, out.blocks[1])
                && IsPercentileLine(serverLatencies, out.blocks[2])
                && IsPercentileLine(serverQueryLatencies, out.blocks[3])
                && LastOnes(finishedTransactions, topN, out.slowest)
    {
      if finishedTransactions == [] {
        return NothingFinished;
      }
      var totals := FinishedTotals();
      var total := Percentiles(totals);
      var client := Percentiles(clientLatencies);
      var server := Percentiles(serverLatencies);
      var query := Percentiles(serverQueryLatencies);
      var slowest := Slowest(topN);
      out := Printout(Counts(requestResponsesProcessed, requestResponsesSkipped, transactionsAborted,
                             transactionIdMismatch, requestResponseMismatch, |finishedTransactions|),
                      [total, client, server, query], slowest);
    }

    method FinishedTotals() returns (totals: seq<int>)
      requires Valid() && FinishedStored()
      ensures totals == TotalTimes(Values(heap, finishedTransactions))
    {
      totals := [];
      var i := 0;
      while i < |finishedTransactions|
        invariant 0 <= i <= |finishedTransactions| && |totals| == i
        invariant forall j :: 0 <= j < i ==> totals[j] == heap[finishedTransactions[j]].TotalTime()
      {
        totals := totals + [finishedTransactions[i].TotalTimeUs()];
        i := i + 1;
      }
    }

    /** The loop from the end of the finished list. */
    method Slowest(topN: int) returns (slowest: seq<TransactionState>)
      ensures LastOnes(finishedTransactions, topN, slowest)
    {
      slowest := [];
      var i := 0;
      while i < |finishedTransactions| && i < topN
        invariant 0 <= i <= |finishedTransactions| && |slowest| == i && (i <= topN || i == 0)
        invariant forall j :: 0 <= j < i ==> slowest[j] == finishedTransactions[|finishedTransactions| - 1 - j]
      {
        slowest := slowest + [finishedTransactions[|finishedTransactions| - 1 - i]];
        i := i + 1;
      }
    }
  }
}
