/** The reference reading of a capture: one map from sessions to what was exchanged in them,
    no stream index, no pointers and no bookkeeping. The owner of a response is found by looking
    through all sessions for the one whose unanswered request is on its stream. */
module Capture {
  import opened Options
  import opened Transactions
  import opened TransactionHandler

  datatype Exchange = Exchange(stream: StreamId, isCommit: bool, requestTs: U64, responseTs: U64)

  datatype Pending = Pending(stream: StreamId, isCommit: bool, ts: U64)

  /** One transaction: its answered requests in order, and the unanswered one. */
  datatype History = History(session: string, txId: string, done: seq<Exchange>, pending: Option<Pending>) {
    predicate WaitsOn(stream: StreamId) { pending.Some? && pending.value.stream == stream }

    function Answer(ts: U64): History
      requires pending.Some?
    {
      this.(done := done + [Exchange(pending.value.stream, pending.value.isCommit, pending.value.ts, ts)],
            pending := None)
    }
  }

  datatype Log = Log(
    sessions: map<string, History>,
    finished: seq<History>,
    constructed: nat,
    processed: nat,
    skipped: nat,
    aborted: nat,
    idMismatch: nat,
    requestMismatch: nat)

  const Empty: Log := Log(map[], [], 0, 0, 0, 0, 0, 0)

  predicate InFlight(c: Log, session: string, stream: StreamId) {
    session in c.sessions && c.sessions[session].WaitsOn(stream)
  }

  predicate Waiting(c: Log, session: string) {
    session in c.sessions && c.sessions[session].pending.Some?
  }

  ghost function Owner(c: Log, stream: StreamId): Option<string> {
    if exists s :: InFlight(c, s, stream) then
      var s :| InFlight(c, s, stream);
      Some(s)
    else None
  }

  function OnBegin(c: Log, stream: StreamId, session: string, ts: U64): Log {
    if Waiting(c, session) then
      c.(sessions := c.sessions - {session}, requestMismatch := c.requestMismatch + 1)
    else
      c.(sessions := c.sessions[session := History(session, "", [], Some(Pending(stream, false, ts)))],
         constructed := c.constructed + 1,
         aborted := if session in c.sessions then c.aborted + 1 else c.aborted,
         processed := c.processed + 1)
  }

  /** The transaction id of a request does not contradict what the session has shown. */
  predicate SameTransaction(h: History, txId: string) { h.txId == "" || h.txId == txId }

  function OnRequest(c: Log, stream: StreamId, session: string, txId: string, ts: U64, isCommit: bool): Log {
    if session !in c.sessions then c.(skipped := c.skipped + 1)
    else
      var h := c.sessions[session];
      if h.pending.Some? then
        c.(sessions := c.sessions - {session}, requestMismatch := c.requestMismatch + 1)
      else if !SameTransaction(h, txId) then
        c.(sessions := c.sessions - {session}, idMismatch := c.idMismatch + 1)
      else
        c.(sessions := c.sessions[session := h.(txId := txId, pending := Some(Pending(stream, isCommit, ts)))],
           processed := c.processed + 1)
  }

  ghost function OnReply(c: Log, stream: StreamId, ts: U64, asQuery: bool, asCommit: bool): Log {
    match Owner(c, stream)
    case None => c
    case Some(session) =>
      var h := c.sessions[session];
      if h.pending.value.isCommit then
        if asCommit then
          c.(sessions := c.sessions - {session}, finished := c.finished + [h.Answer(ts)], processed := c.processed + 1)
        else c
      else
        if asQuery then
          c.(sessions := c.sessions[session := h.Answer(ts)], processed := c.processed + 1)
        else c
  }

  ghost function OnEvent(c: Log, e: Event): Log {
    match e
    case Begin(stream, session, ts) => OnBegin(c, stream, session, ts)
    case Request(stream, session, txId, ts, isCommit) => OnRequest(c, stream, session, txId, ts, isCommit)
    case Response(stream, ts, asQuery, asCommit) => OnReply(c, stream, ts, asQuery, asCommit)
    case Skip(_) => c.(skipped := c.skipped + 1)
    case Nothing(_) => c
  }

  ghost function Read(es: seq<Event>): Log {
    if es == [] then Empty else OnEvent(Read(es[..|es| - 1]), es[|es| - 1])
  }

  // ---- the discipline of a capture ----

  /** A request that will be recorded must carry a real, unused stream and a positive time. */
  ghost predicate Sound(c: Log, stream: StreamId, ts: U64) {
    !stream.Empty() && ts > 0 && forall s :: !InFlight(c, s, stream)
  }

  /** A begin either repeats its own unanswered stream or comes while its session is idle; streams
      in flight are not shared (section 5.1.1 of RFC 7540); recorded requests are sound. */
  ghost predicate Disciplined(c: Log, e: Event) {
    match e
    case Begin(stream, session, ts) =>
      InFlight(c, session, stream) || (!Waiting(c, session) && Sound(c, stream, ts))
    case Request(stream, session, txId, ts, _) =>
      && session != ""
      && (session in c.sessions && !Waiting(c, session) && SameTransaction(c.sessions[session], txId)
          ==> Sound(c, stream, ts))
    case _ => true
  }

  ghost predicate DisciplinedRun(es: seq<Event>) {
    es == [] || (DisciplinedRun(es[..|es| - 1]) && Disciplined(Read(es[..|es| - 1]), es[|es| - 1]))
  }

  // ---- what every disciplined capture keeps ----

  ghost predicate ActiveShape(h: History) {
    && (forall i :: 0 <= i < |h.done| ==> !h.done[i].isCommit && h.done[i].requestTs > 0)
    && (h.pending.Some? ==> !h.pending.value.stream.Empty() && h.pending.value.ts > 0)
    && (h.done == [] ==> h.pending.Some? && !h.pending.value.isCommit)
  }

  /** A finished transaction ends with its commit and has at least one exchange before it. */
  ghost predicate FinishedShape(h: History) {
    && h.pending == None
    && |h.done| >= 2
    && (forall i :: 0 <= i < |h.done| ==> h.done[i].requestTs > 0)
    && (forall i :: 0 <= i < |h.done| ==> (h.done[i].isCommit <==> i == |h.done| - 1))
  }

  ghost predicate Shaped(c: Log) {
    && (forall s :: s in c.sessions ==> c.sessions[s].session == s && ActiveShape(c.sessions[s]))
    && (forall i :: 0 <= i < |c.finished| ==> FinishedShape(c.finished[i]))
    && Unshared(c)
  }

  predicate Conserved(c: Log) {
    c.constructed == |c.sessions| + |c.finished| + c.aborted + c.idMismatch + c.requestMismatch
  }

  /** No stream is in flight for two sessions. */
  ghost predicate Unshared(c: Log) { forall s1, s2, k :: InFlight(c, s1, k) && InFlight(c, s2, k) ==> s1 == s2 }

  lemma {:induction false} StepUnshared(c: Log, e: Event)
    requires Unshared(c) && Disciplined(c, e)
    ensures Unshared(OnEvent(c, e))
  {
    var d := OnEvent(c, e);
    forall s1, s2, k | InFlight(d, s1, k) && InFlight(d, s2, k) ensures s1 == s2 {
      assert InFlight(c, s1, k) || (e.stream == k && e.session == s1);
      assert InFlight(c, s2, k) || (e.stream == k && e.session == s2);
    }
  }

  lemma {:induction false} AnswerShaped(h: History, ts: U64)
    requires ActiveShape(h) && h.pending.Some?
    ensures if h.pending.value.isCommit then FinishedShape(h.Answer(ts)) else ActiveShape(h.Answer(ts))
  {
  }

  lemma {:induction false} StepShaped(c: Log, e: Event)
    requires Shaped(c) && Disciplined(c, e)
    ensures Shaped(OnEvent(c, e))
  {
    StepUnshared(c, e);
    if e.Response? && Owner(c, e.stream).Some? {
      AnswerShaped(c.sessions[Owner(c, e.stream).value], e.ts);
    }
  }

  lemma {:induction false} SmallerBy<K, V>(m: map<K, V>, k: K)
    ensures |m - {k}| == |m| - if k in m then 1 else 0
  {
    if k in m {
      assert m.Keys == (m - {k}).Keys + {k};
    } else {
      assert m - {k} == m;
    }
  }

  lemma {:induction false} LargerBy<K, V>(m: map<K, V>, k: K, v: V)
    ensures |m[k := v]| == |m| + if k in m then 0 else 1
  {
    assert m[k := v].Keys == m.Keys + {k};
    assert |m[k := v]| == |m[k := v].Keys| && |m| == |m.Keys|;
    if k in m {
      assert m.Keys + {k} == m.Keys;
    }
  }

  lemma {:induction false} BeginConserves(c: Log, stream: StreamId, session: string, ts: U64)
    requires Conserved(c)
    ensures Conserved(OnBegin(c, stream, session, ts))
  {
    SmallerBy(c.sessions, session);
    LargerBy(c.sessions, session, History(session, "", [], Some(Pending(stream, false, ts))));
  }

  lemma {:induction false} RequestConserves(c: Log, stream: StreamId, session: string, txId: string, ts: U64,
                                            isCommit: bool)
    requires Conserved(c)
    ensures Conserved(OnRequest(c, stream, session, txId, ts, isCommit))
  {
    SmallerBy(c.sessions, session);
    if session in c.sessions {
      var h := c.sessions[session];
      LargerBy(c.sessions, session, h.(txId := txId, pending := Some(Pending(stream, isCommit, ts))));
    }
  }

  lemma {:induction false} ReplyConserves(c: Log, stream: StreamId, ts: U64, asQuery: bool, asCommit: bool)
    requires Conserved(c)
    ensures Conserved(OnReply(c, stream, ts, asQuery, asCommit))
  {
    var o := Owner(c, stream);
    if o.Some? {
      SmallerBy(c.sessions, o.value);
      LargerBy(c.sessions, o.value, c.sessions[o.value].Answer(ts));
    }
  }

  /** No discipline is needed for the books of this machine to balance. */
  lemma {:induction false} StepConserves(c: Log, e: Event)
    requires Conserved(c)
    ensures Conserved(OnEvent(c, e))
  {
    match e
    case Begin(stream, session, ts) => BeginConserves(c, stream, session, ts);
    case Request(stream, session, txId, ts, isCommit) => RequestConserves(c, stream, session, txId, ts, isCommit);
    case Response(stream, ts, asQuery, asCommit) => ReplyConserves(c, stream, ts, asQuery, asCommit);
    case _ =>
  }

  lemma {:induction false} RunShaped(es: seq<Event>)
    requires DisciplinedRun(es)
    ensures Shaped(Read(es))
  {
    if es != [] {
      RunShaped(es[..|es| - 1]);
      StepShaped(Read(es[..|es| - 1]), es[|es| - 1]);
    }
  }

  lemma {:induction false} RunConserves(es: seq<Event>)
    ensures Conserved(Read(es))
  {
    if es != [] {
      RunConserves(es[..|es| - 1]);
      StepConserves(Read(es[..|es| - 1]), es[|es| - 1]);
    }
  }
}
