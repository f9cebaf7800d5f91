/** What the refinement gives the handler itself: coherent indexes, responses taken once,
    conserved transactions; and that the discipline cannot be weakened. */
module CaptureExactness {
  import opened Options
  import opened Transactions
  import opened TransactionHandler
  import opened Capture
  import opened CaptureRefinement

  // ---- coherent indexes ----

  /** A session owns live storage of its own, indexed under the stream in progress; a committing
      transaction has a request in flight. */
  ghost predicate SessionCoherent<R>(h: Handler<R>, s: string) {
    s in h.active ==>
      && h.active[s] in h.heap
      && var t := h.heap[h.active[s]];
         && t.session == s
         && t.startTs > 0
         && (t.committing ==> t.InProgress())
         && (t.InProgress() ==>
               t.currentStart > 0 && t.current in h.byStream && h.byStream[t.current] == h.active[s])
  }

  /** An indexed stream leads to the active transaction of a session, waiting on that stream. */
  ghost predicate StreamCoherent<R>(h: Handler<R>, k: StreamId) {
    k in h.byStream ==>
      && !k.Empty()
      && h.byStream[k] in h.heap
      && var t := h.heap[h.byStream[k]];
         t.current == k && t.session in h.active && h.active[t.session] == h.byStream[k]
  }

  ghost predicate Coherent<R>(h: Handler<R>) {
    (forall s :: SessionCoherent(h, s)) && (forall k :: StreamCoherent(h, k))
  }

  lemma {:induction false} RefinesCoherent<R>(h: Handler<R>, c: Log)
    requires Refines(h, c)
    ensures Coherent(h) && Anchored(h)
  {
    forall s ensures SessionCoherent(h, s) {
      assert SessionOk(h, c, s);
    }
    forall k ensures StreamCoherent(h, k) {
      assert StreamOk(h, c, k);
      if k in h.byStream {
        assert SessionOk(h, c, h.heap[h.byStream[k]].session);
      }
    }
    forall k | k in h.byStream && h.byStream[k] in h.heap
      ensures !k.Empty() && h.heap[h.byStream[k]].current == k
    {
      assert StreamCoherent(h, k);
    }
  }

  /** After a transaction id mismatch the search through the stream index finds nothing: no stream
      leads to a transaction that is not waiting. */
  lemma {:induction false} SearchFindsNothing<R>(h: Handler<R>, s: string)
    requires Coherent(h) && s in h.active && h.active[s] in h.heap && !h.heap[h.active[s]].InProgress()
    ensures forall found :: Finds(h.byStream, h.active[s], found) <==> found == NoStream
  {
    forall k | k in h.byStream ensures h.byStream[k] != h.active[s] {
      assert StreamCoherent(h, k);
    }
  }

  // ---- the discipline is exact ----

  lemma {:induction false} BadBegin<R>(h: Handler<R>, c: Log, e: Event, slot: R)
    requires Refines(h, c) && e.Begin? && !Disciplined(c, e) && Free(h, e, slot)
    ensures !(Step(h, e, slot).Next? && Coherent(Step(h, e, slot).h))
  {
    assert SessionOk(h, c, e.session) && StreamOk(h, c, e.stream);
    forall s2 | InFlight(c, s2, e.stream) ensures e.stream in h.byStream {
      assert SessionOk(h, c, s2);
    }
    if Step(h, e, slot).Next? {
      var h1 := Step(h, e, slot).h;
      if e.stream in h.byStream {
        var other := h.heap[h.byStream[e.stream]].session;
        assert SessionOk(h, c, other);
        assert !SessionCoherent(h1, other);
      } else if Waiting(c, e.session) {
        assert !StreamCoherent(h1, c.sessions[e.session].pending.value.stream);
      } else if e.stream.Empty() {
        assert !StreamCoherent(h1, e.stream);
      } else {
        assert !SessionCoherent(h1, e.session);
      }
    }
  }

  lemma {:induction false} BadRequest<R>(h: Handler<R>, c: Log, e: Event)
    requires Refines(h, c) && e.Request? && !Disciplined(c, e)
    ensures !(React(h, e).Next? && Coherent(React(h, e).h))
  {
    assert SessionOk(h, c, e.session);
    if React(h, e).Next? {
      var h1 := React(h, e).h;
      if e.stream.Empty() {
        assert !StreamCoherent(h1, e.stream);
      } else if e.ts == 0 {
        assert !SessionCoherent(h1, e.session);
      } else {
        var s2 :| InFlight(c, s2, e.stream);
        assert SessionOk(h, c, s2);
        Apart(h, c, s2, e.session);
        assert !SessionCoherent(h1, s2);
      }
    }
  }

  /** The next event keeps the indexes coherent, without exception or fault, exactly when it is
      disciplined. */
  lemma {:induction false} DisciplineIsExact<R>(h: Handler<R>, c: Log, e: Event, slot: R)
    requires Refines(h, c) && Free(h, e, slot)
    ensures Disciplined(c, e) <==> Step(h, e, slot).Next? && Coherent(Step(h, e, slot).h)
  {
    if Disciplined(c, e) {
      StepRefines(h, c, e, slot);
      RefinesCoherent(Step(h, e, slot).h, OnEvent(c, e));
    } else if e.Begin? {
      BadBegin(h, c, e, slot);
    } else {
      BadRequest(h, c, e);
    }
  }

  /** Every prefix of the capture runs to coherent indexes. */
  ghost predicate CoherentRun<R>(es: seq<(Event, R)>) {
    && (es == [] || CoherentRun(es[..|es| - 1]))
    && Run(es).Next? && Coherent(Run(es).h)
  }

  /** A whole capture keeps the indexes coherent throughout exactly when it is disciplined. */
  lemma {:induction false} DisciplinedExactly<R>(es: seq<(Event, R)>)
    requires Allocated(es)
    ensures DisciplinedRun(Events(es)) <==> CoherentRun(es)
  {
    if es == [] {
    } else {
      var prefix := es[..|es| - 1];
      assert Events(es)[..|es| - 1] == Events(prefix);
      DisciplinedExactly(prefix);
      if DisciplinedRun(Events(prefix)) {
        RunRefines(prefix);
        DisciplineIsExact(Run(prefix).h, Read(Events(prefix)), es[|es| - 1].0, es[|es| - 1].1);
      }
    }
  }

  /** A begin of a session that is still waiting on another stream frees a transaction that the stream index keeps.
      The late response then dereferences freed storage, or, where the new transaction got that very storage, finds a
      transaction waiting on another stream and throws. */
  lemma {:induction false} BeginWhileWaitingFaults<R>(h: Handler<R>, c: Log, e: Event, slot: R, ts: U64, asCommit: bool)
    requires Refines(h, c) && e.Begin? && Free(h, e, slot)
    requires Waiting(c, e.session) && forall s :: !InFlight(c, s, e.stream)
    ensures Step(h, e, slot).Next? && e.session in h.active
    ensures var late := Response(c.sessions[e.session].pending.value.stream, ts, true, asCommit);
            var r := React(Step(h, e, slot).h, late);
            if slot == h.active[e.session] then r.Threw? && r.error == NoRequestToFinish else r == Fault
  {
    assert SessionOk(h, c, e.session) && StreamOk(h, c, e.stream);
    assert StreamOk(h, c, c.sessions[e.session].pending.value.stream);
  }

  /** Such a capture of three events. */
  lemma {:induction false} LateResponseFaults<R>(k0: StreamId, k1: StreamId, r0: R, r1: R, r2: R)
    requires k0 != k1 && !k0.Empty() && r2 != r1
    ensures var es := [(Begin(k0, "s", 1), r0)] + [(Begin(k1, "s", 2), r1)] + [(Response(k0, 3, true, true), r2)];
            && Allocated(es)
            && if r1 == r0 then Run(es).Threw? && Run(es).error == NoRequestToFinish else Run(es) == Fault
  {
    var e0, e1, e2 := (Begin(k0, "s", 1), r0), (Begin(k1, "s", 2), r1), (Response(k0, 3, true, true), r2);
    FirstBegin(e0.0, r0);
    var h1, c1 := Run([e0]).h, Read([e0.0]);
    BeginWhileWaitingFaults(h1, c1, e1.0, r1, 3, true);
    assert Step(h1, e1.0, r1).h.heap.Keys == {r1};
    RunOneMore([e0], e1);
    RunOneMore([e0] + [e1], e2);
  }

  /** After one begin. */
  lemma {:induction false} FirstBegin<R>(e: Event, r: R)
    requires e.Begin? && !e.stream.Empty() && e.ts > 0
    ensures Allocated([(e, r)]) && Run([(e, r)]).Next?
    ensures var h := Run([(e, r)]).h; var c := Read([e]);
            && Refines(h, c)
            && h.heap.Keys == {r} && h.active == map[e.session := r] && h.byStream.Keys == {e.stream}
            && c.sessions.Keys == {e.session} && c.sessions[e.session].pending == Some(Pending(e.stream, false, e.ts))
  {
    assert [] + [(e, r)] == [(e, r)];
    RunOneMore([], (e, r));
    InitRefines<R>();
    assert Disciplined(Empty, e);
    StepRefines(Init(), Empty, e, r);
    assert [e][..0] == [];
  }

  lemma {:induction false} RunOneMore<R>(es: seq<(Event, R)>, e: (Event, R))
    ensures Run(es + [e]) == if Run(es).Next? then Step(Run(es).h, e.0, e.1) else Run(es)
    ensures Allocated(es + [e]) <==> Allocated(es) && (Run(es).Next? ==> Free(Run(es).h, e.0, e.1))
  {
    assert (es + [e])[..|es|] == es;
  }

  // ---- responses ----

  /** A response is taken by exactly one of the two try-handlers when its stream is indexed, and by
      none otherwise; taking it succeeds. */
  lemma {:induction false} ResponseTakenOnce<R>(h: Handler<R>, c: Log, stream: StreamId, ts: U64)
    requires Refines(h, c)
    ensures var q := TryQueryResponse(h, stream, ts); var m := TryCommitResponse(h, stream, ts);
            && (stream in h.byStream <==> Owner(c, stream).Some?)
            && (stream in h.byStream <==> q.Taken? || m.Taken?)
            && !(q.Taken? && m.Taken?)
            && (q.Taken? ==> q.result.Next?)
            && (m.Taken? ==> m.result.Next?)
  {
    assert StreamOk(h, c, stream);
    if stream in h.byStream {
      var s := h.heap[h.byStream[stream]].session;
      assert SessionOk(h, c, s);
      assert InFlight(c, s, stream);
    } else {
      forall s ensures !InFlight(c, s, stream) {
        assert SessionOk(h, c, s);
      }
    }
  }

  // ---- the other counters ----

  /** A request that is started: of an active session that waits for nothing and has shown no other transaction. */
  predicate Accepts<R>(h: Handler<R>, session: string, txId: string) {
    && session != "" && session in h.active && h.active[session] in h.heap
    && var t := h.heap[h.active[session]]; t.current.Empty() && (t.txId == "" || t.txId == txId)
  }

  /** The event starts a transaction or a request, or is the response to one. */
  predicate Useful<R>(h: Handler<R>, e: Event) {
    match e
    case Begin(stream, _, _) => stream !in h.byStream
    case Request(_, session, txId, _, _) => Accepts(h, session, txId)
    case Response(stream, ts, asQuery, asCommit) =>
      (asQuery && TryQueryResponse(h, stream, ts).Taken?) || (asCommit && TryCommitResponse(h, stream, ts).Taken?)
    case _ => false
  }

  /** The event is none of ours: a request of a session without transaction, or one that the filter rejects. */
  predicate Foreign<R>(h: Handler<R>, e: Event) {
    e.Skip? || (e.Request? && e.session != "" && e.session !in h.active)
  }

  /** The event comes out of turn and drops what its session had: a begin on an indexed stream, or a request of a
      session that is waiting. */
  predicate OutOfTurn<R>(h: Handler<R>, e: Event) {
    || (e.Begin? && e.stream in h.byStream)
    || (e.Request? && e.session != "" && e.session in h.active && h.active[e.session] in h.heap
        && !h.heap[h.active[e.session]].current.Empty())
  }

  /** The event is a request that names another transaction than its idle session has shown. */
  predicate Contradicts<R>(h: Handler<R>, e: Event) {
    && e.Request? && e.session != "" && e.session in h.active && h.active[e.session] in h.heap
    && var t := h.heap[h.active[e.session]]; t.current.Empty() && t.txId != "" && t.txId != e.txId
  }

  /** The event begins a transaction in a session that still owns one. */
  predicate Aborts<R>(h: Handler<R>, e: Event) { e.Begin? && e.stream !in h.byStream && e.session in h.active }

  function One(b: bool): nat { if b then 1 else 0 }

  lemma {:induction false} StepCounted<R>(h: Handler<R>, e: Event, slot: R)
    requires Step(h, e, slot).Next?
    ensures var h1 := Step(h, e, slot).h;
            && h1.processed == h.processed + One(Useful(h, e))
            && h1.skipped == h.skipped + One(Foreign(h, e))
            && h1.aborted == h.aborted + One(Aborts(h, e))
            && h1.idMismatch == h.idMismatch + One(Contradicts(h, e))
            && h1.requestMismatch == h.requestMismatch + One(OutOfTurn(h, e))
  {
  }

  ghost function Tally<R>(es: seq<(Event, R)>, p: (Handler<R>, Event) -> bool): nat {
    if es == [] then 0
    else
      var prefix := es[..|es| - 1];
      Tally(prefix, p) + One(Run(prefix).Next? && p(Run(prefix).h, es[|es| - 1].0))
  }

  function Usefuls<R>(): (Handler<R>, Event) -> bool { (h: Handler<R>, e: Event) => Useful(h, e) }
  function Foreigns<R>(): (Handler<R>, Event) -> bool { (h: Handler<R>, e: Event) => Foreign(h, e) }
  function Abortings<R>(): (Handler<R>, Event) -> bool { (h: Handler<R>, e: Event) => Aborts(h, e) }
  function Contradictions<R>(): (Handler<R>, Event) -> bool { (h: Handler<R>, e: Event) => Contradicts(h, e) }
  function OutsOfTurn<R>(): (Handler<R>, Event) -> bool { (h: Handler<R>, e: Event) => OutOfTurn(h, e) }

  /** On every capture that runs, each of the five counters counts the events of its kind. */
  lemma {:induction false} EventsCounted<R>(es: seq<(Event, R)>)
    requires Run(es).Next?
    ensures var h := Run(es).h;
            && h.processed == Tally(es, Usefuls<R>())
            && h.skipped == Tally(es, Foreigns<R>())
            && h.aborted == Tally(es, Abortings<R>())
            && h.idMismatch == Tally(es, Contradictions<R>())
            && h.requestMismatch == Tally(es, OutsOfTurn<R>())
  {
    if es != [] {
      var prefix := es[..|es| - 1];
      EventsCounted(prefix);
      StepCounted(Run(prefix).h, es[|es| - 1].0, es[|es| - 1].1);
    }
  }

  // ---- conservation ----

  /** How many transactions the handler has constructed: begins that pass the stream check. */
  ghost function Constructed<R>(es: seq<(Event, R)>): nat {
    if es == [] then 0
    else
      var prefix := es[..|es| - 1];
      var e := es[|es| - 1].0;
      Constructed(prefix) +
      (if e.Begin? && Run(prefix).Next? && e.stream !in Run(prefix).h.byStream then 1 else 0)
  }

  /** How many begins came on an indexed stream for a session that owns no transaction. */
  ghost function Unowned<R>(es: seq<(Event, R)>): nat {
    if es == [] then 0
    else
      var prefix := es[..|es| - 1];
      var e := es[|es| - 1].0;
      Unowned(prefix) +
      (if e.Begin? && Run(prefix).Next? && e.stream in Run(prefix).h.byStream && e.session !in Run(prefix).h.active
       then 1 else 0)
  }

  function Accounted<R>(h: Handler<R>): nat {
    |h.active| + |h.finished| + h.aborted + h.idMismatch + h.requestMismatch
  }

  /** Any begin accounts for one transaction more exactly when it constructs one, and miscounts otherwise only where
      its session owns none. */
  lemma {:induction false} BeginAccounts<R>(h: Handler<R>, e: Event, slot: R)
    requires e.Begin? && Step(h, e, slot).Next?
    ensures Accounted(Step(h, e, slot).h)
         == Accounted(h) + if e.stream !in h.byStream || e.session !in h.active then 1 else 0
  {
    SmallerBy(h.active, e.session);
    if e.stream !in h.byStream {
      var h1 := h.EraseActive(e.session);
      LargerBy(h1.active, e.session, slot);
    }
  }

  lemma {:induction false} RequestAccounts<R>(h: Handler<R>, e: Event)
    requires e.Request? && React(h, e).Next?
    ensures Accounted(React(h, e).h) == Accounted(h)
  {
    SmallerBy(h.active, e.session);
  }

  lemma {:induction false} CommitAccounts<R>(h: Handler<R>, stream: StreamId, ts: U64)
    requires CommitResponseEffect(h, stream, ts).Next?
    ensures Accounted(CommitResponseEffect(h, stream, ts).h) == Accounted(h)
  {
    if stream in h.byStream {
      SmallerBy(h.active, h.heap[h.byStream[stream]].session);
    }
  }

  lemma {:induction false} ReactAccounts<R>(h: Handler<R>, e: Event)
    requires !e.Begin? && React(h, e).Next?
    ensures Accounted(React(h, e).h) == Accounted(h)
  {
    if e.Request? {
      RequestAccounts(h, e);
    } else if e.Response? && CommitResponseEffect(h, e.stream, e.ts).Next? {
      CommitAccounts(h, e.stream, e.ts);
    }
  }

  /** On every capture that runs, disciplined or not and wherever storage comes from: what is accounted for is what was
      constructed and, beside it, each begin on an indexed stream whose session owned no transaction. */
  lemma {:induction false} TransactionsConserved<R>(es: seq<(Event, R)>)
    requires Run(es).Next?
    ensures Accounted(Run(es).h) == Constructed(es) + Unowned(es)
  {
    if es != [] {
      var prefix := es[..|es| - 1];
      TransactionsConserved(prefix);
      if es[|es| - 1].0.Begin? {
        BeginAccounts(Run(prefix).h, es[|es| - 1].0, es[|es| - 1].1);
      } else {
        ReactAccounts(Run(prefix).h, es[|es| - 1].0);
      }
    }
  }

  ghost predicate BeginsUnowned<R>(es: seq<(Event, R)>, i: nat) {
    && i < |es| && es[i].0.Begin? && Run(es[..i]).Next?
    && es[i].0.stream in Run(es[..i]).h.byStream && es[i].0.session !in Run(es[..i]).h.active
  }

  lemma {:induction false} UnownedCounts<R>(es: seq<(Event, R)>)
    ensures Unowned(es) == 0 <==> forall i: nat :: !BeginsUnowned(es, i)
  {
    if es != [] {
      var prefix := es[..|es| - 1];
      UnownedCounts(prefix);
      forall i: nat | i < |prefix| ensures BeginsUnowned(prefix, i) <==> BeginsUnowned(es, i) {
        assert prefix[..i] == es[..i];
      }
      assert BeginsUnowned(es, |prefix|) <==> Unowned(es) > Unowned(prefix);
    }
  }

  /** The books balance exactly when no begin comes on an indexed stream while its session owns no transaction. */
  lemma {:induction false} BooksBalanceExactly<R>(es: seq<(Event, R)>)
    requires Run(es).Next?
    ensures Accounted(Run(es).h) == Constructed(es) <==> forall i: nat :: !BeginsUnowned(es, i)
  {
    TransactionsConserved(es);
    UnownedCounts(es);
  }

  /** In a disciplined capture there is no such begin. */
  lemma {:induction false} DisciplinedConserves<R>(es: seq<(Event, R)>)
    requires DisciplinedRun(Events(es)) && Allocated(es)
    ensures Run(es).Next? && Accounted(Run(es).h) == Constructed(es)
    ensures Constructed(es) == Read(Events(es)).constructed
  {
    RunRefines(es);
    NoneUnowned(es);
    TransactionsConserved(es);
    ConstructedIsRead(es);
  }

  lemma {:induction false} NoneUnowned<R>(es: seq<(Event, R)>)
    requires DisciplinedRun(Events(es)) && Allocated(es)
    ensures Unowned(es) == 0
  {
    if es != [] {
      var prefix := es[..|es| - 1];
      var e := es[|es| - 1].0;
      assert Events(es)[..|es| - 1] == Events(prefix);
      NoneUnowned(prefix);
      RunRefines(prefix);
      var h, c := Run(prefix).h, Read(Events(prefix));
      if e.Begin? {
        assert SessionOk(h, c, e.session) && StreamOk(h, c, e.stream);
      }
    }
  }

  lemma {:induction false} ConstructedIsRead<R>(es: seq<(Event, R)>)
    requires DisciplinedRun(Events(es)) && Allocated(es)
    ensures Constructed(es) == Read(Events(es)).constructed
  {
    if es == [] {
    } else {
      var prefix := es[..|es| - 1];
      var e := es[|es| - 1].0;
      assert Events(es)[..|es| - 1] == Events(prefix);
      ConstructedIsRead(prefix);
      RunRefines(prefix);
      var h, c := Run(prefix).h, Read(Events(prefix));
      if e.Begin? {
        assert SessionOk(h, c, e.session) && StreamOk(h, c, e.stream);
      }
    }
  }

  /** Two sessions begin on one stream: one transaction is constructed, none leaves, yet one is
      counted as dropped. */
  lemma {:induction false} SharedStreamBreaksConservation<R>(slot0: R, slot1: R, stream: StreamId)
    requires slot0 != slot1 && !stream.Empty()
    ensures var es := [(Begin(stream, "a", 1), slot0), (Begin(stream, "b", 2), slot1)];
            && Allocated(es)
            && Run(es).Next?
            && Accounted(Run(es).h) == Constructed(es) + 1
  {
    var e0, e1 := (Begin(stream, "a", 1), slot0), (Begin(stream, "b", 2), slot1);
    var es := [e0, e1];
    assert [e0][..0] == [];
    assert es[..1] == [e0];
    assert Allocated([e0]) && Run([e0]).Next?;
    assert Run(es).h.active == map["a" := slot0];
    assert Constructed([e0]) == 1;
  }
}
