/** The two-index handler refines the reference reading on every disciplined capture, for every
    choice of storage; and the discipline is exactly what its indexes need. */
module CaptureRefinement {
  import opened Options
  import opened Transactions
  import opened TransactionHandler
  import opened Capture

  // ---- the record the handler keeps of a history ----

  function Latencies(done: seq<Exchange>): (r: seq<U64>)
    ensures |r| == |done|
    ensures forall i :: 0 <= i < |done| ==> r[i] == Elapsed(done[i].requestTs, done[i].responseTs)
  {
    if done == [] then []
    else
      var last := done[|done| - 1];
      Latencies(done[..|done| - 1]) + [Elapsed(last.requestTs, last.responseTs)]
  }

  function OpenedAt(h: History): U64 {
    if h.done != [] then h.done[0].requestTs
    else if h.pending.Some? then h.pending.value.ts
    else 0
  }

  function ActiveRecord(h: History): Txn {
    var waiting := h.pending.Some?;
    Txn(h.session, OpenedAt(h), 0, 0,
        if waiting then h.pending.value.stream else NoStream,
        if waiting then h.pending.value.ts else 0,
        waiting && h.pending.value.isCommit,
        h.txId, Latencies(h.done))
  }

  function FinishedRecord(h: History): Txn
    requires h.done != []
  {
    Txn(h.session, OpenedAt(h), h.done[|h.done| - 1].responseTs, AddAll(0, Latencies(h.done)),
        NoStream, 0, true, h.txId, Latencies(h.done))
  }

  // ---- the refinement relation ----

  /** Session s owns the record of its history, and the stream it waits on leads to that record. */
  ghost predicate SessionOk<R>(h: Handler<R>, c: Log, s: string) {
    && (s in h.active <==> s in c.sessions)
    && (s in c.sessions ==>
          && h.active[s] in h.heap
          && h.heap[h.active[s]] == ActiveRecord(c.sessions[s])
          && (c.sessions[s].pending.Some? ==>
                var k := c.sessions[s].pending.value.stream;
                k in h.byStream && h.byStream[k] == h.active[s]))
  }

  /** An indexed stream leads to the transaction of the session whose unanswered request is on it. */
  ghost predicate StreamOk<R>(h: Handler<R>, c: Log, k: StreamId) {
    k in h.byStream ==>
      && h.byStream[k] in h.heap
      && var s := h.heap[h.byStream[k]].session;
         InFlight(c, s, k) && s in h.active && h.active[s] == h.byStream[k]
  }

  ghost predicate FinishedOk<R>(h: Handler<R>, c: Log, i: nat) {
    i < |h.finished| && i < |c.finished| ==>
      && c.finished[i].done != []
      && h.finished[i] in h.heap
      && h.heap[h.finished[i]] == FinishedRecord(c.finished[i])
  }

  /** A finished transaction is no longer owned by its session and is listed once. */
  ghost predicate Released<R>(h: Handler<R>, i: nat) {
    i < |h.finished| && h.finished[i] in h.heap ==>
      && (h.heap[h.finished[i]].session in h.active ==>
            h.active[h.heap[h.finished[i]].session] != h.finished[i])
      && (forall j :: 0 <= j < i ==> h.finished[j] != h.finished[i])
  }

  /** Storage holds the active and the finished transactions only. */
  ghost predicate Owned<R>(h: Handler<R>, r: R) {
    r in h.heap ==> (h.heap[r].session in h.active && h.active[h.heap[r].session] == r) || r in h.finished
  }

  predicate CountersMatch<R>(h: Handler<R>, c: Log) {
    && |h.finished| == |c.finished|
    && h.processed == c.processed
    && h.skipped == c.skipped
    && h.aborted == c.aborted
    && h.idMismatch == c.idMismatch
    && h.requestMismatch == c.requestMismatch
  }

  ghost predicate Linked<R>(h: Handler<R>, c: Log) {
    && (forall s :: SessionOk(h, c, s))
    && (forall k :: StreamOk(h, c, k))
    && (forall i: nat :: FinishedOk(h, c, i))
    && (forall i: nat :: Released(h, i))
    && (forall r :: r in h.heap ==> Owned(h, r))
  }

  ghost predicate Refines<R>(h: Handler<R>, c: Log) {
    Shaped(c) && CountersMatch(h, c) && Linked(h, c)
  }

  lemma {:induction false} InitRefines<R>()
    ensures Refines<R>(Init(), Empty)
  {
  }

  // ---- the four moves that every event is made of ----

  /** Sessions own different records. */
  lemma {:induction false} Apart<R>(h: Handler<R>, c: Log, s1: string, s2: string)
    requires Refines(h, c) && s1 in c.sessions && s2 in c.sessions && s1 != s2
    ensures s1 in h.active && s2 in h.active && h.active[s1] != h.active[s2]
  {
    assert SessionOk(h, c, s1) && SessionOk(h, c, s2);
  }

  /** A session is forgotten: its transaction is freed, and so is the stream it waits on, if any. */
  lemma {:induction false} Drop<R>(h: Handler<R>, c: Log, s: string, h1: Handler<R>, c1: Log)
    requires Refines(h, c) && s in c.sessions
    requires SessionOk(h, c, s)
    requires h1.heap == h.heap - {h.active[s]}
    requires h1.active == h.active - {s}
    requires if Waiting(c, s) then h1.byStream == h.byStream - {c.sessions[s].pending.value.stream}
             else h1.byStream == h.byStream
    requires h1.finished == h.finished && c1.finished == c.finished
    requires c1.sessions == c.sessions - {s}
    ensures Linked(h1, c1)
  {
    var t := h.heap[h.active[s]];
    forall s2 ensures SessionOk(h1, c1, s2) {
      assert SessionOk(h, c, s2);
      if s2 in c.sessions && s2 != s {
        Apart(h, c, s, s2);
        assert t.InProgress() ==> InFlight(c, s, t.current);
        if c.sessions[s2].pending.Some? {
          assert InFlight(c, s2, c.sessions[s2].pending.value.stream);
        }
      }
    }
    forall k ensures StreamOk(h1, c1, k) {
      assert StreamOk(h, c, k);
      if k in h1.byStream {
        var s2 := h.heap[h.byStream[k]].session;
        if s2 != s {
          Apart(h, c, s, s2);
        }
      }
    }
    forall i: nat ensures FinishedOk(h1, c1, i) && Released(h1, i) {
      assert FinishedOk(h, c, i) && Released(h, i);
    }
    forall r | r in h1.heap ensures Owned(h1, r) {
      assert Owned(h, r);
    }
  }

  /** An idle or new session gets a request in flight; `r` is its storage. */
  lemma {:induction false} Start<R>(h: Handler<R>, c: Log, s: string, r: R, history: History, h1: Handler<R>, c1: Log)
    requires Refines(h, c)
    requires history.session == s && history.pending.Some? && !history.pending.value.stream.Empty()
    requires forall s2 :: !InFlight(c, s2, history.pending.value.stream)
    requires if s in c.sessions then !Waiting(c, s) && s in h.active && r == h.active[s] else r !in h.heap
    requires h1.heap == h.heap[r := ActiveRecord(history)]
    requires h1.byStream == h.byStream[history.pending.value.stream := r]
    requires h1.active == h.active[s := r]
    requires h1.finished == h.finished && c1.finished == c.finished
    requires c1.sessions == c.sessions[s := history]
    ensures Linked(h1, c1)
  {
    var k0 := history.pending.value.stream;
    assert SessionOk(h, c, s);
    forall s2 ensures SessionOk(h1, c1, s2) {
      assert SessionOk(h, c, s2);
      if s2 in c.sessions && s2 != s {
        if s in c.sessions {
          Apart(h, c, s, s2);
        }
        if c.sessions[s2].pending.Some? {
          assert InFlight(c, s2, c.sessions[s2].pending.value.stream);
        }
      }
    }
    forall k ensures StreamOk(h1, c1, k) {
      assert StreamOk(h, c, k);
      if k in h.byStream && k != k0 {
        var s2 := h.heap[h.byStream[k]].session;
        assert s2 != s;
        if s in c.sessions {
          Apart(h, c, s, s2);
        }
      }
    }
    forall i: nat ensures FinishedOk(h1, c1, i) && Released(h1, i) {
      assert FinishedOk(h, c, i) && Released(h, i);
    }
    forall r2 | r2 in h1.heap ensures Owned(h1, r2) {
      assert r2 in h.heap ==> Owned(h, r2);
    }
  }

  /** The owner of stream k is answered and stays. */
  lemma {:induction false} Answered<R>(h: Handler<R>, c: Log, s: string, k0: StreamId, ts: U64, h1: Handler<R>, c1: Log)
    requires Refines(h, c) && InFlight(c, s, k0) && s in h.active
    requires h1.heap == h.heap[h.active[s] := ActiveRecord(c.sessions[s].Answer(ts))]
    requires h1.byStream == h.byStream - {k0}
    requires h1.active == h.active
    requires h1.finished == h.finished && c1.finished == c.finished
    requires c1.sessions == c.sessions[s := c.sessions[s].Answer(ts)]
    ensures Linked(h1, c1)
  {
    assert SessionOk(h, c, s);
    forall s2 ensures SessionOk(h1, c1, s2) {
      assert SessionOk(h, c, s2);
      if s2 in c.sessions && s2 != s {
        Apart(h, c, s, s2);
        if c.sessions[s2].pending.Some? {
          assert InFlight(c, s2, c.sessions[s2].pending.value.stream);
        }
      }
    }
    forall k ensures StreamOk(h1, c1, k) {
      assert StreamOk(h, c, k);
      if k in h1.byStream {
        var s2 := h.heap[h.byStream[k]].session;
        assert s2 != s;
        Apart(h, c, s, s2);
      }
    }
    forall i: nat ensures FinishedOk(h1, c1, i) && Released(h1, i) {
      assert FinishedOk(h, c, i) && Released(h, i);
    }
    forall r2 | r2 in h1.heap ensures Owned(h1, r2) {
      assert Owned(h, r2);
    }
  }

  /** The owner of stream k is answered and finished. */
  lemma {:induction false} Retired<R>(h: Handler<R>, c: Log, s: string, k0: StreamId, ts: U64, h1: Handler<R>, c1: Log)
    requires Refines(h, c) && InFlight(c, s, k0) && s in h.active
    requires h1.heap == h.heap[h.active[s] := FinishedRecord(c.sessions[s].Answer(ts))]
    requires h1.byStream == h.byStream - {k0}
    requires h1.active == h.active - {s}
    requires h1.finished == h.finished + [h.active[s]]
    requires c1.finished == c.finished + [c.sessions[s].Answer(ts)]
    requires c1.sessions == c.sessions - {s}
    ensures Linked(h1, c1)
  {
    assert SessionOk(h, c, s);
    forall s2 ensures SessionOk(h1, c1, s2) {
      assert SessionOk(h, c, s2);
      if s2 in c.sessions && s2 != s {
        Apart(h, c, s, s2);
        if c.sessions[s2].pending.Some? {
          assert InFlight(c, s2, c.sessions[s2].pending.value.stream);
        }
      }
    }
    forall k ensures StreamOk(h1, c1, k) {
      assert StreamOk(h, c, k);
      if k in h1.byStream {
        var s2 := h.heap[h.byStream[k]].session;
        assert s2 != s;
        Apart(h, c, s, s2);
      }
    }
    forall i: nat ensures FinishedOk(h1, c1, i) && Released(h1, i) {
      assert FinishedOk(h, c, i) && Released(h, i);
      if i < |h.finished| {
        assert h1.finished[i] == h.finished[i] != h.active[s];
      } else if i == |h.finished| {
        forall j | 0 <= j < i ensures h1.finished[j] != h1.finished[i] {
          assert FinishedOk(h, c, j) && Released(h, j);
        }
      }
    }
    forall r2 | r2 in h1.heap ensures Owned(h1, r2) {
      assert Owned(h, r2);
      assert h1.finished[|h.finished|] == h.active[s];
    }
  }

  lemma {:induction false} Unchanged<R>(h: Handler<R>, c: Log, h1: Handler<R>, c1: Log)
    requires Linked(h, c)
    requires h1.heap == h.heap && h1.byStream == h.byStream && h1.active == h.active && h1.finished == h.finished
    requires c1.sessions == c.sessions && c1.finished == c.finished
    ensures Linked(h1, c1)
  {
    forall s ensures SessionOk(h1, c1, s) {
      assert SessionOk(h, c, s);
    }
    forall k ensures StreamOk(h1, c1, k) {
      assert StreamOk(h, c, k);
    }
    forall i: nat ensures FinishedOk(h1, c1, i) && Released(h1, i) {
      assert FinishedOk(h, c, i) && Released(h, i);
    }
    forall r | r in h1.heap ensures Owned(h1, r) {
      assert Owned(h, r);
    }
  }

  // ---- the events ----

  lemma {:induction false} DropShaped(c: Log, s: string)
    requires Shaped(c)
    ensures Shaped(c.(sessions := c.sessions - {s}))
  {
    var c1 := c.(sessions := c.sessions - {s});
    forall s1, s2, k | InFlight(c1, s1, k) && InFlight(c1, s2, k) ensures s1 == s2 {
      assert InFlight(c, s1, k) && InFlight(c, s2, k);
    }
  }

  /** A begin of an idle session, active or not. */
  lemma {:induction false} IdleBegin<R>(h: Handler<R>, c: Log, e: Event, slot: R)
    requires Refines(h, c) && e.Begin? && Free(h, e, slot)
    requires !Waiting(c, e.session) && Sound(c, e.stream, e.ts)
    ensures Step(h, e, slot).Next?
    ensures Linked(Step(h, e, slot).h, OnEvent(c, e)) && CountersMatch(Step(h, e, slot).h, OnEvent(c, e))
  {
    var h1, c1 := Step(h, e, slot).h, OnEvent(c, e);
    assert SessionOk(h, c, e.session) && StreamOk(h, c, e.stream);
    var history := History(e.session, "", [], Some(Pending(e.stream, false, e.ts)));
    assert NewTxn(e.stream, e.session, e.ts) == Ok(ActiveRecord(history));
    if e.session in c.sessions {
      var h0, c0 := h.EraseActive(e.session), c.(sessions := c.sessions - {e.session});
      Drop(h, c, e.session, h0, c0);
      DropShaped(c, e.session);
      forall s2 ensures !InFlight(c0, s2, e.stream) {
        assert !InFlight(c, s2, e.stream);
      }
      Start(h0, c0, e.session, slot, history, h1, c1);
    } else {
      Start(h, c, e.session, slot, history, h1, c1);
    }
  }

  lemma {:induction false} BeginRefines<R>(h: Handler<R>, c: Log, e: Event, slot: R)
    requires Refines(h, c) && e.Begin? && Disciplined(c, e) && Free(h, e, slot)
    ensures Step(h, e, slot).Next?
    ensures Linked(Step(h, e, slot).h, OnEvent(c, e)) && CountersMatch(Step(h, e, slot).h, OnEvent(c, e))
  {
    if Waiting(c, e.session) {
      assert SessionOk(h, c, e.session);
      Drop(h, c, e.session, Step(h, e, slot).h, OnEvent(c, e));
    } else {
      IdleBegin(h, c, e, slot);
    }
  }

  /** A request of another transaction than the idle session has shown. */
  lemma {:induction false} MismatchedRequest<R>(h: Handler<R>, c: Log, e: Event)
    requires Refines(h, c) && e.Request? && e.session != "" && e.session in c.sessions
    requires c.sessions[e.session].pending.None? && !SameTransaction(c.sessions[e.session], e.txId)
    ensures React(h, e).Next?
    ensures Linked(React(h, e).h, OnEvent(c, e)) && CountersMatch(React(h, e).h, OnEvent(c, e))
  {
    assert SessionOk(h, c, e.session);
    forall k | k in h.byStream ensures h.byStream[k] != h.active[e.session] {
      assert StreamOk(h, c, k);
    }
    Drop(h, c, e.session, React(h, e).h, OnEvent(c, e));
  }

  lemma {:induction false} RequestRefines<R>(h: Handler<R>, c: Log, e: Event)
    requires Refines(h, c) && e.Request? && Disciplined(c, e)
    ensures React(h, e).Next?
    ensures Linked(React(h, e).h, OnEvent(c, e)) && CountersMatch(React(h, e).h, OnEvent(c, e))
  {
    assert SessionOk(h, c, e.session);
    if e.session !in c.sessions {
      Unchanged(h, c, React(h, e).h, OnEvent(c, e));
    } else if Waiting(c, e.session) {
      Drop(h, c, e.session, React(h, e).h, OnEvent(c, e));
    } else if !SameTransaction(c.sessions[e.session], e.txId) {
      MismatchedRequest(h, c, e);
    } else {
      var started := c.sessions[e.session].(txId := e.txId, pending := Some(Pending(e.stream, e.isCommit, e.ts)));
      Start(h, c, e.session, h.active[e.session], started, React(h, e).h, OnEvent(c, e));
    }
  }

  /** The response to a query, as the handler sees it. */
  lemma {:induction false} QueryAnswered<R>(h: Handler<R>, c: Log, s: string, k: StreamId, ts: U64)
    requires Refines(h, c) && InFlight(c, s, k) && !c.sessions[s].pending.value.isCommit
    ensures s in h.active && TryCommitResponse(h, k, ts) == NotMine
    ensures TryQueryResponse(h, k, ts)
         == Taken(Next(h.(heap := h.heap[h.active[s] := ActiveRecord(c.sessions[s].Answer(ts))],
                          byStream := h.byStream - {k}, processed := h.processed + 1)))
  {
    assert SessionOk(h, c, s);
    assert h.heap[h.active[s]].FinishRequest(k, ts) == Ok(ActiveRecord(c.sessions[s].Answer(ts)));
  }

  /** The response to a commit. */
  lemma {:induction false} CommitAnswered<R>(h: Handler<R>, c: Log, s: string, k: StreamId, ts: U64)
    requires Refines(h, c) && InFlight(c, s, k) && c.sessions[s].pending.value.isCommit
    ensures s in h.active && TryQueryResponse(h, k, ts) == NotMine
    ensures TryCommitResponse(h, k, ts)
         == Taken(Next(RetireEffect(h.(heap := h.heap[h.active[s] := FinishedRecord(c.sessions[s].Answer(ts))]), s, k)))
  {
    assert SessionOk(h, c, s);
    assert h.heap[h.active[s]].FinishTransaction(k, ts) == Ok(FinishedRecord(c.sessions[s].Answer(ts)));
  }

  lemma {:induction false} QueryResponse<R>(h: Handler<R>, c: Log, e: Event, s: string)
    requires Refines(h, c) && e.Response? && Owner(c, e.stream) == Some(s) && InFlight(c, s, e.stream)
    requires !c.sessions[s].pending.value.isCommit
    ensures React(h, e).Next?
    ensures Linked(React(h, e).h, OnEvent(c, e)) && CountersMatch(React(h, e).h, OnEvent(c, e))
  {
    QueryAnswered(h, c, s, e.stream, e.ts);
    if e.asQuery {
      Answered(h, c, s, e.stream, e.ts, React(h, e).h, OnEvent(c, e));
    } else {
      Unchanged(h, c, React(h, e).h, OnEvent(c, e));
    }
  }

  lemma {:induction false} CommitResponse<R>(h: Handler<R>, c: Log, e: Event, s: string)
    requires Refines(h, c) && e.Response? && Owner(c, e.stream) == Some(s) && InFlight(c, s, e.stream)
    requires c.sessions[s].pending.value.isCommit
    ensures React(h, e).Next?
    ensures Linked(React(h, e).h, OnEvent(c, e)) && CountersMatch(React(h, e).h, OnEvent(c, e))
  {
    CommitAnswered(h, c, s, e.stream, e.ts);
    if e.asCommit {
      Retired(h, c, s, e.stream, e.ts, React(h, e).h, OnEvent(c, e));
    } else {
      Unchanged(h, c, React(h, e).h, OnEvent(c, e));
    }
  }

  lemma {:induction false} ResponseRefines<R>(h: Handler<R>, c: Log, e: Event)
    requires Refines(h, c) && e.Response?
    ensures React(h, e).Next?
    ensures Linked(React(h, e).h, OnEvent(c, e)) && CountersMatch(React(h, e).h, OnEvent(c, e))
  {
    var owner := Owner(c, e.stream);
    if owner.Some? {
      if c.sessions[owner.value].pending.value.isCommit {
        CommitResponse(h, c, e, owner.value);
      } else {
        QueryResponse(h, c, e, owner.value);
      }
    } else {
      assert StreamOk(h, c, e.stream);
      assert e.stream !in h.byStream;
      Unchanged(h, c, React(h, e).h, OnEvent(c, e));
    }
  }

  /** Every disciplined event is handled without exception or fault, and as the reference reads it. */
  lemma {:induction false} ReactRefines<R>(h: Handler<R>, c: Log, e: Event)
    requires Refines(h, c) && !e.Begin? && Disciplined(c, e)
    ensures React(h, e).Next?
    ensures Refines(React(h, e).h, OnEvent(c, e))
  {
    StepShaped(c, e);
    if e.Request? {
      RequestRefines(h, c, e);
    } else if e.Response? {
      ResponseRefines(h, c, e);
    } else {
      Unchanged(h, c, React(h, e).h, OnEvent(c, e));
    }
  }

  lemma {:induction false} StepRefines<R>(h: Handler<R>, c: Log, e: Event, slot: R)
    requires Refines(h, c) && Disciplined(c, e) && Free(h, e, slot)
    ensures Step(h, e, slot).Next?
    ensures Refines(Step(h, e, slot).h, OnEvent(c, e))
  {
    if e.Begin? {
      StepShaped(c, e);
      BeginRefines(h, c, e, slot);
    } else {
      ReactRefines(h, c, e);
    }
  }

  // ---- whole captures ----

  function Events<R>(es: seq<(Event, R)>): (r: seq<Event>)
    ensures |r| == |es|
    ensures forall i :: 0 <= i < |es| ==> r[i] == es[i].0
  {
    if es == [] then [] else Events(es[..|es| - 1]) + [es[|es| - 1].0]
  }

  /** The allocator hands out free storage throughout. */
  ghost predicate Allocated<R>(es: seq<(Event, R)>) {
    es == [] ||
    (var prefix := es[..|es| - 1];
     Allocated(prefix) && (Run(prefix).Next? ==> Free(Run(prefix).h, es[|es| - 1].0, es[|es| - 1].1)))
  }

  lemma {:induction false} RunRefines<R>(es: seq<(Event, R)>)
    requires DisciplinedRun(Events(es)) && Allocated(es)
    ensures Run(es).Next?
    ensures Refines(Run(es).h, Read(Events(es)))
  {
    if es == [] {
    } else {
      var prefix := es[..|es| - 1];
      assert Events(es)[..|es| - 1] == Events(prefix);
      RunRefines(prefix);
      StepRefines(Run(prefix).h, Read(Events(prefix)), es[|es| - 1].0, es[|es| - 1].1);
    }
  }
}
