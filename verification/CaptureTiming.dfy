/** Server and client time of every finished transaction: what they are on any capture, when they are exact, and that
    they always are when the clock never steps back. */
module CaptureTiming {
  import opened LatencyReport
  import opened Options
  import opened Ordering
  import opened Transactions
  import opened TransactionHandler
  import opened Capture
  import opened CaptureRefinement

  // ---- a clock that never steps back ----

  ghost predicate Clocked(es: seq<Event>) {
    forall i, j :: 0 <= i < j < |es| ==> es[i].ts <= es[j].ts
  }

  function Now(es: seq<Event>): U64 { if es == [] then 0 else es[|es| - 1].ts }

  /** Requests and responses of one transaction alternate in time, none later than `now`. */
  ghost predicate InOrder(h: History, now: U64) {
    && (forall i :: 0 <= i < |h.done| ==> h.done[i].requestTs <= h.done[i].responseTs <= now)
    && (forall i :: 0 < i < |h.done| ==> h.done[i - 1].responseTs <= h.done[i].requestTs)
    && (h.pending.Some? ==>
          && h.pending.value.ts <= now
          && (h.done != [] ==> h.done[|h.done| - 1].responseTs <= h.pending.value.ts))
  }

  ghost predicate AllInOrder(c: Log, now: U64) {
    && (forall s :: s in c.sessions ==> InOrder(c.sessions[s], now))
    && (forall i :: 0 <= i < |c.finished| ==> InOrder(c.finished[i], now))
  }

  lemma {:induction false} StepInOrder(c: Log, e: Event, now: U64)
    requires AllInOrder(c, now) && now <= e.ts
    ensures AllInOrder(OnEvent(c, e), e.ts)
  {
    assert AllInOrder(c, e.ts);
    if e.Response? {
      var owner := Owner(c, e.stream);
      if owner.Some? {
        AnswerInOrder(c.sessions[owner.value], e.ts);
      }
    }
  }

  lemma {:induction false} AnswerInOrder(h: History, ts: U64)
    requires InOrder(h, ts) && h.pending.Some?
    ensures InOrder(h.Answer(ts), ts)
  {
  }

  lemma {:induction false} RunInOrder(es: seq<Event>)
    requires Clocked(es)
    ensures AllInOrder(Read(es), Now(es))
  {
    if es != [] {
      var prefix := es[..|es| - 1];
      RunInOrder(prefix);
      StepInOrder(Read(prefix), es[|es| - 1], Now(prefix));
    }
  }

  // ---- one finished transaction ----

  /** The time between each response and the next request. */
  function Gaps(done: seq<Exchange>): int {
    if |done| < 2 then 0
    else Gaps(done[..|done| - 1]) + (done[|done| - 1].requestTs - done[|done| - 2].responseTs)
  }

  /** How far responses are stamped earlier than their own requests: by a clock that stepped back in between. */
  function Setbacks(done: seq<Exchange>): int {
    if done == [] then 0
    else
      var last := done[|done| - 1];
      Setbacks(done[..|done| - 1]) + if last.responseTs < last.requestTs then last.requestTs - last.responseTs else 0
  }

  /** The time from the first request to the last response. */
  function Span(done: seq<Exchange>): int
    requires done != []
  {
    done[|done| - 1].responseTs - done[0].requestTs
  }

  lemma {:induction false} AddAllWraps(latencies: seq<U64>)
    ensures AddAll(0, latencies) == Wrap(Sum(latencies))
    ensures Sum(latencies) >= 0
  {
    if latencies != [] {
      var rest, last := latencies[..|latencies| - 1], latencies[|latencies| - 1];
      assert latencies == rest + [last];
      SumAppend(rest, [last]);
      SumNat(latencies);
      AddAllWraps(rest);
      WrapAdds(Sum(rest), last);
    }
  }

  lemma {:induction false} WrapAdds(x: int, y: int)
    ensures Wrap(Wrap(x) + y) == Wrap(x + y)
    ensures Wrap(Wrap(x) - Wrap(y)) == Wrap(x - y)
  {
    var i, j := x / TWO64, y / TWO64;
    WrapShift(x + y, -i);
    WrapShift(x - y, j - i);
  }

  lemma {:induction false} WrapShift(x: int, n: int)
    ensures Wrap(x + n * TWO64) == Wrap(x)
  {
  }

  /** Latencies and gaps tile the time from the first request to the last response, where the clock did not set a
      response before its request: such an exchange has no latency. */
  lemma {:induction false} LatenciesAndGaps(done: seq<Exchange>)
    requires done != []
    ensures Sum(Latencies(done)) + Gaps(done) == Span(done) + Setbacks(done)
    ensures Setbacks(done) >= 0
  {
    var rest, last := done[..|done| - 1], done[|done| - 1];
    SumAppend(Latencies(rest), [Elapsed(last.requestTs, last.responseTs)]);
    if |done| == 1 {
      assert Latencies(rest) == [];
    } else {
      LatenciesAndGaps(rest);
    }
  }

  /** The times of a transaction with the exchanges `done`, and exactly when each is what it stands for. */
  ghost predicate ExactTimes(t: Txn, done: seq<Exchange>) {
    && done != []
    && t.latencies == Latencies(done)
    && t.TotalTime() == Wrap(Span(done))
    && (t.TotalTime() == Span(done) <==> Span(done) >= 0)
    && t.serverUs == Wrap(Sum(t.latencies))
    && (t.serverUs == Sum(t.latencies) <==> Sum(t.latencies) < TWO64)
    && t.ClientTime() == Wrap(Gaps(done) - Setbacks(done))
    && (t.ClientTime() == Gaps(done) - Setbacks(done) <==> Setbacks(done) <= Gaps(done))
  }

  lemma {:induction false} WrapIsExact(x: int)
    requires x < TWO64
    ensures Wrap(x) == x <==> x >= 0
  {
  }

  lemma {:induction false} TimesOf(t: Txn, span: int, sum: int)
    requires t.TotalTime() == Wrap(span) && t.serverUs == Wrap(sum)
    ensures t.ClientTime() == Wrap(span - sum)
  {
    WrapAdds(span, sum);
  }

  /** With any clock: client time is the gaps less the setbacks, and wraps exactly when these are longer. */
  lemma {:induction false} RecordTimes(h: History)
    requires h.done != []
    ensures ExactTimes(FinishedRecord(h), h.done)
  {
    var done, sum := h.done, Sum(Latencies(h.done));
    LatenciesAndGaps(done);
    RecordWraps(h);
    SumNat(Latencies(done));
    TimesOf(FinishedRecord(h), Span(done), sum);
    WrapIsExact(Span(done));
    WrapIsExact(Gaps(done) - Setbacks(done));
  }

  lemma {:induction false} RecordWraps(h: History)
    requires h.done != []
    ensures var t := FinishedRecord(h);
            && t.TotalTime() == Wrap(Span(h.done))
            && t.serverUs == Wrap(Sum(Latencies(h.done)))
            && (t.serverUs == Sum(Latencies(h.done)) <==> Sum(Latencies(h.done)) < TWO64)
  {
    AddAllWraps(Latencies(h.done));
  }

  /** Every finished transaction of every disciplined capture. */
  lemma {:induction false} CaptureTimes<R>(es: seq<(Event, R)>, i: nat)
    requires DisciplinedRun(Events(es)) && Allocated(es)
    requires i < |Read(Events(es)).finished|
    ensures Run(es).Next? && i < |Run(es).h.finished| && Run(es).h.finished[i] in Run(es).h.heap
    ensures var t := Run(es).h.heap[Run(es).h.finished[i]];
            ExactTimes(t, Read(Events(es)).finished[i].done) && |t.latencies| >= 2
  {
    RunRefines(es);
    var c := Read(Events(es));
    assert FinishedOk(Run(es).h, c, i);
    assert FinishedShape(c.finished[i]);
    RecordTimes(c.finished[i]);
  }

  // ---- without a step back ----

  lemma {:induction false} NoSetbacks(done: seq<Exchange>)
    requires forall i :: 0 <= i < |done| ==> done[i].requestTs <= done[i].responseTs
    ensures Setbacks(done) == 0
  {
    if done != [] {
      NoSetbacks(done[..|done| - 1]);
    }
  }

  lemma {:induction false} GapsPositive(done: seq<Exchange>)
    requires forall i :: 0 < i < |done| ==> done[i - 1].responseTs <= done[i].requestTs
    ensures Gaps(done) >= 0
  {
    if |done| >= 2 {
      GapsPositive(done[..|done| - 1]);
    }
  }

  /** Total time is the span, server time what was spent on requests and client time what was spent between them;
      nothing wraps around. */
  ghost predicate PlainTimes(t: Txn, done: seq<Exchange>) {
    && done != []
    && t.latencies == Latencies(done)
    && t.TotalTime() == Span(done)
    && t.serverUs == Sum(t.latencies) <= t.TotalTime()
    && t.ClientTime() == Gaps(done)
  }

  lemma {:induction false} FinishedTimes(h: History, now: U64)
    requires FinishedShape(h) && InOrder(h, now)
    ensures PlainTimes(FinishedRecord(h), h.done)
    ensures now < TWO63 ==> Balanced(FinishedRecord(h))
  {
    RecordTimes(h);
    NoSetbacks(h.done);
    GapsPositive(h.done);
    LatenciesAndGaps(h.done);
    SumNat(Latencies(h.done));
  }

  lemma {:induction false} ClockedTimes<R>(es: seq<(Event, R)>, i: nat)
    requires DisciplinedRun(Events(es)) && Allocated(es) && Clocked(Events(es))
    requires i < |Read(Events(es)).finished|
    ensures Run(es).Next? && i < |Run(es).h.finished| && Run(es).h.finished[i] in Run(es).h.heap
    ensures PlainTimes(Run(es).h.heap[Run(es).h.finished[i]], Read(Events(es)).finished[i].done)
  {
    RunRefines(es);
    RunInOrder(Events(es));
    var c := Read(Events(es));
    assert FinishedOk(Run(es).h, c, i);
    FinishedTimes(c.finished[i], Now(Events(es)));
  }

  // ---- with one ----

  /** A request answered at 20 that began at 10, then a commit from 5 to 15. */
  function BackwardClock<R>(k0: StreamId, k1: StreamId, r0: R, r1: R): seq<(Event, R)> {
    [(Begin(k0, "s", 10), r0)] + [(Response(k0, 20, true, true), r1)] + [(Request(k1, "s", "t", 5, true), r1)]
    + [(Response(k1, 15, true, true), r1)]
  }

  lemma {:induction false} ReadOneMore(es: seq<Event>, e: Event)
    ensures Read(es + [e]) == OnEvent(Read(es), e)
    ensures DisciplinedRun(es + [e]) <==> DisciplinedRun(es) && Disciplined(Read(es), e)
  {
    assert (es + [e])[..|es|] == es;
  }

  lemma {:induction false} ReactTakesNoStorage<R>(h: Handler<R>, e: Event)
    requires !e.Begin?
    ensures React(h, e).Next? ==> React(h, e).h.heap.Keys <= h.heap.Keys
  {
  }

  /** A capture whose only begin comes first needs one piece of storage. */
  lemma {:induction false} AllocatedOnce<R>(es: seq<(Event, R)>)
    requires es != [] && es[0].0.Begin?
    requires forall i :: 0 < i < |es| ==> !es[i].0.Begin? && es[i].1 != es[0].1
    ensures Allocated(es)
    ensures Run(es).Next? ==> Run(es).h.heap.Keys <= {es[0].1}
  {
    var prefix := es[..|es| - 1];
    if |es| == 1 {
      assert prefix == [];
    } else {
      AllocatedOnce(prefix);
      if Run(prefix).Next? {
        ReactTakesNoStorage(Run(prefix).h, es[|es| - 1].0);
      }
    }
  }

  lemma {:induction false} BackwardClockRead(k0: StreamId, k1: StreamId)
    requires !k0.Empty() && !k1.Empty()
    ensures var es := [Begin(k0, "s", 10)] + [Response(k0, 20, true, true)] + [Request(k1, "s", "t", 5, true)]
                      + [Response(k1, 15, true, true)];
            && DisciplinedRun(es)
            && Read(es).finished == [History("s", "t", [Exchange(k0, false, 10, 20), Exchange(k1, true, 5, 15)], None)]
  {
    var e0, e1, e2, e3 := Begin(k0, "s", 10), Response(k0, 20, true, true), Request(k1, "s", "t", 5, true),
                          Response(k1, 15, true, true);
    ReadOneMore([], e0);
    ReadOneMore([e0], e1);
    ReadOneMore([e0] + [e1], e2);
    ReadOneMore([e0] + [e1] + [e2], e3);
    assert [] + [e0] == [e0];
    var c1 := Read([e0]);
    assert InFlight(c1, "s", k0);
    var c2 := OnEvent(c1, e1);
    assert c2.sessions["s"].done == [Exchange(k0, false, 10, 20)];
    var c3 := OnEvent(c2, e2);
    assert InFlight(c3, "s", k1);
    assert c3.sessions["s"].done == [Exchange(k0, false, 10, 20)];
    assert Owner(c3, k1) == Some("s");
    assert c3.sessions["s"].Answer(15).done == [Exchange(k0, false, 10, 20), Exchange(k1, true, 5, 15)];
  }

  /** A clock that steps back between two transactions of a disciplined capture makes the handler's client time wrap:
      the gap is minus 15. */
  lemma {:induction false} BackwardClockWraps<R>(k0: StreamId, k1: StreamId, r0: R, r1: R)
    requires !k0.Empty() && !k1.Empty() && r0 != r1
    ensures var es := BackwardClock(k0, k1, r0, r1);
            && DisciplinedRun(Events(es)) && Allocated(es)
            && Run(es).Next?
            && |Run(es).h.finished| == 1
            && Run(es).h.finished[0] in Run(es).h.heap
            && Run(es).h.heap[Run(es).h.finished[0]].ClientTime() == TWO64 - 15
  {
    var es := BackwardClock(k0, k1, r0, r1);
    AllocatedOnce(es);
    BackwardClockRead(k0, k1);
    assert Events(es) == [Begin(k0, "s", 10)] + [Response(k0, 20, true, true)] + [Request(k1, "s", "t", 5, true)]
                         + [Response(k1, 15, true, true)];
    RunRefines(es);
    CaptureTimes(es, 0);
    TwoExchanges(Run(es).h.heap[Run(es).h.finished[0]], Read(Events(es)).finished[0].done);
  }

  lemma {:induction false} TwoExchanges(t: Txn, done: seq<Exchange>)
    requires ExactTimes(t, done) && |done| == 2
    requires done[0].requestTs <= done[0].responseTs && done[1].requestTs <= done[1].responseTs
    ensures t.ClientTime() == Wrap(done[1].requestTs - done[0].responseTs)
  {
    TwoGaps(done);
  }

  lemma {:induction false} TwoGaps(done: seq<Exchange>)
    requires |done| == 2
    ensures Gaps(done) == done[1].requestTs - done[0].responseTs
    ensures done[0].requestTs <= done[0].responseTs && done[1].requestTs <= done[1].responseTs ==> Setbacks(done) == 0
  {
    assert |done[..1]| == 1;
    if done[0].requestTs <= done[0].responseTs && done[1].requestTs <= done[1].responseTs {
      NoSetbacks(done);
    }
  }
}
