/** The main loop of the capture tool over decoded frames, on the handler object. */
module CaptureReplay {
  import opened Options
  import opened Transactions
  import opened TransactionHandler
  import opened Capture
  import opened CaptureRefinement
  import opened CaptureExactness
  import opened CaptureTiming
  import opened LatencyReport
  import opened Ordering

  type Message = (Payload, Frame)

  function Classified(messages: seq<Message>, filter: Filter): (r: seq<Event>)
    ensures |r| == |messages|
  {
    if messages == [] then []
    else
      var last := messages[|messages| - 1];
      Classified(messages[..|messages| - 1], filter) + [Classify(last.0, last.1, filter)]
  }

  lemma {:induction false} ClassifiedAppend(messages: seq<Message>, last: Message, filter: Filter)
    ensures Classified(messages + [last], filter) == Classified(messages, filter) + [Classify(last.0, last.1, filter)]
  {
    assert (messages + [last])[..|messages|] == messages;
  }

  lemma {:induction false} DisciplinedFront(es: seq<Event>, e: Event)
    requires DisciplinedRun(es + [e])
    ensures DisciplinedRun(es) && Disciplined(Read(es), e) && Read(es + [e]) == OnEvent(Read(es), e)
  {
    assert (es + [e])[..|es|] == es;
  }

  /** Every prefix of a disciplined capture is one. */
  lemma {:induction false} ClassifiedPrefix(messages: seq<Message>, filter: Filter, i: nat)
    requires i <= |messages|
    requires DisciplinedRun(Classified(messages, filter))
    ensures DisciplinedRun(Classified(messages[..i], filter))
    decreases |messages|
  {
    if i == |messages| {
      assert messages[..i] == messages;
    } else {
      var front, last := messages[..|messages| - 1], messages[|messages| - 1];
      assert messages == front + [last];
      ClassifiedAppend(front, last, filter);
      DisciplinedFront(Classified(front, filter), Classify(last.0, last.1, filter));
      ClassifiedPrefix(front, filter, i);
      assert front[..i] == messages[..i];
    }
  }

  /** Where nothing is constructed, the storage of the repeated request can stand in for new storage. */
  lemma {:induction false} RepeatedIsFree<R>(h: Handler<R>, c: Log, e: Event)
    requires Refines(h, c) && Disciplined(c, e) && e.Begin? && e.stream in h.byStream
    ensures Free(h, e, h.byStream[e.stream])
  {
    assert StreamOk(h, c, e.stream);
    assert SessionOk(h, c, h.heap[h.byStream[e.stream]].session) && SessionOk(h, c, e.session);
  }

  /** One message on the object keeps it the record of the reference reading `c`. */
  method ProcessMessage(t: Tracker, p: Payload, frame: Frame, ghost c: Log) returns (r: Status)
    requires Recording(t, c)
    requires Disciplined(c, Classify(p, frame, t.filter))
    modifies t, t.heap.Keys
    ensures r == Done
    ensures forall o :: o in t.heap && o !in old(t.heap) ==> fresh(o)
    ensures Recording(t, OnEvent(c, Classify(p, frame, t.filter)))
  {
    ghost var h := t.State();
    ghost var e := Classify(p, frame, t.filter);
    RefinesCoherent(h, c);
    if !e.Begin? {
      ReactRefines(h, c, e);
    }
    ghost var slot;
    r, slot := t.HandleGrpc(p, frame);
    if e.Begin? {
      if slot.None? {
        RepeatedIsFree(h, c, e);
      }
      StepRefines(h, c, e, if slot.Some? then slot.value else h.byStream[e.stream]);
    }
  }

  /** The reference reading of the first `i` messages. */
  ghost function ReadUpTo(messages: seq<Message>, filter: Filter, i: nat): Log
    requires i <= |messages|
  {
    Read(Classified(messages[..i], filter))
  }

  /** The reference reading of one more message, which is disciplined. */
  lemma {:induction false} ReadNext(messages: seq<Message>, filter: Filter, i: nat, e: Event)
    requires i < |messages| && e == Classify(messages[i].0, messages[i].1, filter)
    requires DisciplinedRun(Classified(messages, filter))
    ensures ReadUpTo(messages, filter, i + 1) == OnEvent(ReadUpTo(messages, filter, i), e)
    ensures Disciplined(ReadUpTo(messages, filter, i), e)
  {
    ClassifiedPrefix(messages, filter, i + 1);
    assert messages[..i + 1] == messages[..i] + [messages[i]];
    ClassifiedAppend(messages[..i], messages[i], filter);
    DisciplinedFront(Classified(messages[..i], filter), e);
  }

  lemma {:induction false} ReadEnds(messages: seq<Message>, filter: Filter)
    ensures ReadUpTo(messages, filter, 0) == Empty
    ensures ReadUpTo(messages, filter, |messages|) == Read(Classified(messages, filter))
  {
    assert messages[..|messages|] == messages;
  }

  /** The object records the reference reading `c`, and nothing is sorted yet. */
  ghost predicate Recording(t: Tracker, c: Log)
    reads t, t.heap.Keys
  {
    t.Valid() && t.Lists() == ([], [], []) && Refines(t.State(), c)
  }

  method NewRecording(filter: Filter) returns (t: Tracker)
    ensures fresh(t) && t.heap == map[] && t.filter == filter && Recording(t, Empty)
  {
    t := new Tracker(filter);
    InitRefines<TransactionState>();
  }

  /** One turn of the loop. */
  method ProcessNext(t: Tracker, messages: seq<Message>, i: nat) returns (r: Status)
    requires i < |messages| && DisciplinedRun(Classified(messages, t.filter))
    requires Recording(t, ReadUpTo(messages, t.filter, i))
    modifies t, t.heap.Keys
    ensures r == Done && Recording(t, ReadUpTo(messages, t.filter, i + 1))
    ensures forall o :: o in t.heap && o !in old(t.heap) ==> fresh(o)
  {
    ReadNext(messages, t.filter, i, Classify(messages[i].0, messages[i].1, t.filter));
    r := ProcessMessage(t, messages[i].0, messages[i].1, ReadUpTo(messages, t.filter, i));
  }

  /** A disciplined capture is processed to the end, and what the object then holds is the record of
      the reference reading. */
  method ProcessCapture(messages: seq<Message>, filter: Filter) returns (t: Tracker, r: Status)
    requires DisciplinedRun(Classified(messages, filter))
    ensures r == Done
    ensures fresh(t) && t.filter == filter
    ensures Recording(t, Read(Classified(messages, filter)))
  {
    t := NewRecording(filter);
    r := Done;
    var i := 0;
    ReadEnds(messages, filter);
    while i < |messages|
      invariant 0 <= i <= |messages|
      invariant r == Done
      invariant fresh(t) && t.filter == filter
      invariant forall o :: o in t.heap ==> fresh(o)
      invariant Recording(t, ReadUpTo(messages, filter, i))
    {
      r := ProcessNext(t, messages, i);
      i := i + 1;
    }
  }

  // ---- the finished transactions ----

  ghost predicate Complete(hs: seq<History>) { forall i :: 0 <= i < |hs| ==> hs[i].done != [] }

  /** The records of finished histories. */
  function Records(hs: seq<History>): (r: seq<Txn>)
    requires Complete(hs)
    ensures |r| == |hs|
    ensures forall i :: 0 <= i < |hs| ==> r[i] == FinishedRecord(hs[i])
  {
    if hs == [] then [] else Records(hs[..|hs| - 1]) + [FinishedRecord(hs[|hs| - 1])]
  }

  lemma {:induction false} FinishedStored<R>(h: Handler<R>, c: Log)
    requires Refines(h, c)
    ensures forall i :: 0 <= i < |h.finished| ==> h.finished[i] in h.heap
  {
    forall i | 0 <= i < |h.finished| ensures h.finished[i] in h.heap {
      assert FinishedOk(h, c, i);
    }
  }

  lemma {:induction false} FinishedRecorded<R>(h: Handler<R>, c: Log)
    requires Refines(h, c)
    ensures Complete(c.finished) && |h.finished| == |c.finished|
    ensures forall i :: 0 <= i < |h.finished| ==> h.finished[i] in h.heap
    ensures Values(h.heap, h.finished) == Records(c.finished)
  {
    forall i | 0 <= i < |h.finished|
      ensures c.finished[i].done != []
      ensures h.finished[i] in h.heap && h.heap[h.finished[i]] == FinishedRecord(c.finished[i])
    {
      assert FinishedOk(h, c, i);
    }
  }

  /** The references in the finished list, in whatever order, lead to the records of the finished histories. */
  lemma {:induction false} FinishedValues<R>(h: Handler<R>, c: Log, rs: seq<R>)
    requires Refines(h, c) && multiset(rs) == multiset(h.finished)
    ensures Complete(c.finished) && |rs| == |c.finished|
    ensures forall i :: 0 <= i < |rs| ==> rs[i] in h.heap
    ensures multiset(Values(h.heap, rs)) == multiset(Records(c.finished))
  {
    FinishedRecorded(h, c);
    SameLength(rs, h.finished);
    ValuesPermuted(h.heap, rs, h.finished);
  }

  // ---- the lists ----

  lemma {:induction false} SortFromEmpty(xs: seq<int>)
    ensures Sort(IntLe(), [] + xs) == Sort(IntLe(), xs)
  {
    EmptyPrefix(xs);
  }

  /** The three lists hold the sorted times of `ts`. */
  ghost predicate Filled(ts: seq<Txn>, client: seq<int>, server: seq<int>, query: seq<int>) {
    && client == Sort(IntLe(), ClientTimes(ts))
    && server == Sort(IntLe(), ServerTimes(ts))
    && query == Sort(IntLe(), QueryTimes(ts))
  }

  method CalculateFromEmpty(t: Tracker)
    requires t.Valid() && t.FinishedStored() && t.Lists() == ([], [], [])
    modifies t`finishedTransactions, t`clientLatencies, t`serverLatencies, t`serverQueryLatencies
    ensures t.Valid() && t.heap == old(t.heap)
    ensures multiset(t.finishedTransactions) == multiset(old(t.finishedTransactions))
    ensures t.FinishedStored() && ByTotalTime(Values(t.heap, t.finishedTransactions))
    ensures Filled(Values(t.heap, t.finishedTransactions), t.clientLatencies, t.serverLatencies, t.serverQueryLatencies)
  {
    t.CalculateResults();
    ghost var ts := Values(t.heap, t.finishedTransactions);
    SortFromEmpty(ClientTimes(ts));
    SortFromEmpty(ServerTimes(ts));
    SortFromEmpty(QueryTimes(ts));
  }

  /** What is calculated for the finished histories `hs`: their records by total time, and the sorted lists of their
      client, server and request times. */
  ghost predicate Calculated(t: Tracker, hs: seq<History>)
    reads t
  {
    && Complete(hs) && t.FinishedStored()
    && var ts := Values(t.heap, t.finishedTransactions);
       && multiset(ts) == multiset(Records(hs))
       && ByTotalTime(ts)
       && Filled(Records(hs), t.clientLatencies, t.serverLatencies, t.serverQueryLatencies)
  }

  ghost predicate CountersShow(t: Tracker, c: Log)
    reads t
  {
    CountersMatch(t.State(), c)
  }

  /** The finished list and the lists filled from it are calculated for the reading that the object recorded. */
  lemma {:induction false} CalculatedFor(t: Tracker, h: Handler<TransactionState>, c: Log)
    requires Refines(h, c) && t.heap == h.heap && multiset(t.finishedTransactions) == multiset(h.finished)
    requires t.FinishedStored() && ByTotalTime(Values(t.heap, t.finishedTransactions))
    requires Filled(Values(t.heap, t.finishedTransactions),
                    t.clientLatencies, t.serverLatencies, t.serverQueryLatencies)
    ensures Calculated(t, c.finished) && |t.finishedTransactions| == |h.finished|
  {
    FinishedValues(h, c, t.finishedTransactions);
    SameLength(h.finished, t.finishedTransactions);
    ListsPermuted(Values(t.heap, t.finishedTransactions), Records(c.finished));
  }

  method CalculateFor(t: Tracker, ghost c: Log)
    requires Recording(t, c)
    modifies t`finishedTransactions, t`clientLatencies, t`serverLatencies, t`serverQueryLatencies
    ensures t.Valid() && CountersShow(t, c) && Calculated(t, c.finished)
  {
    ghost var h := t.State();
    FinishedStored(h, c);
    CalculateFromEmpty(t);
    CalculatedFor(t, h, c);
  }

  // ---- the printout ----

  /** What is printed for the reference reading `c`: its counters, the percentiles of its sorted total, client, server
      and request times, and its slowest transactions. */
  ghost predicate Printed(t: Tracker, c: Log, topN: int, out: Printout)
    requires Complete(c.finished)
    reads t
  {
    if c.finished == [] then out == NothingFinished else
      && out.Printout?
      && out.counts == Counts(c.processed, c.skipped, c.aborted, c.idMismatch, c.requestMismatch, |c.finished|)
      && Blocks(Records(c.finished), out.blocks)
      && LastOnes(t.finishedTransactions, topN, out.slowest)
  }

  ghost predicate Blocks(ts: seq<Txn>, blocks: seq<seq<int>>) {
    && |blocks| == 4
    && IsPercentileLine(Sort(IntLe(), TotalTimes(ts)), blocks[0])
    && IsPercentileLine(Sort(IntLe(), ClientTimes(ts)), blocks[1])
    && IsPercentileLine(Sort(IntLe(), ServerTimes(ts)), blocks[2])
    && IsPercentileLine(Sort(IntLe(), QueryTimes(ts)), blocks[3])
  }

  lemma {:induction false} SomethingToPrint(hs: seq<History>)
    requires hs != [] && forall i :: 0 <= i < |hs| ==> FinishedShape(hs[i])
    ensures Complete(hs)
    ensures ClientTimes(Records(hs)) != [] && ServerTimes(Records(hs)) != [] && QueryTimes(Records(hs)) != []
  {
    QueryCount(Records(hs));
  }

  method PrintFor(t: Tracker, ghost c: Log, topN: int) returns (out: Printout)
    requires t.Valid() && CountersShow(t, c) && Calculated(t, c.finished)
    requires forall i :: 0 <= i < |c.finished| ==> FinishedShape(c.finished[i])
    ensures Printed(t, c, topN, out)
  {
    ghost var ts := Values(t.heap, t.finishedTransactions);
    if c.finished != [] {
      SomethingToPrint(c.finished);
    }
    TotalsSorted(ts);
    ListsPermuted(ts, Records(c.finished));
    out := t.Print(topN);
  }

  // ---- under a clock that never steps back ----

  function SpanOf(): History -> seq<int> { (h: History) => if h.done == [] then [] else [Span(h.done)] }
  function GapOf(): History -> seq<int> { (h: History) => [Gaps(h.done)] }
  function ServedOf(): History -> seq<int> { (h: History) => [Sum(Latencies(h.done))] }
  function RequestsOf(): History -> seq<int> { (h: History) => Latencies(h.done) }

  /** The printed times are what they are called, and add up. */
  ghost predicate PlainReport(hs: seq<History>)
    requires Complete(hs)
  {
    var ts := Records(hs);
    && TotalTimes(ts) == Collected(SpanOf(), hs)
    && ClientTimes(ts) == Collected(GapOf(), hs)
    && ServerTimes(ts) == Collected(ServedOf(), hs)
    && QueryTimes(ts) == Collected(RequestsOf(), hs)
    && Sum(Sort(IntLe(), ClientTimes(ts))) + Sum(Sort(IntLe(), ServerTimes(ts))) == Sum(TotalTimes(ts))
    && Sum(Sort(IntLe(), QueryTimes(ts))) == Sum(Sort(IntLe(), ServerTimes(ts)))
  }

  lemma {:induction false} PlainLongs(xs: seq<U64>)
    requires Sum(xs) < TWO63
    ensures Longs(xs) == xs
  {
    if xs != [] {
      SumNat(xs[1..]);
      PlainLongs(xs[1..]);
    }
  }

  /** The entries of one finished history. */
  lemma {:induction false} PlainEntries(h: History, now: U64)
    requires FinishedShape(h) && InOrder(h, now) && now < TWO63
    ensures var t := FinishedRecord(h);
            && Balanced(t) && [t.TotalTime() as int] == SpanOf()(h)
            && [AsLong(t.ClientTime())] == GapOf()(h)
            && [AsLong(t.serverUs)] == ServedOf()(h)
            && Longs(t.latencies) == RequestsOf()(h)
  {
    FinishedTimes(h, now);
    PlainLongs(Latencies(h.done));
  }

  predicate SameEntry(f: Txn -> seq<int>, g: History -> seq<int>, h: History) {
    h.done != [] && f(FinishedRecord(h)) == g(h)
  }

  lemma {:induction false} SameEntries(f: Txn -> seq<int>, g: History -> seq<int>, hs: seq<History>)
    requires forall i :: 0 <= i < |hs| ==> SameEntry(f, g, hs[i])
    ensures Complete(hs) && Collected(f, Records(hs)) == Collected(g, hs)
  {
    if hs != [] {
      var rest := hs[..|hs| - 1];
      SameEntries(f, g, rest);
      assert SameEntry(f, g, hs[|hs| - 1]);
      assert Records(hs)[..|hs| - 1] == Records(rest);
    }
  }

  lemma {:induction false} PlainLists(hs: seq<History>, now: U64)
    requires now < TWO63 && forall i :: 0 <= i < |hs| ==> FinishedShape(hs[i]) && InOrder(hs[i], now)
    ensures Complete(hs) && forall i :: 0 <= i < |hs| ==> Balanced(Records(hs)[i])
    ensures TotalTimes(Records(hs)) == Collected(SpanOf(), hs)
    ensures ClientTimes(Records(hs)) == Collected(GapOf(), hs)
    ensures ServerTimes(Records(hs)) == Collected(ServedOf(), hs)
    ensures QueryTimes(Records(hs)) == Collected(RequestsOf(), hs)
  {
    forall i | 0 <= i < |hs|
      ensures hs[i].done != [] && Balanced(FinishedRecord(hs[i]))
      ensures SameEntry(TotalOf(), SpanOf(), hs[i]) && SameEntry(ClientOf(), GapOf(), hs[i])
      ensures SameEntry(ServerOf(), ServedOf(), hs[i]) && SameEntry(QueriesOf(), RequestsOf(), hs[i])
    {
      PlainEntries(hs[i], now);
    }
    SameEntries(TotalOf(), SpanOf(), hs);
    SameEntries(ClientOf(), GapOf(), hs);
    SameEntries(ServerOf(), ServedOf(), hs);
    SameEntries(QueriesOf(), RequestsOf(), hs);
    ListsAreCollected(Records(hs));
  }

  /** On a capture whose clock never steps back, total time is the span of a transaction, client time its gaps, server
      time its latencies, and the sums agree through the sorts. */
  lemma {:induction false} ClockedReport(es: seq<Event>)
    requires DisciplinedRun(es) && Clocked(es) && Now(es) < TWO63
    ensures Complete(Read(es).finished) && PlainReport(Read(es).finished)
  {
    RunShaped(es);
    RunInOrder(es);
    PlainLists(Read(es).finished, Now(es));
    ReportConserves(Records(Read(es).finished));
  }

  /** The whole tool on any disciplined capture: what is printed is determined by the reference reading. */
  method ProcessAndPrint(messages: seq<Message>, filter: Filter, topN: int) returns (t: Tracker, out: Printout)
    requires DisciplinedRun(Classified(messages, filter))
    ensures Calculated(t, Read(Classified(messages, filter)).finished)
    ensures Printed(t, Read(Classified(messages, filter)), topN, out)
    ensures Clocked(Classified(messages, filter)) && Now(Classified(messages, filter)) < TWO63 ==>
              PlainReport(Read(Classified(messages, filter)).finished)
  {
    ghost var es := Classified(messages, filter);
    var r;
    t, r := ProcessCapture(messages, filter);
    CalculateFor(t, Read(es));
    RunShaped(es);
    out := PrintFor(t, Read(es), topN);
    if Clocked(es) && Now(es) < TWO63 {
      ClockedReport(es);
    }
  }
}
