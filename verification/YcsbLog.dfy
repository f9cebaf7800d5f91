/** The log of a multi-node Java YCSB run: the line-driven parser, with the list that each recorded
    total shares with it, and the block-by-block reading of the log. */
module YcsbLog {
  import opened Options
  import opened Ordering

  type Time = r: real | r >= 0.0

  /** What a header line says of a run; the workload is one letter. */
  datatype RunInfo = RunInfo(distribution: string, workload: char, instances: string, when: nat)

  datatype Line =
    | Header(info: RunInfo)
    | Host(name: string)
    | Ops(n: nat)
    | RunTime(n: nat)
    | Latency(us: nat)
    | Oks(n: nat)
    | Errors(n: nat)
    | NotFound(n: nat)
    | Done
    | Other

  /** The result of one instance. Its minimal and maximal times are both its run time. */
  datatype HostResult = HostResult(host: string, throughput: nat, latency: Time, oks: nat, errors: nat, notFound: nat,
                                   maxMs: nat, minMs: nat)

  function NewResult(host: string): HostResult { HostResult(host, 0, 0.0, 0, 0, 0, 0, 0) }

  // ---- aggregation ----

  /** What is summed, maximised and minimised over the instances of a run. */
  datatype Totals = Totals(throughput: nat, latency: Time, oks: nat, errors: nat, notFound: nat, maxMs: nat, minMs: nat)

  function Max(a: nat, b: nat): nat { if a >= b then a else b }

  function Min(a: nat, b: nat): nat { if a <= b then a else b }

  function MaxTime(a: Time, b: Time): Time { if a >= b then a else b }

  function One(r: HostResult): Totals {
    Totals(r.throughput, r.latency, r.oks, r.errors, r.notFound, r.maxMs, r.minMs)
  }

  function Join(a: Totals, b: Totals): Totals {
    Totals(a.throughput + b.throughput, MaxTime(a.latency, b.latency), a.oks + b.oks, a.errors + b.errors,
           a.notFound + b.notFound, Max(a.maxMs, b.maxMs), Min(a.minMs, b.minMs))
  }

  function Aggregate(rs: seq<HostResult>): Totals {
    if rs == [] then Totals(0, 0.0, 0, 0, 0, 0, 0)
    else if |rs| == 1 then One(rs[0])
    else Join(One(rs[0]), Aggregate(rs[1..]))
  }

  lemma {:induction false} AggregateAppend(xs: seq<HostResult>, ys: seq<HostResult>)
    requires xs != [] && ys != []
    ensures Aggregate(xs + ys) == Join(Aggregate(xs), Aggregate(ys))
  {
    assert (xs + ys)[1..] == xs[1..] + ys;
    if |xs| > 1 {
      AggregateAppend(xs[1..], ys);
    }
  }

  lemma {:induction false} AggregateExtract(before: seq<HostResult>, r: HostResult, after: seq<HostResult>)
    requires before + after != []
    ensures Aggregate(before + ([r] + after)) == Join(One(r), Aggregate(before + after))
  {
    if before == [] {
      assert before + ([r] + after) == [r] + after && before + after == after;
      AggregateAppend([r], after);
    } else if after == [] {
      assert [r] + after == [r] && before + after == before;
      AggregateAppend(before, [r]);
    } else {
      AggregateAppend(before, [r] + after);
      AggregateAppend([r], after);
      AggregateAppend(before, after);
    }
  }

  /** The aggregate does not depend on the order of the instances. */
  lemma {:induction false} AggregateOrder(xs: seq<HostResult>, ys: seq<HostResult>)
    requires multiset(xs) == multiset(ys)
    ensures Aggregate(xs) == Aggregate(ys)
  {
    if xs == [] {
      assert |multiset(ys)| == 0;
    } else {
      var before, after := FirstIn(xs, ys);
      AggregateOrder(xs[1..], before + after);
      if |xs| == 1 {
        assert before + after == [] && ys == [xs[0]];
      } else {
        AggregateExtract(before, xs[0], after);
      }
    }
  }

  // ---- what is aggregated ----

  function ThroughputOf(): HostResult -> nat { (r: HostResult) => r.throughput }
  function OkCountOf(): HostResult -> nat { (r: HostResult) => r.oks }
  function ErrorCountOf(): HostResult -> nat { (r: HostResult) => r.errors }
  function NotFoundCountOf(): HostResult -> nat { (r: HostResult) => r.notFound }

  function SumOf(pick: HostResult -> nat, rs: seq<HostResult>): nat {
    if rs == [] then 0 else pick(rs[0]) + SumOf(pick, rs[1..])
  }

  /** Throughput and the three counts are summed over the instances. */
  lemma {:induction false} AggregateSums(rs: seq<HostResult>)
    ensures var t := Aggregate(rs);
            && t.throughput == SumOf(ThroughputOf(), rs)
            && t.oks == SumOf(OkCountOf(), rs)
            && t.errors == SumOf(ErrorCountOf(), rs)
            && t.notFound == SumOf(NotFoundCountOf(), rs)
  {
    if rs != [] {
      AggregateSums(rs[1..]);
    }
  }

  /** Latency and longest time are the largest among the instances, shortest time the smallest. */
  lemma {:induction false} AggregateBounds(rs: seq<HostResult>)
    requires rs != []
    ensures var t := Aggregate(rs);
            && (forall r :: r in rs ==> r.latency <= t.latency && r.maxMs <= t.maxMs && t.minMs <= r.minMs)
            && (exists r :: r in rs && r.latency == t.latency)
            && (exists r :: r in rs && r.maxMs == t.maxMs)
            && (exists r :: r in rs && r.minMs == t.minMs)
  {
    if |rs| > 1 {
      AggregateBounds(rs[1..]);
      assert rs == [rs[0]] + rs[1..];
    }
    assert rs[0] in rs;
  }

  /** The aggregate of no instances has no time, so nothing is recorded; of others, if one has taken any. */
  lemma {:induction false} TimeIsZero(rs: seq<HostResult>)
    ensures Aggregate(rs).maxMs != 0 <==> exists r :: r in rs && r.maxMs != 0
  {
    if rs != [] {
      AggregateBounds(rs);
    }
  }

  method CalcAggregatedResult(results: seq<HostResult>) returns (total: Totals)
    ensures total == Aggregate(results)
  {
    total := Totals(0, 0.0, 0, 0, 0, 0, 0);
    if results != [] {
      total := total.(minMs := results[0].minMs);
    }
    var i := 0;
    while i < |results|
      invariant 0 <= i <= |results|
      invariant i == 0 ==> total == Totals(0, 0.0, 0, 0, 0, 0, if results == [] then 0 else results[0].minMs)
      invariant i > 0 ==> total == Aggregate(results[..i])
    {
      var r := results[i];
      if i > 0 {
        AggregateAppend(results[..i], [r]);
      }
      assert results[..i + 1] == results[..i] + [r];
      total := Totals(total.throughput + r.throughput, MaxTime(total.latency, r.latency), total.oks + r.oks,
                      total.errors + r.errors, total.notFound + r.notFound, Max(total.maxMs, r.maxMs),
                      Min(total.minMs, r.minMs));
      i := i + 1;
    }
    assert results[..i] == results;
  }

  // ---- the parser's state ----

  /** A recorded total; `list` is the number of the list that it shares with the parser. */
  datatype Recorded = Recorded(workload: string, distribution: string, when: nat, instances: string, totals: Totals,
                               list: nat)

  /** The parser between two lines: every list it has created, which one it is filling, and its variables. */
  datatype State = State(
    lists: seq<seq<HostResult>>,
    current: nat,
    workload: string,
    distribution: string,
    when: nat,
    instances: string,
    host: HostResult,
    results: map<nat, Recorded>)

  const Start: State := State([[]], 0, "", "", 0, "", NewResult(""), map[])

  function HostLe(): (HostResult, HostResult) -> bool { (a: HostResult, b: HostResult) => StringLe(a.host, b.host) }

  function AppendHost(s: State): State
    requires s.current < |s.lists|
  {
    if s.host.host != "" then s.(lists := s.lists[s.current := s.lists[s.current] + [s.host]]) else s
  }

  /** Sorts the shared list in place, and records the total unless its time is zero. */
  function AddWorkload(s: State): State
    requires s.current < |s.lists|
  {
    if s.workload == "" then s
    else
      var totals := Aggregate(s.lists[s.current]);
      var sorted := s.(lists := s.lists[s.current := Sort(HostLe(), s.lists[s.current])]);
      if totals.maxMs == 0 then sorted
      else
        var record := Recorded(s.workload, s.distribution, s.when, s.instances, totals, s.current);
        sorted.(results := s.results[s.when := record])
  }

  /** A line about the current instance. */
  predicate IsBody(line: Line) { !line.Header? && !line.Host? && !line.Done? }

  function Measure(h: HostResult, line: Line): HostResult {
    match line
    case Ops(n) => h.(throughput := n)
    case RunTime(n) => h.(maxMs := n, minMs := n)
    case Latency(us) => h.(latency := MaxTime(h.latency, us as real / 1000.0))
    case Oks(n) => h.(oks := n)
    case Errors(n) => h.(errors := n)
    case NotFound(n) => h.(notFound := n)
    case _ => h
  }

  function Step(s: State, line: Line): (r: State)
    requires s.current < |s.lists|
    ensures r.current < |r.lists|
  {
    match line
    case Header(info) =>
      State(s.lists + [[]], |s.lists|, [info.workload], info.distribution, info.when, info.instances, NewResult(""),
            s.results)
    case Host(name) => AppendHost(s).(host := NewResult(name))
    case Done => AddWorkload(AppendHost(s)).(host := NewResult(""), workload := "")
    case _ => s.(host := Measure(s.host, line))
  }

  function StepAll(s: State, lines: seq<Line>): (r: State)
    requires s.current < |s.lists|
    ensures r.current < |r.lists|
  {
    if lines == [] then s else Step(StepAll(s, lines[..|lines| - 1]), lines[|lines| - 1])
  }

  /** At the end of the file the last instance and workload are added once more. */
  function Finish(s: State): State
    requires s.current < |s.lists|
  {
    AddWorkload(AppendHost(s))
  }

  /** What a parse leaves behind: the recorded totals with the lists they share. */
  datatype Parsed = Parsed(results: map<nat, Recorded>, lists: seq<seq<HostResult>>)

  function Parse(lines: seq<Line>): Parsed {
    var s := Finish(StepAll(Start, lines));
    Parsed(s.results, s.lists)
  }

  /** A final `done` line changes nothing, on any log. */
  lemma {:induction false} FinalDoneChangesNothing(lines: seq<Line>)
    ensures Parse(lines + [Done]) == Parse(lines)
  {
    assert (lines + [Done])[..|lines|] == lines;
  }

  // ---- the block-by-block reading ----

  /** A header and the lines up to the next one. */
  datatype Block = Block(info: RunInfo, lines: seq<Line>)

  predicate NoHeader(lines: seq<Line>) { forall i :: 0 <= i < |lines| ==> !lines[i].Header? }

  predicate AllBody(lines: seq<Line>) { forall i :: 0 <= i < |lines| ==> IsBody(lines[i]) }

  /** Nothing is asked of the lines between two headers. */
  ghost predicate Headless(noise: seq<Line>, blocks: seq<Block>) {
    NoHeader(noise) && forall i :: 0 <= i < |blocks| ==> NoHeader(blocks[i].lines)
  }

  function BlockLines(b: Block): seq<Line> { [Header(b.info)] + b.lines }

  function LogLines(noise: seq<Line>, blocks: seq<Block>): seq<Line> {
    if blocks == [] then noise else LogLines(noise, blocks[..|blocks| - 1]) + BlockLines(blocks[|blocks| - 1])
  }

  /** Every log is some lines and then blocks. */
  lemma {:induction false} EveryLogIsBlocks(lines: seq<Line>) returns (noise: seq<Line>, blocks: seq<Block>)
    ensures Headless(noise, blocks) && LogLines(noise, blocks) == lines
  {
    if lines == [] {
      noise, blocks := [], [];
    } else {
      var init, line := lines[..|lines| - 1], lines[|lines| - 1];
      noise, blocks := EveryLogIsBlocks(init);
      assert lines == init + [line];
      if line.Header? {
        LogOneMore(noise, blocks, Block(line.info, []));
        assert BlockLines(Block(line.info, [])) == [line];
        blocks := blocks + [Block(line.info, [])];
      } else if blocks == [] {
        noise := noise + [line];
      } else {
        var rest, b := blocks[..|blocks| - 1], blocks[|blocks| - 1];
        var longer := b.(lines := b.lines + [line]);
        LogOneMore(noise, rest, longer);
        assert BlockLines(longer) == BlockLines(b) + [line];
        Associative(LogLines(noise, rest), BlockLines(b), [line]);
        blocks := rest + [longer];
      }
    }
  }

  lemma {:induction false} LogOneMore(noise: seq<Line>, blocks: seq<Block>, b: Block)
    ensures LogLines(noise, blocks + [b]) == LogLines(noise, blocks) + BlockLines(b)
  {
    assert (blocks + [b])[..|blocks|] == blocks;
  }

  /** The last value given, or zero. */
  function Last(body: seq<Line>, pick: Line -> Option<nat>): nat {
    if body == [] then 0
    else match pick(body[|body| - 1])
      case Some(n) => n
      case None => Last(body[..|body| - 1], pick)
  }

  function MaxLatency(body: seq<Line>): Time {
    if body == [] then 0.0
    else
      var rest := MaxLatency(body[..|body| - 1]);
      var last := body[|body| - 1];
      if last.Latency? then MaxTime(rest, last.us as real / 1000.0) else rest
  }

  function OpsOf(): Line -> Option<nat> { (l: Line) => if l.Ops? then Some(l.n) else None }
  function RunTimeOf(): Line -> Option<nat> { (l: Line) => if l.RunTime? then Some(l.n) else None }
  function OksOf(): Line -> Option<nat> { (l: Line) => if l.Oks? then Some(l.n) else None }
  function ErrorsOf(): Line -> Option<nat> { (l: Line) => if l.Errors? then Some(l.n) else None }
  function NotFoundOf(): Line -> Option<nat> { (l: Line) => if l.NotFound? then Some(l.n) else None }

  function SectionResult(name: string, body: seq<Line>): HostResult {
    HostResult(name, Last(body, OpsOf()), MaxLatency(body), Last(body, OksOf()), Last(body, ErrorsOf()),
               Last(body, NotFoundOf()), Last(body, RunTimeOf()), Last(body, RunTimeOf()))
  }

  /** What each line says of an instance: the last count of each kind holds, the run time is both the longest and the
      shortest, and a latency in microseconds counts in milliseconds, if it is the largest. */
  lemma {:induction false} LineSays(name: string, body: seq<Line>, line: Line)
    ensures var before, after := SectionResult(name, body), SectionResult(name, body + [line]);
            match line
            case Ops(n) => after == before.(throughput := n)
            case RunTime(n) => after == before.(maxMs := n, minMs := n)
            case Latency(us) =>
              after == before.(latency := if before.latency * 1000.0 >= us as real then before.latency
                                          else us as real / 1000.0)
            case Oks(n) => after == before.(oks := n)
            case Errors(n) => after == before.(errors := n)
            case NotFound(n) => after == before.(notFound := n)
            case _ => after == before
    ensures SectionResult(name, []) == HostResult(name, 0, 0.0, 0, 0, 0, 0, 0)
  {
    assert (body + [line])[..|body|] == body;
  }

  /** How many lines at the front are about the instance in hand. */
  function BodyLength(lines: seq<Line>): (n: nat)
    ensures n <= |lines| && AllBody(lines[..n])
    ensures n < |lines| ==> !IsBody(lines[n])
  {
    if lines == [] || !IsBody(lines[0]) then 0 else 1 + BodyLength(lines[1..])
  }

  /** The instances among lines without header, the first of which are about instance `name`: each named one that is
      ended by another host line or a `done`, and `atEnd` also the last. */
  function Instances(name: string, lines: seq<Line>, atEnd: bool): seq<HostResult>
    decreases |lines|
  {
    var n := BodyLength(lines);
    var own := if name != "" && (n < |lines| || atEnd) then [SectionResult(name, lines[..n])] else [];
    if n == |lines| then own
    else own + Instances(if lines[n].Host? then lines[n].name else "", lines[n + 1..], atEnd)
  }

  /** Where the first `done` is, or the end. */
  function DoneAt(lines: seq<Line>): (n: nat)
    ensures n <= |lines| && (n < |lines| ==> lines[n].Done?)
    ensures forall i :: 0 <= i < n ==> !lines[i].Done?
  {
    if lines == [] || lines[0].Done? then 0 else 1 + DoneAt(lines[1..])
  }

  predicate IsDone(b: Block) { DoneAt(b.lines) < |b.lines| }

  /** The instances that a block reports: those before its first `done`. */
  function Hosts(b: Block): seq<HostResult> { Instances("", b.lines[..DoneAt(b.lines)], true) }

  /** What follows the first `done` of a block. */
  function Tail(b: Block): seq<Line> { if IsDone(b) then b.lines[DoneAt(b.lines) + 1..] else [] }

  datatype Total = Total(workload: string, distribution: string, when: nat, instances: string, totals: Totals,
                         perHost: seq<HostResult>)

  /** The total of a block, with its list: the instances in host order, and then those of its tail. */
  function BlockTotal(b: Block, atEnd: bool): Total {
    Total([b.info.workload], b.info.distribution, b.info.when, b.info.instances, Aggregate(Hosts(b)),
          Sort(HostLe(), Hosts(b)) + Instances("", Tail(b), atEnd))
  }

  /** A block is recorded when its time is not zero and it is done, or ends the log. */
  predicate IsRecorded(b: Block, atEnd: bool) { Aggregate(Hosts(b)).maxMs != 0 && (IsDone(b) || atEnd) }

  function With(m: map<nat, Total>, b: Block, atEnd: bool): map<nat, Total> {
    if IsRecorded(b, atEnd) then m[b.info.when := BlockTotal(b, atEnd)] else m
  }

  /** The totals of blocks with more of the log to come; a later block replaces an earlier one of the same time. */
  function ReadingSoFar(blocks: seq<Block>): map<nat, Total> {
    if blocks == [] then map[] else With(ReadingSoFar(blocks[..|blocks| - 1]), blocks[|blocks| - 1], false)
  }

  /** The totals of a whole log. */
  function Reading(blocks: seq<Block>): map<nat, Total> {
    if blocks == [] then map[] else With(ReadingSoFar(blocks[..|blocks| - 1]), blocks[|blocks| - 1], true)
  }

  ghost predicate Closed(results: map<nat, Recorded>, lists: seq<seq<HostResult>>) {
    forall k :: k in results ==> results[k].list < |lists|
  }

  /** The recorded totals, each with the list it shares as it is now. */
  function View(results: map<nat, Recorded>, lists: seq<seq<HostResult>>): map<nat, Total>
    requires Closed(results, lists)
  {
    map k | k in results ::
      Total(results[k].workload, results[k].distribution, results[k].when, results[k].instances, results[k].totals,
            lists[results[k].list])
  }

  // ---- the parser follows the blocks ----

  lemma {:induction false} StepAllAppend(s: State, a: seq<Line>, b: seq<Line>)
    requires s.current < |s.lists|
    ensures StepAll(s, a + b) == StepAll(StepAll(s, a), b)
  {
    if b == [] {
      assert a + b == a;
    } else {
      assert (a + b)[..|a + b| - 1] == a + b[..|b| - 1];
      StepAllAppend(s, a, b[..|b| - 1]);
    }
  }

  lemma {:induction false} OneStep(s: State, line: Line)
    requires s.current < |s.lists|
    ensures StepAll(s, [line]) == Step(s, line)
  {
    assert [line][..0] == [];
  }

  lemma {:induction false} BodyMeasures(s: State, body: seq<Line>)
    requires s.current < |s.lists| && AllBody(body)
    ensures StepAll(s, body) == s.(host := StepAll(s, body).host)
    ensures StepAll(s, body).host.host == s.host.host
    ensures s.host == NewResult(s.host.host) ==> StepAll(s, body).host == SectionResult(s.host.host, body)
  {
    if body != [] {
      BodyMeasures(s, body[..|body| - 1]);
    }
  }

  /** The state whose current list has grown. */
  function Grown(s: State, more: seq<HostResult>): State
    requires s.current < |s.lists|
  {
    s.(lists := s.lists[s.current := s.lists[s.current] + more])
  }

  lemma {:induction false} GrownTwice(s: State, a: seq<HostResult>, b: seq<HostResult>)
    requires s.current < |s.lists|
    ensures Grown(Grown(s, a), b) == Grown(s, a + b)
  {
    Associative(s.lists[s.current], a, b);
    Overwritten(s.lists, s.current, s.lists[s.current] + a, s.lists[s.current] + a + b);
  }

  lemma {:induction false} GrownByNothing(s: State)
    requires s.current < |s.lists|
    ensures Grown(s, []) == s
  {
    assert s.lists[s.current] + [] == s.lists[s.current];
  }

  /** Lines about one instance, from its host line on. */
  lemma {:induction false} BodyRuns(s: State, body: seq<Line>)
    requires s.current < |s.lists| && AllBody(body) && s.host == NewResult(s.host.host)
    ensures var t := StepAll(s, body);
            && t == s.(host := SectionResult(s.host.host, body))
            && AppendHost(t) == if s.host.host != "" then Grown(t, [t.host]) else t
  {
    BodyMeasures(s, body);
  }

  /** A host line, or a `done` where no workload is open, ends the instance in hand. */
  lemma {:induction false} LineEnds(s: State, body: seq<Line>, line: Line)
    requires s.current < |s.lists| && AllBody(body) && s.host == NewResult(s.host.host)
    requires line.Host? || (line.Done? && s.workload == "")
    ensures Step(StepAll(s, body), line)
         == Grown(s, if s.host.host != "" then [SectionResult(s.host.host, body)] else [])
            .(host := NewResult(if line.Host? then line.name else ""))
  {
    BodyRuns(s, body);
    GrownByNothing(s);
  }

  lemma {:induction false} CutRun(s: State, lines: seq<Line>, n: nat)
    requires s.current < |s.lists| && n < |lines|
    ensures StepAll(s, lines) == StepAll(Step(StepAll(s, lines[..n]), lines[n]), lines[n + 1..])
  {
    assert lines == lines[..n] + ([lines[n]] + lines[n + 1..]);
    StepAllAppend(s, lines[..n], [lines[n]] + lines[n + 1..]);
    StepAllAppend(StepAll(s, lines[..n]), [lines[n]], lines[n + 1..]);
    OneStep(StepAll(s, lines[..n]), lines[n]);
  }

  /** The state has come to `t`, with the instances of the lines added to its current list. */
  ghost predicate InstancesAdded(s: State, lines: seq<Line>, t: State)
    requires s.current < |s.lists|
  {
    && t.current < |t.lists|
    && t == Grown(s, Instances(s.host.host, lines, false)).(host := t.host)
    && AppendHost(t) == Grown(s, Instances(s.host.host, lines, true)).(host := t.host)
  }

  lemma {:induction false} AddedLater(s: State, lines: seq<Line>, s1: State, t: State)
    requires s.current < |s.lists| && BodyLength(lines) < |lines|
    requires var n := BodyLength(lines);
             && s1 == Grown(s, if s.host.host != "" then [SectionResult(s.host.host, lines[..n])] else [])
                       .(host := NewResult(if lines[n].Host? then lines[n].name else ""))
             && InstancesAdded(s1, lines[n + 1..], t)
    ensures InstancesAdded(s, lines, t)
  {
    var n := BodyLength(lines);
    var own := if s.host.host != "" then [SectionResult(s.host.host, lines[..n])] else [];
    GrownTwice(s, own, Instances(s1.host.host, lines[n + 1..], false));
    GrownTwice(s, own, Instances(s1.host.host, lines[n + 1..], true));
  }

  /** No line is a header, nor ends an open workload. */
  predicate Inner(workload: string, lines: seq<Line>) {
    forall i :: 0 <= i < |lines| ==> !lines[i].Header? && (lines[i].Done? ==> workload == "")
  }

  lemma {:induction false} InnerRest(workload: string, lines: seq<Line>, n: nat)
    requires Inner(workload, lines) && n < |lines| && !IsBody(lines[n])
    ensures lines[n].Host? || (lines[n].Done? && workload == "")
    ensures Inner(workload, lines[n + 1..])
  {
  }

  /** Lines about one instance add it if the log ends there. */
  lemma {:induction false} OnlyBodyRuns(s: State, lines: seq<Line>)
    requires s.current < |s.lists| && s.host == NewResult(s.host.host) && BodyLength(lines) == |lines|
    ensures InstancesAdded(s, lines, StepAll(s, lines))
  {
    assert lines[..|lines|] == lines;
    BodyRuns(s, lines);
    GrownByNothing(s);
  }

  /** The state after the first line that ends an instance. */
  function AfterFirst(s: State, lines: seq<Line>): State
    requires s.current < |s.lists| && BodyLength(lines) < |lines|
  {
    var n := BodyLength(lines);
    Grown(s, if s.host.host != "" then [SectionResult(s.host.host, lines[..n])] else [])
      .(host := NewResult(if lines[n].Host? then lines[n].name else ""))
  }

  lemma {:induction false} FirstRuns(s: State, lines: seq<Line>)
    requires s.current < |s.lists| && s.host == NewResult(s.host.host) && Inner(s.workload, lines)
    requires BodyLength(lines) < |lines|
    ensures StepAll(s, lines) == StepAll(AfterFirst(s, lines), lines[BodyLength(lines) + 1..])
    ensures Inner(s.workload, lines[BodyLength(lines) + 1..])
  {
    var n := BodyLength(lines);
    InnerRest(s.workload, lines, n);
    LineEnds(s, lines[..n], lines[n]);
    CutRun(s, lines, n);
  }

  /** Lines without header add their instances to the current list and, where no workload is open, do nothing else. */
  lemma {:induction false} InstancesRun(s: State, lines: seq<Line>)
    requires s.current < |s.lists| && s.host == NewResult(s.host.host) && Inner(s.workload, lines)
    ensures InstancesAdded(s, lines, StepAll(s, lines))
    decreases |lines|
  {
    if BodyLength(lines) == |lines| {
      OnlyBodyRuns(s, lines);
    } else {
      var s1, rest := AfterFirst(s, lines), lines[BodyLength(lines) + 1..];
      FirstRuns(s, lines);
      InstancesRun(s1, rest);
      AddedLater(s, lines, s1, StepAll(s, lines));
    }
  }

  function BlockRecord(b: Block, list: nat): Recorded {
    Recorded([b.info.workload], b.info.distribution, b.info.when, b.info.instances, Aggregate(Hosts(b)), list)
  }

  /** A state inside block `b`, which fills a list of its own. */
  function InBlock(s: State, b: Block, workload: string, host: HostResult, hosts: seq<HostResult>, recorded: bool)
    : State
  {
    State(s.lists + [hosts], |s.lists|, workload, b.info.distribution, b.info.when, b.info.instances, host,
          if recorded then s.results[b.info.when := BlockRecord(b, |s.lists|)] else s.results)
  }

  lemma {:induction false} InBlockGrown(s: State, b: Block, workload: string, host: HostResult, hosts: seq<HostResult>,
                                        recorded: bool, more: seq<HostResult>)
    ensures Grown(InBlock(s, b, workload, host, hosts, recorded), more)
         == InBlock(s, b, workload, host, hosts + more, recorded)
  {
    LastUpdated(s.lists, hosts, hosts + more);
  }

  /** A block before its first `done`. */
  lemma {:induction false} OpenRuns(s: State, b: Block, open: seq<Line>)
    requires s.current < |s.lists| && NoHeader(open) && forall i :: 0 <= i < |open| ==> !open[i].Done?
    ensures var t := StepAll(s, [Header(b.info)] + open);
            && t == InBlock(s, b, [b.info.workload], t.host, Instances("", open, false), false)
            && AppendHost(t) == InBlock(s, b, [b.info.workload], t.host, Instances("", open, true), false)
  {
    var begun := InBlock(s, b, [b.info.workload], NewResult(""), [], false);
    StepAllAppend(s, [Header(b.info)], open);
    OneStep(s, Header(b.info));
    assert Step(s, Header(b.info)) == begun;
    InstancesRun(begun, open);
    InBlockGrown(s, b, [b.info.workload], NewResult(""), [], false, Instances("", open, false));
    InBlockGrown(s, b, [b.info.workload], NewResult(""), [], false, Instances("", open, true));
    EmptyPrefix(Instances("", open, false));
    EmptyPrefix(Instances("", open, true));
  }

  /** Recording a block sorts its list. */
  lemma {:induction false} BlockAdded(s: State, b: Block, host: HostResult)
    ensures AddWorkload(InBlock(s, b, [b.info.workload], host, Hosts(b), false))
         == InBlock(s, b, [b.info.workload], host, Sort(HostLe(), Hosts(b)), Aggregate(Hosts(b)).maxMs != 0)
  {
    LastUpdated(s.lists, Hosts(b), Sort(HostLe(), Hosts(b)));
  }

  /** A block and its first `done`. */
  lemma {:induction false} DoneRuns(s: State, b: Block)
    requires s.current < |s.lists| && NoHeader(b.lines) && IsDone(b)
    ensures StepAll(s, [Header(b.info)] + b.lines[..DoneAt(b.lines)] + [Done])
         == InBlock(s, b, "", NewResult(""), Sort(HostLe(), Hosts(b)), Aggregate(Hosts(b)).maxMs != 0)
  {
    var open := b.lines[..DoneAt(b.lines)];
    OpenRuns(s, b, open);
    var t := StepAll(s, [Header(b.info)] + open);
    StepAllAppend(s, [Header(b.info)] + open, [Done]);
    OneStep(t, Done);
    BlockAdded(s, b, t.host);
  }

  /** What a block leaves: its list in the state, and both list and total if the log ends. */
  ghost predicate BlockLeft(s: State, b: Block, t: State) {
    && t.current == |s.lists| < |t.lists|
    && t == InBlock(s, b, t.workload, t.host, t.lists[t.current], IsRecorded(b, false))
    && (IsRecorded(b, false) ==> t.lists[t.current] == BlockTotal(b, false).perHost)
    && Finish(t) == InBlock(s, b, t.workload, t.host, BlockTotal(b, true).perHost, IsRecorded(b, true))
  }

  /** Lines after the `done` of a block. */
  lemma {:induction false} TailRuns(s: State, b: Block, sorted: seq<HostResult>, recorded: bool, tail: seq<Line>)
    requires NoHeader(tail)
    ensures var t := StepAll(InBlock(s, b, "", NewResult(""), sorted, recorded), tail);
            && t == InBlock(s, b, "", t.host, sorted + Instances("", tail, false), recorded)
            && AppendHost(t) == InBlock(s, b, "", t.host, sorted + Instances("", tail, true), recorded)
  {
    InstancesRun(InBlock(s, b, "", NewResult(""), sorted, recorded), tail);
    InBlockGrown(s, b, "", NewResult(""), sorted, recorded, Instances("", tail, false));
    InBlockGrown(s, b, "", NewResult(""), sorted, recorded, Instances("", tail, true));
  }

  lemma {:induction false} DoneBlockRuns(s: State, b: Block)
    requires s.current < |s.lists| && NoHeader(b.lines) && IsDone(b)
    ensures BlockLeft(s, b, StepAll(s, BlockLines(b)))
  {
    var front := [Header(b.info)] + b.lines[..DoneAt(b.lines)] + [Done];
    DoneRuns(s, b);
    CutAtDone(b);
    StepAllAppend(s, front, Tail(b));
    TailRuns(s, b, Sort(HostLe(), Hosts(b)), IsRecorded(b, false), Tail(b));
    assert StepAll(s, BlockLines(b)).workload == "";
  }

  lemma {:induction false} CutAtDone(b: Block)
    requires IsDone(b)
    ensures BlockLines(b) == [Header(b.info)] + b.lines[..DoneAt(b.lines)] + [Done] + Tail(b)
    ensures NoHeader(b.lines) ==> NoHeader(Tail(b))
  {
    var n := DoneAt(b.lines);
    CutAt(b.lines, n);
    Associative([Header(b.info)], b.lines[..n], [Done] + Tail(b));
    Associative([Header(b.info)] + b.lines[..n], [Done], Tail(b));
  }

  lemma {:induction false} CutAt(lines: seq<Line>, n: nat)
    requires n < |lines|
    ensures lines == lines[..n] + ([lines[n]] + lines[n + 1..])
  {
  }

  lemma {:induction false} OpenBlockRuns(s: State, b: Block)
    requires s.current < |s.lists| && NoHeader(b.lines) && !IsDone(b)
    ensures BlockLeft(s, b, StepAll(s, BlockLines(b)))
  {
    assert b.lines[..DoneAt(b.lines)] == b.lines;
    OpenRuns(s, b, b.lines);
    var t := StepAll(s, BlockLines(b));
    BlockAdded(s, b, t.host);
    assert Sort(HostLe(), Hosts(b)) + [] == Sort(HostLe(), Hosts(b));
  }

  lemma {:induction false} BlockRuns(s: State, b: Block)
    requires s.current < |s.lists| && NoHeader(b.lines)
    ensures BlockLeft(s, b, StepAll(s, BlockLines(b)))
  {
    if IsDone(b) {
      DoneBlockRuns(s, b);
    } else {
      OpenBlockRuns(s, b);
    }
  }

  /** A block's own list is new, so no total recorded before shares it. */
  lemma {:induction false} ViewGrows(results: map<nat, Recorded>, lists: seq<seq<HostResult>>, hosts: seq<HostResult>,
                                     r: Recorded)
    requires Closed(results, lists) && r.list == |lists|
    ensures Closed(results, lists + [hosts])
    ensures View(results, lists + [hosts]) == View(results, lists)
    ensures Closed(results[r.when := r], lists + [hosts])
    ensures View(results[r.when := r], lists + [hosts])
         == View(results, lists)[r.when := Total(r.workload, r.distribution, r.when, r.instances, r.totals, hosts)]
  {
  }

  /** One more block changes no total recorded before under another time, and adds its own. */
  lemma {:induction false} BlockRecorded(s: State, b: Block)
    requires s.current < |s.lists| && NoHeader(b.lines) && Closed(s.results, s.lists)
    ensures var t := StepAll(s, BlockLines(b));
            && Closed(t.results, t.lists)
            && View(t.results, t.lists) == With(View(s.results, s.lists), b, false)
            && Closed(Finish(t).results, Finish(t).lists)
            && View(Finish(t).results, Finish(t).lists) == With(View(s.results, s.lists), b, true)
  {
    BlockRuns(s, b);
    var t := StepAll(s, BlockLines(b));
    ViewGrows(s.results, s.lists, t.lists[t.current], BlockRecord(b, |s.lists|));
    ViewGrows(s.results, s.lists, BlockTotal(b, true).perHost, BlockRecord(b, |s.lists|));
  }

  /** Before the first header nothing is recorded. */
  lemma {:induction false} NoiseRuns(noise: seq<Line>)
    requires NoHeader(noise)
    ensures StepAll(Start, noise).results == map[] && Finish(StepAll(Start, noise)).results == map[]
  {
    InstancesRun(Start, noise);
  }

  lemma {:induction false} LogRecorded(noise: seq<Line>, blocks: seq<Block>)
    requires Headless(noise, blocks)
    ensures var s := StepAll(Start, LogLines(noise, blocks));
            Closed(s.results, s.lists) && View(s.results, s.lists) == ReadingSoFar(blocks)
  {
    if blocks == [] {
      NoiseRuns(noise);
    } else {
      var rest, last := blocks[..|blocks| - 1], blocks[|blocks| - 1];
      LogRecorded(noise, rest);
      StepAllAppend(Start, LogLines(noise, rest), BlockLines(last));
      BlockRecorded(StepAll(Start, LogLines(noise, rest)), last);
    }
  }

  /** The streaming parser equals the block-by-block reading, on every log. */
  lemma {:induction false} ParseIsReading(noise: seq<Line>, blocks: seq<Block>)
    requires Headless(noise, blocks)
    ensures var p := Parse(LogLines(noise, blocks));
            Closed(p.results, p.lists) && View(p.results, p.lists) == Reading(blocks)
  {
    if blocks == [] {
      NoiseRuns(noise);
    } else {
      var rest, last := blocks[..|blocks| - 1], blocks[|blocks| - 1];
      LogRecorded(noise, rest);
      StepAllAppend(Start, LogLines(noise, rest), BlockLines(last));
      BlockRecorded(StepAll(Start, LogLines(noise, rest)), last);
    }
  }

  /** A log that ends before the `done` of its last block is read as if that were there. */
  lemma {:induction false} TruncatedParse(noise: seq<Line>, blocks: seq<Block>, last: Block)
    requires Headless(noise, blocks) && NoHeader(last.lines)
    ensures var p := Parse(LogLines(noise, blocks + [last]));
            && Closed(p.results, p.lists)
            && View(p.results, p.lists) == Reading(blocks + [last.(lines := last.lines + [Done])])
  {
    var closed := last.(lines := last.lines + [Done]);
    LogOneMore(noise, blocks, last);
    LogOneMore(noise, blocks, closed);
    assert LogLines(noise, blocks) + BlockLines(last) + [Done] == LogLines(noise, blocks) + BlockLines(closed);
    FinalDoneChangesNothing(LogLines(noise, blocks + [last]));
    ParseIsReading(noise, blocks + [closed]);
  }

  // ---- what the reading says ----

  /** A recorded block has its own total. */
  ghost predicate OwnTotal(b: Block, atEnd: bool, m: map<nat, Total>) {
    IsRecorded(b, atEnd) ==> b.info.when in m && m[b.info.when] == BlockTotal(b, atEnd)
  }

  ghost predicate DistinctTimes(blocks: seq<Block>) {
    forall i, j :: 0 <= i < j < |blocks| ==> blocks[i].info.when != blocks[j].info.when
  }

  ghost predicate FromBlock(blocks: seq<Block>, atEnd: bool, k: nat) {
    exists i :: 0 <= i < |blocks| && blocks[i].info.when == k && IsRecorded(blocks[i], atEnd && i == |blocks| - 1)
  }

  lemma {:induction false} FromOneMore(blocks: seq<Block>, last: Block, atEnd: bool, k: nat)
    requires FromBlock(blocks, false, k) || (k == last.info.when && IsRecorded(last, atEnd))
    ensures FromBlock(blocks + [last], atEnd, k)
  {
    var all := blocks + [last];
    if FromBlock(blocks, false, k) {
      var i :| 0 <= i < |blocks| && blocks[i].info.when == k && IsRecorded(blocks[i], false);
      assert all[i] == blocks[i];
    } else {
      assert all[|blocks|] == last;
    }
  }

  lemma {:induction false} OneTotalSoFar(blocks: seq<Block>)
    requires DistinctTimes(blocks)
    ensures forall i :: 0 <= i < |blocks| ==> OwnTotal(blocks[i], false, ReadingSoFar(blocks))
    ensures forall k :: k in ReadingSoFar(blocks) ==> FromBlock(blocks, false, k)
  {
    if blocks != [] {
      var rest, last := blocks[..|blocks| - 1], blocks[|blocks| - 1];
      assert blocks == rest + [last];
      OneTotalSoFar(rest);
      forall i | 0 <= i < |blocks| ensures OwnTotal(blocks[i], false, ReadingSoFar(blocks)) {
        assert i < |rest| ==> OwnTotal(rest[i], false, ReadingSoFar(rest));
      }
      forall k | k in ReadingSoFar(blocks) ensures FromBlock(blocks, false, k) {
        FromOneMore(rest, last, false, k);
      }
    }
  }

  /** With distinct start times every recorded block has exactly its own total, and there are no others. */
  lemma {:induction false} OneTotalPerBlock(blocks: seq<Block>)
    requires DistinctTimes(blocks)
    ensures forall i :: 0 <= i < |blocks| ==> OwnTotal(blocks[i], i == |blocks| - 1, Reading(blocks))
    ensures forall k :: k in Reading(blocks) ==> FromBlock(blocks, true, k)
  {
    if blocks != [] {
      var rest, last := blocks[..|blocks| - 1], blocks[|blocks| - 1];
      assert blocks == rest + [last];
      OneTotalSoFar(rest);
      forall i | 0 <= i < |blocks| ensures OwnTotal(blocks[i], i == |blocks| - 1, Reading(blocks)) {
        assert i < |rest| ==> OwnTotal(rest[i], false, ReadingSoFar(rest));
      }
      forall k | k in Reading(blocks) ensures FromBlock(blocks, true, k) {
        FromOneMore(rest, last, true, k);
      }
    }
  }

  predicate Ends(line: Line) { line.Host? || line.Done? }

  ghost predicate SomeEnds(lines: seq<Line>) { exists j :: 0 <= j < |lines| && Ends(lines[j]) }

  /** Line i names an instance that a later host line, a `done` or the end of the log ends. */
  ghost predicate IsEnded(lines: seq<Line>, i: nat, atEnd: bool) {
    i < |lines| && lines[i].Host? && lines[i].name != "" && (atEnd || SomeEnds(lines[i + 1..]))
  }

  lemma {:induction false} BodyLengthIs(lines: seq<Line>)
    requires NoHeader(lines)
    ensures BodyLength(lines) < |lines| <==> SomeEnds(lines)
    ensures forall i :: 0 <= i < BodyLength(lines) ==> IsBody(lines[i])
  {
    var n := BodyLength(lines);
    forall i | 0 <= i < n ensures IsBody(lines[i]) {
      assert lines[..n][i] == lines[i];
    }
    if n < |lines| {
      assert Ends(lines[n]);
    }
  }

  ghost predicate NoneEnded(lines: seq<Line>, atEnd: bool) { forall i: nat :: !IsEnded(lines, i, atEnd) }

  lemma {:induction false} EndedLater(lines: seq<Line>, n: nat, i: nat, atEnd: bool)
    requires n < i < |lines|
    ensures IsEnded(lines, i, atEnd) <==> IsEnded(lines[n + 1..], i - n - 1, atEnd)
  {
    assert lines[n + 1..][i - n - 1 + 1..] == lines[i + 1..];
  }

  lemma {:induction false} NoneEndedLater(lines: seq<Line>, n: nat, atEnd: bool)
    requires n < |lines| && forall i :: 0 <= i < n ==> IsBody(lines[i])
    ensures NoneEnded(lines, atEnd) <==> !IsEnded(lines, n, atEnd) && NoneEnded(lines[n + 1..], atEnd)
  {
    if NoneEnded(lines, atEnd) {
      var rest := lines[n + 1..];
      forall i: nat ensures !IsEnded(rest, i, atEnd) {
        if i < |rest| {
          EndedLater(lines, n, n + 1 + i, atEnd);
        }
      }
    } else {
      var i: nat :| IsEnded(lines, i, atEnd);
      if i > n {
        EndedLater(lines, n, i, atEnd);
      }
    }
  }

  /** The instance in hand is ended. */
  ghost predicate OwnEnded(name: string, lines: seq<Line>, atEnd: bool) { name != "" && (atEnd || SomeEnds(lines)) }

  lemma {:induction false} NextEnded(lines: seq<Line>, n: nat, atEnd: bool)
    requires n < |lines| && forall i :: 0 <= i < n ==> IsBody(lines[i])
    ensures NoneEnded(lines, atEnd)
       <==> var rest := lines[n + 1..];
            !OwnEnded(if lines[n].Host? then lines[n].name else "", rest, atEnd) && NoneEnded(rest, atEnd)
  {
    NoneEndedLater(lines, n, atEnd);
  }

  /** Lines add no instance exactly when none of theirs is ended, nor the one in hand. */
  lemma {:induction false} NoInstances(name: string, lines: seq<Line>, atEnd: bool)
    requires NoHeader(lines)
    ensures Instances(name, lines, atEnd) == [] <==> !OwnEnded(name, lines, atEnd) && NoneEnded(lines, atEnd)
    decreases |lines|
  {
    var n := BodyLength(lines);
    BodyLengthIs(lines);
    if n < |lines| {
      NextEnded(lines, n, atEnd);
      NoInstances(if lines[n].Host? then lines[n].name else "", lines[n + 1..], atEnd);
    }
  }

  /** The total is that of the block's instances, in any order. Its list holds them in host order and nothing else
      exactly when no instance of the tail is ended; otherwise the ended ones follow. */
  lemma {:induction false} TotalMatchesList(b: Block, atEnd: bool)
    requires NoHeader(b.lines)
    ensures var t := BlockTotal(b, atEnd);
            && (multiset(t.perHost) == multiset(Hosts(b)) <==> NoneEnded(Tail(b), atEnd))
            && (NoneEnded(Tail(b), atEnd) ==> SortedBy(HostLe(), t.perHost) && t.totals == Aggregate(t.perHost))
  {
    var hosts, more := Hosts(b), Instances("", Tail(b), atEnd);
    var sorted := Sort(HostLe(), hosts);
    NoInstances("", Tail(b), atEnd);
    HostOrder(hosts);
    SortSorts(HostLe(), hosts);
    AddsNothing(sorted, more);
    if more == [] {
      AggregateOrder(hosts, sorted);
    }
  }

  lemma {:induction false} AddsNothing(xs: seq<HostResult>, more: seq<HostResult>)
    ensures multiset(xs + more) == multiset(xs) <==> more == []
    ensures more == [] ==> xs + more == xs
  {
    assert |multiset(xs + more)| == |xs| + |more| && |multiset(xs)| == |xs|;
  }

  /** On every log with distinct start times: what is recorded for a block is its own total, and the list recorded
      with it is that of its instances exactly when no host line after its `done` is ended. */
  lemma {:induction false} ListsMatchExactly(noise: seq<Line>, blocks: seq<Block>, i: nat)
    requires Headless(noise, blocks) && DistinctTimes(blocks) && i < |blocks|
    requires IsRecorded(blocks[i], i == |blocks| - 1)
    ensures var p := Parse(LogLines(noise, blocks)); var b := blocks[i];
            && Closed(p.results, p.lists)
            && b.info.when in p.results
            && var t := View(p.results, p.lists)[b.info.when];
               && t.workload == [b.info.workload] && t.distribution == b.info.distribution
               && t.when == b.info.when && t.instances == b.info.instances
               && t.totals == Aggregate(Hosts(b))
               && (multiset(t.perHost) == multiset(Hosts(b)) <==> NoneEnded(Tail(b), i == |blocks| - 1))
  {
    ParseIsReading(noise, blocks);
    OneTotalPerBlock(blocks);
    assert OwnTotal(blocks[i], i == |blocks| - 1, Reading(blocks));
    TotalMatchesList(blocks[i], i == |blocks| - 1);
    var p := Parse(LogLines(noise, blocks));
    assert blocks[i].info.when in View(p.results, p.lists);
  }

  lemma {:induction false} HostOrder(hosts: seq<HostResult>)
    ensures Orders(HostLe(), hosts)
  {
    forall a: HostResult, b: HostResult, c: HostResult
      ensures HostLe()(a, b) || HostLe()(b, a)
      ensures HostLe()(a, b) && HostLe()(b, c) ==> HostLe()(a, c)
    {
      StringOrder(a.host, b.host, c.host);
    }
  }

}
