/** The YCSB log parser as an object: a loop over lines that fills `results` in place, where each
    recorded total holds the very list that the parser went on using. */
module YcsbParser {
  import opened Ordering
  import opened YcsbLog

  /** A growing list of instance results, shared by reference. */
  class HostList {
    var items: seq<HostResult>

    constructor ()
      ensures items == []
    {
      items := [];
    }
  }

  datatype RunTotal = RunTotal(workload: string, distribution: string, when: nat, instances: string, totals: Totals,
                               perHost: HostList)

  /** The list objects hold what the parsing state says. */
  ghost predicate Holds(lists: seq<HostList>, values: seq<seq<HostResult>>)
    reads lists
  {
    && |lists| == |values|
    && NoRepeats(lists)
    && forall i :: 0 <= i < |lists| ==> lists[i].items == values[i]
  }

  /** `results` is `before` with the recorded totals added, each sharing its list. */
  ghost predicate Shows(results: map<nat, RunTotal>, before: map<nat, RunTotal>, recorded: map<nat, Recorded>,
                        lists: seq<HostList>)
  {
    && results.Keys == before.Keys + recorded.Keys
    && (forall k :: k in before && k !in recorded ==> results[k] == before[k])
    && (forall k :: k in recorded ==>
          && recorded[k].list < |lists|
          && results[k] == RunTotal(recorded[k].workload, recorded[k].distribution, recorded[k].when,
                                    recorded[k].instances, recorded[k].totals, lists[recorded[k].list]))
  }

  lemma {:induction false} ShowsGrows(results: map<nat, RunTotal>, before: map<nat, RunTotal>,
                                       recorded: map<nat, Recorded>, lists: seq<HostList>, list: HostList)
    requires Shows(results, before, recorded, lists)
    ensures Shows(results, before, recorded, lists + [list])
  {
  }

  lemma {:induction false} ShowsAdded(results: map<nat, RunTotal>, before: map<nat, RunTotal>,
                                      recorded: map<nat, Recorded>, lists: seq<HostList>, r: Recorded)
    requires Shows(results, before, recorded, lists) && r.list < |lists|
    ensures Shows(results[r.when := RunTotal(r.workload, r.distribution, r.when, r.instances, r.totals, lists[r.list])],
                  before, recorded[r.when := r], lists)
  {
  }

  class Parser {
    var results: map<nat, RunTotal>

    constructor ()
      ensures results == map[]
    {
      results := map[];
    }

    method AddWorkload(workload: string, distribution: string, when: nat, instances: string, list: HostList)
      modifies this, list
      ensures workload == "" ==> results == old(results) && list.items == old(list.items)
      ensures workload != "" ==> list.items == Sort(HostLe(), old(list.items))
      ensures workload != "" ==>
                var totals := Aggregate(old(list.items));
                results == if totals.maxMs == 0 then old(results)
                           else old(results)[when := RunTotal(workload, distribution, when, instances, totals, list)]
    {
      if workload == "" {
        return;
      }
      var totals := CalcAggregatedResult(list.items);
      list.items := Sort(HostLe(), list.items);
      if totals.maxMs == 0 {
        return;
      }
      results := results[when := RunTotal(workload, distribution, when, instances, totals, list)];
    }

    /** The instance in hand, if any, is added to the list. */
    method AddHost(host: HostResult, list: HostList, ghost s: State, ghost lists: seq<HostList>)
      requires s.current < |s.lists| && Holds(lists, s.lists) && list == lists[s.current] && host == s.host
      modifies list
      ensures Holds(lists, AppendHost(s).lists)
    {
      if host.host != "" {
        list.items := list.items + [host];
      }
    }

    /** The workload is recorded and its list sorted. */
    method Record(workload: string, distribution: string, when: nat, instances: string, list: HostList,
                  ghost s: State, ghost lists: seq<HostList>, ghost before: map<nat, RunTotal>)
      requires s.current < |s.lists| && Holds(lists, s.lists) && list == lists[s.current]
      requires workload == s.workload && distribution == s.distribution && when == s.when && instances == s.instances
      requires Shows(results, before, s.results, lists)
      modifies this, list
      ensures Holds(lists, YcsbLog.AddWorkload(s).lists)
      ensures Shows(results, before, YcsbLog.AddWorkload(s).results, lists)
    {
      ShowsAdded(results, before, s.results, lists,
                 Recorded(workload, distribution, when, instances, Aggregate(list.items), s.current));
      AddWorkload(workload, distribution, when, instances, list);
    }

    /** The end of a workload. */
    method Close(workload: string, distribution: string, when: nat, instances: string, host: HostResult, list: HostList,
                 ghost s: State, ghost lists: seq<HostList>, ghost before: map<nat, RunTotal>)
      requires s.current < |s.lists| && Holds(lists, s.lists) && list == lists[s.current]
      requires s == State(s.lists, s.current, workload, distribution, when, instances, host, s.results)
      requires Shows(results, before, s.results, lists)
      modifies this, list
      ensures Holds(lists, Finish(s).lists)
      ensures Shows(results, before, Finish(s).results, lists)
    {
      ghost var a := AppendHost(s);
      assert a == s.(lists := a.lists);
      AddHost(host, list, s, lists);
      Record(workload, distribution, when, instances, list, a, lists, before);
    }

    static method OpenList(ghost lists: seq<HostList>, ghost values: seq<seq<HostResult>>) returns (list: HostList)
      requires Holds(lists, values)
      ensures fresh(list) && Holds(lists + [list], values + [[]])
    {
      list := new HostList();
    }

    /** One line: the parsing state takes the step, and the variables follow it. */
    method ReadLine(line: Line, workload0: string, distribution0: string, when0: nat, instances0: string,
                    host0: HostResult, list0: HostList, ghost s: State, ghost lists0: seq<HostList>,
                    ghost before: map<nat, RunTotal>)
      returns (workload: string, distribution: string, when: nat, instances: string, host: HostResult, list: HostList,
               ghost lists: seq<HostList>)
      requires s.current < |s.lists| && Holds(lists0, s.lists) && list0 == lists0[s.current]
      requires s == State(s.lists, s.current, workload0, distribution0, when0, instances0, host0, s.results)
      requires Shows(results, before, s.results, lists0)
      modifies this, list0
      ensures var t := Step(s, line);
              && t == State(t.lists, t.current, workload, distribution, when, instances, host, t.results)
              && Holds(lists, t.lists) && list == lists[t.current]
              && Shows(results, before, t.results, lists)
      ensures lists == lists0 || (lists == lists0 + [list] && fresh(list))
    {
      workload, distribution, when, instances := workload0, distribution0, when0, instances0;
      host, list, lists := host0, list0, lists0;
      if line.Header? {
        var info := line.info;
        host := NewResult("");
        list := OpenList(lists, s.lists);
        ShowsGrows(results, before, s.results, lists, list);
        lists := lists + [list];
        distribution, workload, instances, when := info.distribution, [info.workload], info.instances, info.when;
      } else if line.Host? {
        AddHost(host, list, s, lists);
        host := NewResult(line.name);
      } else if line.Done? {
        Close(workload, distribution, when, instances, host, list, s, lists, before);
        host := NewResult("");
        workload := "";
      } else {
        host := ReadMetric(host, line);
      }
    }

    /** A line about the instance in hand. */
    static method ReadMetric(before: HostResult, line: Line) returns (host: HostResult)
      ensures host == Measure(before, line)
    {
      host := before;
      match line {
        case Ops(n) => host := host.(throughput := n);
        case RunTime(n) => host := host.(maxMs := n, minMs := n);
        case Latency(us) => host := host.(latency := MaxTime(host.latency, us as real / 1000.0));
        case Oks(n) => host := host.(oks := n);
        case Errors(n) => host := host.(errors := n);
        case NotFound(n) => host := host.(notFound := n);
        case _ =>
      }
    }

    /** Any log is parsed to the totals and shared lists that the parsing state reaches. */
    method Parse(lines: seq<Line>) returns (ghost lists: seq<HostList>)
      modifies this
      ensures Holds(lists, YcsbLog.Parse(lines).lists)
      ensures Shows(results, old(results), YcsbLog.Parse(lines).results, lists)
    {
      var list := new HostList();
      lists := [list];
      var workload, distribution, instances := "", "", "";
      var when: nat := 0;
      var host := NewResult("");
      ghost var s := Start;
      var i := 0;
      while i < |lines|
        invariant 0 <= i <= |lines|
        invariant s == StepAll(Start, lines[..i])
        invariant s == State(s.lists, s.current, workload, distribution, when, instances, host, s.results)
        invariant Holds(lists, s.lists) && list == lists[s.current]
        invariant forall j :: 0 <= j < |lists| ==> fresh(lists[j])
        invariant Shows(results, old(results), s.results, lists)
      {
        assert lines[..i + 1][..i] == lines[..i];
        workload, distribution, when, instances, host, list, lists :=
          ReadLine(lines[i], workload, distribution, when, instances, host, list, s, lists, old(results));
        s := Step(s, lines[i]);
        i := i + 1;
      }
      assert lines[..i] == lines;
      Close(workload, distribution, when, instances, host, list, s, lists, old(results));
    }
  }

  /** What a fresh parser holds after any log, list objects included, is the block-by-block reading. */
  lemma {:induction false} ParserHoldsReading(results: map<nat, RunTotal>, lists: seq<HostList>, noise: seq<Line>,
                                              blocks: seq<Block>)
    requires Headless(noise, blocks)
    requires Holds(lists, YcsbLog.Parse(LogLines(noise, blocks)).lists)
    requires Shows(results, map[], YcsbLog.Parse(LogLines(noise, blocks)).results, lists)
    ensures results.Keys == Reading(blocks).Keys
    ensures forall k :: k in results ==>
              Total(results[k].workload, results[k].distribution, results[k].when, results[k].instances,
                    results[k].totals, results[k].perHost.items) == Reading(blocks)[k]
  {
    ParseIsReading(noise, blocks);
    var p := YcsbLog.Parse(LogLines(noise, blocks));
    assert View(p.results, p.lists).Keys == p.results.Keys;
  }
}
