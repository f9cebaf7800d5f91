/** Result file names: how the benchmark writes them and how the aggregator takes them apart. */
module ResultNames {
  import opened Options
  import opened Ordering
  import opened RunPlan

  // ---- decimal numbers ----

  predicate Digit(c: char) { '0' <= c <= '9' }

  predicate AllDigits(s: string) { forall i :: 0 <= i < |s| ==> Digit(s[i]) }

  function Decimal(n: nat): (s: string)
    ensures s != "" && AllDigits(s)
  {
    if n < 10 then ['0' + n as char] else Decimal(n / 10) + ['0' + (n % 10) as char]
  }

  function Int(s: string): nat
    requires AllDigits(s)
  {
    if s == "" then 0 else 10 * Int(s[..|s| - 1]) + (s[|s| - 1] - '0') as nat
  }

  lemma {:induction false} IntOfDecimal(n: nat)
    ensures Int(Decimal(n)) == n
  {
    if n < 10 {
      assert ['0' + n as char][..0] == "";
    } else {
      IntOfDecimal(n / 10);
      var s := Decimal(n);
      assert s[..|s| - 1] == Decimal(n / 10);
    }
  }

  // ---- names ----

  datatype Workload = Reading | Writing

  function Word(w: Workload): string { if w == Reading then "read" else "write" }

  /** The name that a run writes its result to. */
  function ResultName(mode: string, iodepth: nat, w: Workload, run: nat): string {
    mode + "_qd" + Decimal(iodepth) + "_" + Word(w) + "_run" + Decimal(run) + ".json"
  }

  function RunPart(run: Option<string>): string {
    match run
    case None => ""
    case Some(digits) => "_run" + digits
  }

  /** A way to read a single-line name by the result pattern: a nonempty engine, `_qd` and digits, the workload,
      perhaps `_run` and digits, and `.json`. */
  ghost predicate Matches(name: string, engine: string, depth: string, w: Workload, run: Option<string>) {
    && name == engine + "_qd" + depth + "_" + Word(w) + RunPart(run) + ".json"
    && engine != "" && '\n' !in engine
    && depth != "" && AllDigits(depth)
    && (run.Some? ==> run.value != "" && AllDigits(run.value))
  }

  /** Trailing digits after a non-digit are determined. */
  lemma {:induction false} TrailingDigits(x: string, d: string, y: string, e: string)
    requires x + d == y + e && AllDigits(d) && AllDigits(e)
    requires x != "" && !Digit(x[|x| - 1]) && y != "" && !Digit(y[|y| - 1])
    ensures x == y && d == e
  {
    var z := x + d;
    assert z[|x| - 1] == x[|x| - 1] && forall i :: |y| <= i < |z| ==> z[i] == e[i - |y|];
    assert z == y + e && z[|y| - 1] == y[|y| - 1] && forall i :: |x| <= i < |z| ==> z[i] == d[i - |x|];
    assert |x| == |y|;
    assert (x + d)[..|x|] == x && (y + e)[..|y|] == y;
    assert (x + d)[|x|..] == d && (y + e)[|y|..] == e;
  }

  lemma {:induction false} CutSuffix(x: string, y: string, s: string)
    requires x + s == y + s
    ensures x == y
  {
    assert (x + s)[..|x|] == x && (y + s)[..|y|] == y;
  }

  /** The part of a name up to the workload. */
  function Front(engine: string, depth: string, w: Workload): string { engine + "_qd" + depth + "_" + Word(w) }

  lemma {:induction false} FrontEnds(engine: string, depth: string, w: Workload)
    ensures var f := Front(engine, depth, w); f != "" && f[|f| - 1] == if w == Reading then 'd' else 'e'
  {
  }

  lemma {:induction false} FrontDetermined(e1: string, d1: string, w1: Workload, e2: string, d2: string, w2: Workload)
    requires Front(e1, d1, w1) == Front(e2, d2, w2) && AllDigits(d1) && AllDigits(d2)
    ensures e1 == e2 && d1 == d2 && w1 == w2
  {
    FrontEnds(e1, d1, w1);
    FrontEnds(e2, d2, w2);
    assert w1 == w2;
    CutSuffix(e1 + "_qd" + d1 + "_", e2 + "_qd" + d2 + "_", Word(w1));
    CutSuffix(e1 + "_qd" + d1, e2 + "_qd" + d2, "_");
    TrailingDigits(e1 + "_qd", d1, e2 + "_qd", d2);
    CutSuffix(e1, e2, "_qd");
  }

  /** No name can be read in two ways, whatever the engine is called. */
  lemma {:induction false} MatchUnique(name: string, e1: string, d1: string, w1: Workload, r1: Option<string>,
                    e2: string, d2: string, w2: Workload, r2: Option<string>)
    requires Matches(name, e1, d1, w1, r1) && Matches(name, e2, d2, w2, r2)
    ensures e1 == e2 && d1 == d2 && w1 == w2 && r1 == r2
  {
    var f1, f2 := Front(e1, d1, w1), Front(e2, d2, w2);
    CutSuffix(f1 + RunPart(r1), f2 + RunPart(r2), ".json");
    FrontEnds(e1, d1, w1);
    FrontEnds(e2, d2, w2);
    LastOfName(f1, r1);
    LastOfName(f2, r2);
    if r1.Some? && r2.Some? {
      assert f1 + RunPart(r1) == f1 + "_run" + r1.value;
      assert f2 + RunPart(r2) == f2 + "_run" + r2.value;
      TrailingDigits(f1 + "_run", r1.value, f2 + "_run", r2.value);
      CutSuffix(f1, f2, "_run");
    }
    FrontDetermined(e1, d1, w1, e2, d2, w2);
  }

  /** A name without run index ends, before `.json`, in a letter, and one with it in a digit. */
  lemma {:induction false} LastOfName(f: string, run: Option<string>)
    requires f != "" && !Digit(f[|f| - 1])
    requires run.Some? ==> run.value != "" && AllDigits(run.value)
    ensures var s := f + RunPart(run); Digit(s[|s| - 1]) <==> run.Some?
    ensures run == None ==> f + RunPart(run) == f
  {
    if run.Some? {
      var s := f + RunPart(run);
      assert s[|s| - 1] == run.value[|run.value| - 1];
    }
  }

  datatype Fields = Fields(engine: string, iodepth: nat, w: Workload, run: nat)

  ghost predicate Readable(name: string) { exists e, d, w, r :: Matches(name, e, d, w, r) }

  /** What the aggregator takes from a name: nothing when it does not match; run 1 when there is no run index. */
  ghost function FieldsOf(name: string): Option<Fields> {
    if Readable(name) then
      var e, d, w, r :| Matches(name, e, d, w, r);
      Some(Fields(e, Int(d), w, if r.Some? then Int(r.value) else 1))
    else None
  }

  /** Names round-trip: the aggregator gets back the four fields of the run. */
  lemma {:induction false} NameRoundTrip(mode: string, iodepth: nat, w: Workload, run: nat)
    requires mode != "" && '\n' !in mode
    ensures FieldsOf(ResultName(mode, iodepth, w, run)) == Some(Fields(mode, iodepth, w, run))
  {
    var name := ResultName(mode, iodepth, w, run);
    assert name == mode + "_qd" + Decimal(iodepth) + "_" + Word(w) + RunPart(Some(Decimal(run))) + ".json";
    assert Matches(name, mode, Decimal(iodepth), w, Some(Decimal(run)));
    var e, d, w1, r :| Matches(name, e, d, w1, r)
      && FieldsOf(name) == Some(Fields(e, Int(d), w1, if r.Some? then Int(r.value) else 1));
    MatchUnique(name, mode, Decimal(iodepth), w, Some(Decimal(run)), e, d, w1, r);
    IntOfDecimal(iodepth);
    IntOfDecimal(run);
  }

  /** How a name is spelled. */
  lemma {:induction false} NameSpelled(mode: string, iodepth: nat, run: nat)
    ensures ResultName(mode, iodepth, Reading, run)
         == mode + "_qd" + Decimal(iodepth) + "_read" + "_run" + Decimal(run) + ".json"
    ensures ResultName(mode, iodepth, Writing, run)
         == mode + "_qd" + Decimal(iodepth) + "_write" + "_run" + Decimal(run) + ".json"
  {
  }

  /** Decimals: the last digit stands for the units, the rest for tens; no zero leads. */
  lemma {:induction false} DecimalSpelled(n: nat, d: nat)
    requires d < 10
    ensures Decimal(d) == ["0123456789"[d]]
    ensures n > 0 ==> Decimal(10 * n + d) == Decimal(n) + Decimal(d)
    ensures n > 0 ==> Decimal(n)[0] != '0'
  {
    NoLeadingZero(n);
  }

  lemma {:induction false} NoLeadingZero(n: nat)
    ensures n > 0 ==> Decimal(n)[0] != '0'
  {
    if n >= 10 {
      NoLeadingZero(n / 10);
    }
  }

  /** A name without run index, in the spelling of older results, is read as that of run 1. */
  lemma {:induction false} NoRunIsRunOne(mode: string, iodepth: nat, w: Workload)
    requires mode != "" && '\n' !in mode
    ensures FieldsOf(mode + "_qd" + Decimal(iodepth) + (if w == Reading then "_read" else "_write") + ".json")
         == Some(Fields(mode, iodepth, w, 1))
  {
    var name := mode + "_qd" + Decimal(iodepth) + (if w == Reading then "_read" else "_write") + ".json";
    assert name == mode + "_qd" + Decimal(iodepth) + "_" + Word(w) + RunPart(None) + ".json";
    assert Matches(name, mode, Decimal(iodepth), w, None);
    var e, d, w1, r :| Matches(name, e, d, w1, r)
      && FieldsOf(name) == Some(Fields(e, Int(d), w1, if r.Some? then Int(r.value) else 1));
    MatchUnique(name, mode, Decimal(iodepth), w, None, e, d, w1, r);
    IntOfDecimal(iodepth);
  }

  /** The file that an entry of the plan is written to; the plan only writes. */
  function EntryName(e: Entry): string { ResultName(e.mode, e.iodepth, Writing, e.run) }

  /** No two runs of a plan write the same file, and each file is read back as its run, in any order of the plan. */
  lemma {:induction false} PlanFilesDistinct(plan: seq<Entry>, i: nat, j: nat)
    requires NoRepeats(plan) && i < j < |plan|
    requires forall k :: 0 <= k < |plan| ==> plan[k].mode != "" && '\n' !in plan[k].mode
    ensures EntryName(plan[i]) != EntryName(plan[j])
    ensures FieldsOf(EntryName(plan[i])) == Some(Fields(plan[i].mode, plan[i].iodepth, Writing, plan[i].run))
  {
    NameRoundTrip(plan[i].mode, plan[i].iodepth, Writing, plan[i].run);
    NameRoundTrip(plan[j].mode, plan[j].iodepth, Writing, plan[j].run);
  }
}
