/** The plan of benchmark runs: how it is generated, and the in-place shuffle that randomises it. */
module RunPlan {
  import opened Ordering

  // ---- the shuffle ----

  function Swap<T>(s: seq<T>, i: nat, j: nat): (r: seq<T>)
    requires i < |s| && j < |s|
    ensures |r| == |s|
  {
    s[i := s[j]][j := s[i]]
  }

  /** One draw for each position: position i is swapped with a position up to i. */
  predicate Draws(js: seq<nat>) { forall i :: 0 <= i < |js| ==> js[i] <= i }

  /** The swaps from position i down to position 1. */
  function ShuffleFrom<T>(s: seq<T>, js: seq<nat>, i: nat): (r: seq<T>)
    requires i < |s| == |js| && Draws(js)
    ensures |r| == |s|
    decreases i
  {
    if i == 0 then s else ShuffleFrom(Swap(s, i, js[i]), js, i - 1)
  }

  function Shuffle<T>(s: seq<T>, js: seq<nat>): (r: seq<T>)
    requires |s| == |js| && Draws(js)
    ensures |r| == |s|
  {
    if s == [] then s else ShuffleFrom(s, js, |s| - 1)
  }

  /** The plan keeps its entries, whatever is drawn. */
  lemma {:induction false} ShufflePermutes<T>(s: seq<T>, js: seq<nat>, i: nat)
    requires i < |s| == |js| && Draws(js)
    ensures multiset(ShuffleFrom(s, js, i)) == multiset(s)
    decreases i
  {
    if i > 0 {
      var t := Swap(s, i, js[i]);
      assert multiset(t) == multiset(s);
      ShufflePermutes(t, js, i - 1);
    }
  }

  /** Positions above i are not touched any more. */
  lemma {:induction false} AboveStays<T>(s: seq<T>, js: seq<nat>, i: nat, k: nat)
    requires i < k < |s| == |js| && Draws(js)
    ensures ShuffleFrom(s, js, i)[k] == s[k]
    decreases i
  {
    if i > 0 {
      AboveStays(Swap(s, i, js[i]), js, i - 1, k);
    }
  }

  lemma {:induction false} SwapKeepsDistinct<T>(s: seq<T>, i: nat, j: nat)
    requires i < |s| && j < |s| && NoRepeats(s)
    ensures NoRepeats(Swap(s, i, j))
  {
  }

  /** The element drawn for position i ends there. */
  lemma {:induction false} DrawnStays<T>(s: seq<T>, js: seq<nat>, i: nat)
    requires 0 < i < |s| == |js| && Draws(js)
    ensures ShuffleFrom(s, js, i)[i] == s[js[i]]
  {
    var t := Swap(s, i, js[i]);
    assert t[i] == s[js[i]];
    var r := ShuffleFrom(t, js, i - 1);
    assert r == ShuffleFrom(s, js, i);
    AboveStays(t, js, i - 1, i);
    assert r[i] == t[i];
  }

  /** Different draws give different orders. */
  lemma {:induction false} DrawsDetermined<T>(s: seq<T>, js: seq<nat>, ks: seq<nat>, i: nat)
    requires i < |s| == |js| == |ks| && Draws(js) && Draws(ks) && NoRepeats(s)
    requires ShuffleFrom(s, js, i) == ShuffleFrom(s, ks, i)
    ensures forall m :: 0 <= m <= i ==> js[m] == ks[m]
    decreases i
  {
    if i > 0 {
      DrawnStays(s, js, i);
      DrawnStays(s, ks, i);
      assert js[i] == ks[i];
      SwapKeepsDistinct(s, i, js[i]);
      DrawsDetermined(Swap(s, i, js[i]), js, ks, i - 1);
    }
  }

  /** The draws that bring `s` to the order `t` on positions 0 to i; above i the two agree already. */
  lemma {:induction false} DrawsExist<T>(s: seq<T>, t: seq<T>, i: nat) returns (js: seq<nat>)
    requires i < |s| == |t| && s[i + 1..] == t[i + 1..]
    requires multiset(s) == multiset(t)
    ensures |js| == |s| && Draws(js) && ShuffleFrom(s, js, i) == t
    decreases i
  {
    if i == 0 {
      js := seq(|s|, _ => 0);
      FirstAgrees(s, t);
    } else {
      var j := FindBelow(s, t, i);
      SwapAgrees(s, t, i, j);
      var rest := DrawsExist(Swap(s, i, j), t, i - 1);
      js := rest[i := j];
      SameBelow(Swap(s, i, j), rest, js, i - 1);
    }
  }

  /** Swapping the wanted element into position i leaves one position less to agree on. */
  lemma {:induction false} SwapAgrees<T>(s: seq<T>, t: seq<T>, i: nat, j: nat)
    requires j <= i < |s| == |t| && s[i + 1..] == t[i + 1..] && s[j] == t[i]
    ensures Swap(s, i, j)[i..] == t[i..]
    ensures multiset(Swap(s, i, j)) == multiset(s)
  {
    var next := Swap(s, i, j);
    assert next[i..] == [t[i]] + next[i + 1..];
    assert next[i + 1..] == s[i + 1..] && t[i..] == [t[i]] + t[i + 1..];
  }

  lemma {:induction false} FirstAgrees<T>(s: seq<T>, t: seq<T>)
    requires |s| == |t| > 0 && s[1..] == t[1..] && multiset(s) == multiset(t)
    ensures s == t
  {
    assert s == [s[0]] + s[1..] && t == [t[0]] + t[1..];
    assert multiset(s) == multiset{s[0]} + multiset(s[1..]);
    assert multiset(t) == multiset{t[0]} + multiset(s[1..]);
    assert multiset(s) - multiset(s[1..]) == multiset{s[0]};
    assert multiset(t) - multiset(s[1..]) == multiset{t[0]};
    assert s[0] in multiset{t[0]};
  }

  /** The element wanted at position i is among the first i + 1. */
  lemma {:induction false} FindBelow<T>(s: seq<T>, t: seq<T>, i: nat) returns (j: nat)
    requires i < |s| == |t| && s[i + 1..] == t[i + 1..] && multiset(s) == multiset(t)
    ensures j <= i && s[j] == t[i]
  {
    assert s == s[..i + 1] + s[i + 1..] && t == t[..i + 1] + t[i + 1..];
    assert multiset(s) == multiset(s[..i + 1]) + multiset(s[i + 1..]);
    assert multiset(t) == multiset(t[..i + 1]) + multiset(s[i + 1..]);
    assert multiset(s) - multiset(s[i + 1..]) == multiset(s[..i + 1]);
    assert multiset(t) - multiset(s[i + 1..]) == multiset(t[..i + 1]);
    assert t[i] == t[..i + 1][i];
    assert t[i] in multiset(t[..i + 1]);
    assert t[i] in s[..i + 1];
    j :| 0 <= j < |s[..i + 1]| && s[..i + 1][j] == t[i];
  }

  lemma {:induction false} SameBelow<T>(s: seq<T>, js: seq<nat>, ks: seq<nat>, i: nat)
    requires i < |s| == |js| == |ks| && Draws(js) && Draws(ks)
    requires forall m :: 0 <= m <= i ==> js[m] == ks[m]
    ensures ShuffleFrom(s, js, i) == ShuffleFrom(s, ks, i)
    decreases i
  {
    if i > 0 {
      SameBelow(Swap(s, i, js[i]), js, ks, i - 1);
    }
  }

  /** Distinct entries: every order is produced by exactly one sequence of draws. */
  lemma {:induction false} EveryOrderOnce<T>(s: seq<T>, t: seq<T>) returns (js: seq<nat>)
    requires NoRepeats(s) && multiset(s) == multiset(t)
    ensures |js| == |s| && Draws(js) && Shuffle(s, js) == t
    ensures forall ks :: |ks| == |s| && Draws(ks) && Shuffle(s, ks) == t ==> ks == js
  {
    assert |multiset(s)| == |s| && |multiset(t)| == |t|;
    if s == [] {
      js := [];
    } else {
      var last := |s| - 1;
      js := DrawsExist(s, t, last);
      forall ks | |ks| == |s| && Draws(ks) && Shuffle(s, ks) == t ensures ks == js {
        DrawsDetermined(s, js, ks, last);
      }
    }
  }

  /** The values of the shell's RANDOM. */
  const RANDOM_LIMIT := 32768

  /** The draw for position i: the first value is used for the last position. */
  function DrawAt(random: seq<nat>, n: nat, i: nat): nat
    requires i < n <= |random| + 1
  {
    if i == 0 then 0 else random[n - 1 - i] % (i + 1)
  }

  function DrawsOf(random: seq<nat>, n: nat): (js: seq<nat>)
    requires n <= |random| + 1
    ensures |js| == n && Draws(js)
    ensures forall i :: 0 <= i < n ==> js[i] == DrawAt(random, n, i)
  {
    seq(n, i requires 0 <= i < n => DrawAt(random, n, i))
  }

  /** The first random value serves the last position, the second the one before it, and so on. */
  lemma {:induction false} DrawsInOrder(random: seq<nat>, n: nat, k: nat)
    requires k + 1 < n <= |random| + 1
    ensures DrawsOf(random, n)[n - 1 - k] == random[k] % (n - k)
  {
  }

  /** So the first random value picks the entry that comes last. */
  lemma {:induction false} LastIsDrawnFirst<T>(s: seq<T>, random: seq<nat>)
    requires 1 < |s| <= |random| + 1
    ensures Shuffle(s, DrawsOf(random, |s|))[|s| - 1] == s[random[0] % |s|]
  {
    DrawsInOrder(random, |s|, 0);
    DrawnStays(s, DrawsOf(random, |s|), |s| - 1);
  }

  method SwapEntries<T>(plan: array<T>, i: nat, j: nat)
    requires i < plan.Length && j < plan.Length
    modifies plan
    ensures plan[..] == Swap(old(plan[..]), i, j)
  {
    var tmp := plan[i];
    plan[i] := plan[j];
    plan[j] := tmp;
  }

  method ShuffleRunPlan<T>(plan: array<T>, random: seq<nat>)
    requires plan.Length <= |random| + 1
    modifies plan
    ensures plan[..] == Shuffle(old(plan[..]), DrawsOf(random, plan.Length))
    ensures multiset(plan[..]) == multiset(old(plan[..]))
  {
    if plan.Length == 0 {
      return;
    }
    ghost var js := DrawsOf(random, plan.Length);
    var i := plan.Length - 1;
    while i > 0
      invariant 0 <= i < plan.Length
      invariant ShuffleFrom(plan[..], js, i) == Shuffle(old(plan[..]), js)
    {
      var j := random[plan.Length - 1 - i] % (i + 1);
      assert js[i] == j;
      SwapEntries(plan, i, j);
      i := i - 1;
    }
    ShufflePermutes(old(plan[..]), js, plan.Length - 1);
  }

  lemma {:induction false} SmallRemainder(a: nat, n: nat)
    requires a < n
    ensures a % n == a
  {
  }

  /** The random values that give these draws. */
  function RandomFor(js: seq<nat>): (random: seq<nat>)
    requires js != []
    ensures |random| == |js| - 1
    ensures forall k :: 0 <= k < |random| ==> random[k] == js[|js| - 1 - k]
  {
    seq(|js| - 1, k requires 0 <= k < |js| - 1 => js[|js| - 1 - k])
  }

  lemma {:induction false} DrawsOfRandomFor(js: seq<nat>)
    requires js != [] && Draws(js)
    ensures DrawsOf(RandomFor(js), |js|) == js
  {
    forall i | 0 <= i < |js| ensures DrawAt(RandomFor(js), |js|, i) == js[i] {
      SmallRemainder(js[i], i + 1);
    }
  }

  /** With the 15 bits of RANDOM every order of up to 32768 distinct entries can come out. */
  lemma {:induction false} EveryOrderReachable<T>(s: seq<T>, t: seq<T>) returns (random: seq<nat>)
    requires NoRepeats(s) && multiset(s) == multiset(t) && |s| <= RANDOM_LIMIT
    ensures |s| <= |random| + 1 && forall i :: 0 <= i < |random| ==> random[i] < RANDOM_LIMIT
    ensures Shuffle(s, DrawsOf(random, |s|)) == t
  {
    var js := EveryOrderOnce(s, t);
    if s == [] {
      random := [];
      assert DrawsOf(random, 0) == js;
    } else {
      random := RandomFor(js);
      DrawsOfRandomFor(js);
    }
  }

  // ---- the plan ----

  datatype Entry = Entry(mode: string, iodepth: nat, run: nat)

  /** The queue depths tried: doubling from the first up to the limit. */
  function Depths(first: nat, limit: nat): (r: seq<nat>)
    requires first > 0
    ensures forall d :: d in r ==> first <= d <= limit
    decreases limit - first
  {
    if first > limit then [] else [first] + Depths(2 * first, limit)
  }

  /** They start with the first, each is twice the one before, and twice the last is over the limit. */
  lemma {:induction false} DepthsDouble(first: nat, limit: nat)
    requires 0 < first <= limit
    ensures var r := Depths(first, limit);
            && r != [] && r[0] == first && 2 * r[|r| - 1] > limit
            && forall i :: 0 < i < |r| ==> r[i] == 2 * r[i - 1]
    decreases limit - first
  {
    if 2 * first <= limit {
      DepthsDouble(2 * first, limit);
    }
  }

  /** Every selected mode, at every depth, as often as asked. */
  predicate Planned(modes: seq<string>, depths: seq<nat>, runs: nat, e: Entry) {
    e.mode in modes && e.iodepth in depths && 1 <= e.run <= runs
  }

  ghost predicate Covers(plan: seq<Entry>, modes: seq<string>, depths: seq<nat>, runs: nat) {
    NoRepeats(plan) && forall e :: e in plan <==> Planned(modes, depths, runs, e)
  }

  /** The runs of one mode at one depth. */
  method AddRuns(plan0: seq<Entry>, mode: string, iodepth: nat, runs: nat) returns (plan: seq<Entry>)
    requires NoRepeats(plan0) && forall e :: e in plan0 ==> e.mode != mode || e.iodepth != iodepth
    ensures NoRepeats(plan)
    ensures forall e :: e in plan <==> e in plan0 || (e.mode == mode && e.iodepth == iodepth && 1 <= e.run <= runs)
  {
    plan := plan0;
    var run := 1;
    while run <= runs
      invariant 1 <= run <= runs + 1
      invariant NoRepeats(plan)
      invariant forall e :: e in plan <==> e in plan0 || (e.mode == mode && e.iodepth == iodepth && 1 <= e.run < run)
    {
      var e := Entry(mode, iodepth, run);
      assert e !in plan;
      plan := plan + [e];
      run := run + 1;
    }
  }

  /** All modes at one depth. */
  method AddModes(plan0: seq<Entry>, modes: seq<string>, iodepth: nat, runs: nat) returns (plan: seq<Entry>)
    requires NoRepeats(modes) && NoRepeats(plan0) && forall e :: e in plan0 ==> e.iodepth != iodepth
    ensures NoRepeats(plan)
    ensures forall e :: e in plan <==> e in plan0 || Planned(modes, [iodepth], runs, e)
  {
    plan := plan0;
    var m := 0;
    while m < |modes|
      invariant 0 <= m <= |modes|
      invariant NoRepeats(plan)
      invariant forall e :: e in plan <==> e in plan0 || Planned(modes[..m], [iodepth], runs, e)
    {
      assert modes[..m + 1] == modes[..m] + [modes[m]];
      assert modes[m] !in modes[..m];
      plan := AddRuns(plan, modes[m], iodepth, runs);
      m := m + 1;
    }
    assert modes[..m] == modes;
  }

  /** The three nested loops; the script has checked its arguments before. */
  method BuildRunPlan(modes: seq<string>, iodepthFrom: nat, iodepthTo: nat, runCount: nat) returns (plan: seq<Entry>)
    requires NoRepeats(modes) && 0 < iodepthFrom <= iodepthTo && runCount > 0
    ensures Covers(plan, modes, Depths(iodepthFrom, iodepthTo), runCount)
  {
    plan := [];
    var iodepth := iodepthFrom;
    ghost var done: seq<nat> := [];
    while iodepth <= iodepthTo
      invariant iodepth > 0
      invariant done + Depths(iodepth, iodepthTo) == Depths(iodepthFrom, iodepthTo)
      invariant forall d :: d in done ==> d < iodepth
      invariant Covers(plan, modes, done, runCount)
      decreases iodepthTo - iodepth
    {
      plan := AddModes(plan, modes, iodepth, runCount);
      Associative(done, [iodepth], Depths(2 * iodepth, iodepthTo));
      done := done + [iodepth];
      iodepth := iodepth * 2;
    }
    assert done == Depths(iodepthFrom, iodepthTo);
  }
}
