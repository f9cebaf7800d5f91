/** The latency lists printed at the end of a capture, and the percentiles read from them. */
module LatencyReport {
  import opened Ordering
  import opened Transactions

  /** An unsigned value stored in a signed 64-bit `long`. */
  function AsLong(x: U64): (r: int)
    ensures -0x8000_0000_0000_0000 <= r < 0x8000_0000_0000_0000 && Wrap(r) == x
  {
    if x < TWO63 then x else x - TWO64
  }

  function Longs(xs: seq<U64>): (r: seq<int>)
    ensures |r| == |xs|
    ensures forall i :: 0 <= i < |xs| ==> r[i] == AsLong(xs[i])
  {
    if xs == [] then [] else [AsLong(xs[0])] + Longs(xs[1..])
  }

  function ClientTimes(ts: seq<Txn>): (r: seq<int>)
    ensures |r| == |ts|
  {
    if ts == [] then [] else ClientTimes(ts[..|ts| - 1]) + [AsLong(ts[|ts| - 1].ClientTime())]
  }

  function ServerTimes(ts: seq<Txn>): (r: seq<int>)
    ensures |r| == |ts|
  {
    if ts == [] then [] else ServerTimes(ts[..|ts| - 1]) + [AsLong(ts[|ts| - 1].serverUs)]
  }

  /** Total times are printed as they are, unsigned. */
  function TotalTimes(ts: seq<Txn>): (r: seq<int>)
    ensures |r| == |ts|
    ensures forall i :: 0 <= i < |ts| ==> r[i] == ts[i].TotalTime()
  {
    if ts == [] then [] else TotalTimes(ts[..|ts| - 1]) + [ts[|ts| - 1].TotalTime()]
  }

  function QueryTimes(ts: seq<Txn>): seq<int> {
    if ts == [] then [] else QueryTimes(ts[..|ts| - 1]) + Longs(ts[|ts| - 1].latencies)
  }

  lemma {:induction false} OneMore(ts: seq<Txn>, i: nat)
    requires i < |ts|
    ensures ClientTimes(ts[..i + 1]) == ClientTimes(ts[..i]) + [AsLong(ts[i].ClientTime())]
    ensures ServerTimes(ts[..i + 1]) == ServerTimes(ts[..i]) + [AsLong(ts[i].serverUs)]
    ensures QueryTimes(ts[..i + 1]) == QueryTimes(ts[..i]) + Longs(ts[i].latencies)
  {
    assert ts[..i + 1][..i] == ts[..i];
  }

  ghost predicate ByTotalTime(ts: seq<Txn>) {
    forall i, j :: 0 <= i < j < |ts| ==> ts[i].TotalTime() <= ts[j].TotalTime()
  }

  /** The times of a transaction add up, without wrap-around, and fit a `long`. */
  predicate Balanced(t: Txn) {
    && t.TotalTime() < TWO63
    && t.serverUs <= t.TotalTime()
    && t.serverUs == Sum(t.latencies)
  }

  lemma {:induction false} LongsOfSmall(xs: seq<U64>)
    requires Sum(xs) < TWO63
    ensures Sum(Longs(xs)) == Sum(xs) && Sum(xs) >= 0
  {
    if xs != [] {
      SumNat(xs[1..]);
      LongsOfSmall(xs[1..]);
      assert Longs(xs)[1..] == Longs(xs[1..]);
    }
  }

  lemma {:induction false} SumNat(xs: seq<U64>)
    ensures Sum(xs) >= 0
  {
    if xs != [] {
      SumNat(xs[1..]);
    }
  }

  /** Client and server time add up to total time, and the per-request list to the per-transaction
      list, through the sorts. */
  lemma {:induction false} ReportConserves(ts: seq<Txn>)
    requires forall i :: 0 <= i < |ts| ==> Balanced(ts[i])
    ensures Sum(Sort(IntLe(), ClientTimes(ts))) + Sum(Sort(IntLe(), ServerTimes(ts))) == Sum(TotalTimes(ts))
    ensures Sum(Sort(IntLe(), QueryTimes(ts))) == Sum(Sort(IntLe(), ServerTimes(ts)))
  {
    ClientPlusServer(ts);
    QueriesAreServer(ts);
    SumSort(ClientTimes(ts));
    SumSort(ServerTimes(ts));
    SumSort(QueryTimes(ts));
  }

  lemma {:induction false} ClientPlusServer(ts: seq<Txn>)
    requires forall i :: 0 <= i < |ts| ==> Balanced(ts[i])
    ensures Sum(ClientTimes(ts)) + Sum(ServerTimes(ts)) == Sum(TotalTimes(ts))
  {
    if ts != [] {
      var rest, t := ts[..|ts| - 1], ts[|ts| - 1];
      ClientPlusServer(rest);
      BalancedAdds(t);
      SumAppend(ClientTimes(rest), [AsLong(t.ClientTime())]);
      SumAppend(ServerTimes(rest), [AsLong(t.serverUs)]);
      SumAppend(TotalTimes(rest), [t.TotalTime()]);
    }
  }

  lemma {:induction false} BalancedAdds(t: Txn)
    requires Balanced(t)
    ensures AsLong(t.ClientTime()) + AsLong(t.serverUs) == t.TotalTime()
  {
  }

  lemma {:induction false} QueriesAreServer(ts: seq<Txn>)
    requires forall i :: 0 <= i < |ts| ==> Balanced(ts[i])
    ensures Sum(QueryTimes(ts)) == Sum(ServerTimes(ts))
  {
    if ts != [] {
      var rest, t := ts[..|ts| - 1], ts[|ts| - 1];
      QueriesAreServer(rest);
      LongsOfSmall(t.latencies);
      SumAppend(ServerTimes(rest), [AsLong(t.serverUs)]);
      SumAppend(QueryTimes(rest), Longs(t.latencies));
    }
  }

  /** At least two requests a transaction. */
  lemma {:induction false} QueryCount(ts: seq<Txn>)
    requires forall i :: 0 <= i < |ts| ==> |ts[i].latencies| >= 2
    ensures |QueryTimes(ts)| >= 2 * |ts|
  {
    if ts != [] {
      QueryCount(ts[..|ts| - 1]);
    }
  }

  // ---- the lists do not depend on the order of the transactions ----

  /** What `f` takes from each element, in order. */
  function Collected<T, U>(f: T -> seq<U>, ts: seq<T>): seq<U> {
    if ts == [] then [] else Collected(f, ts[..|ts| - 1]) + f(ts[|ts| - 1])
  }

  lemma {:induction false} CollectedAppend<T, U>(f: T -> seq<U>, xs: seq<T>, ys: seq<T>)
    ensures Collected(f, xs + ys) == Collected(f, xs) + Collected(f, ys)
  {
    if ys == [] {
      assert xs + ys == xs;
    } else {
      assert (xs + ys)[..|xs + ys| - 1] == xs + ys[..|ys| - 1];
      CollectedAppend(f, xs, ys[..|ys| - 1]);
      Associative(Collected(f, xs), Collected(f, ys[..|ys| - 1]), f(ys[|ys| - 1]));
    }
  }

  lemma {:induction false} CollectedOne<T, U>(f: T -> seq<U>, x: T)
    ensures Collected(f, [x]) == f(x)
  {
    assert [x][..0] == [];
  }

  lemma {:induction false} CollectedPermuted<T, U>(f: T -> seq<U>, xs: seq<T>, ys: seq<T>)
    requires multiset(xs) == multiset(ys)
    ensures multiset(Collected(f, xs)) == multiset(Collected(f, ys))
  {
    if xs == [] {
      assert |multiset(ys)| == 0;
    } else {
      var before, after := FirstIn(xs, ys);
      CollectedPermuted(f, xs[1..], before + after);
      assert xs == [xs[0]] + xs[1..];
      CollectedAppend(f, [xs[0]], xs[1..]);
      CollectedAppend(f, before, [xs[0]] + after);
      CollectedAppend(f, [xs[0]], after);
      CollectedAppend(f, before, after);
    }
  }

  function ClientOf(): Txn -> seq<int> { (t: Txn) => [AsLong(t.ClientTime())] }
  function ServerOf(): Txn -> seq<int> { (t: Txn) => [AsLong(t.serverUs)] }
  function TotalOf(): Txn -> seq<int> { (t: Txn) => [t.TotalTime() as int] }
  function QueriesOf(): Txn -> seq<int> { (t: Txn) => Longs(t.latencies) }

  lemma {:induction false} ListsAreCollected(ts: seq<Txn>)
    ensures ClientTimes(ts) == Collected(ClientOf(), ts)
    ensures ServerTimes(ts) == Collected(ServerOf(), ts)
    ensures TotalTimes(ts) == Collected(TotalOf(), ts)
    ensures QueryTimes(ts) == Collected(QueriesOf(), ts)
  {
    if ts != [] {
      ListsAreCollected(ts[..|ts| - 1]);
    }
  }

  lemma {:induction false} ListsPermuted(ts: seq<Txn>, us: seq<Txn>)
    requires multiset(ts) == multiset(us)
    ensures Sort(IntLe(), ClientTimes(ts)) == Sort(IntLe(), ClientTimes(us))
    ensures Sort(IntLe(), ServerTimes(ts)) == Sort(IntLe(), ServerTimes(us))
    ensures Sort(IntLe(), TotalTimes(ts)) == Sort(IntLe(), TotalTimes(us))
    ensures Sort(IntLe(), QueryTimes(ts)) == Sort(IntLe(), QueryTimes(us))
  {
    ListsAreCollected(ts);
    ListsAreCollected(us);
    CollectedPermuted(ClientOf(), ts, us);
    CollectedPermuted(ServerOf(), ts, us);
    CollectedPermuted(TotalOf(), ts, us);
    CollectedPermuted(QueriesOf(), ts, us);
    SortPermuted(ClientTimes(ts), ClientTimes(us));
    SortPermuted(ServerTimes(ts), ServerTimes(us));
    SortPermuted(TotalTimes(ts), TotalTimes(us));
    SortPermuted(QueryTimes(ts), QueryTimes(us));
  }

  /** Transactions in order of total time give sorted times. */
  lemma {:induction false} TotalsSorted(ts: seq<Txn>)
    requires ByTotalTime(ts)
    ensures TotalTimes(ts) == Sort(IntLe(), TotalTimes(ts))
  {
    var xs := TotalTimes(ts);
    forall i, j | 0 <= i < j < |xs| ensures IntLe()(xs[i], xs[j]) {
    }
    SortInts(xs);
    SortedUnique(xs, Sort(IntLe(), xs));
  }

  // ---- sorting keyed items ----

  function FirstLe<B>(): ((U64, B), (U64, B)) -> bool { (a: (U64, B), b: (U64, B)) => a.0 <= b.0 }

  function Seconds<A, B>(ps: seq<(A, B)>): (r: seq<B>)
    ensures |r| == |ps|
    ensures forall i :: 0 <= i < |ps| ==> r[i] == ps[i].1
  {
    if ps == [] then [] else [ps[0].1] + Seconds(ps[1..])
  }

  lemma {:induction false} SecondsCons<A, B>(p: (A, B), ps: seq<(A, B)>)
    ensures Seconds([p] + ps) == [p.1] + Seconds(ps)
    ensures multiset(Seconds([p] + ps)) == multiset(Seconds(ps)) + multiset{p.1}
  {
    assert ([p] + ps)[1..] == ps;
  }

  lemma {:induction false} SecondsInsert<A, B>(le: ((A, B), (A, B)) -> bool, p: (A, B), ps: seq<(A, B)>)
    ensures multiset(Seconds(Insert(le, p, ps))) == multiset(Seconds(ps)) + multiset{p.1}
  {
    if ps == [] || le(p, ps[0]) {
      SecondsCons(p, ps);
      assert [p] + ps == Insert(le, p, ps);
    } else {
      SecondsInsert(le, p, ps[1..]);
      SecondsCons(ps[0], Insert(le, p, ps[1..]));
      SecondsCons(ps[0], ps[1..]);
      assert ps == [ps[0]] + ps[1..];
    }
  }

  lemma {:induction false} SecondsSort<A, B>(le: ((A, B), (A, B)) -> bool, ps: seq<(A, B)>)
    ensures multiset(Seconds(Sort(le, ps))) == multiset(Seconds(ps))
  {
    if ps != [] {
      SecondsSort(le, ps[1..]);
      SecondsInsert(le, ps[0], Sort(le, ps[1..]));
    }
  }

  // ---- percentiles ----

  const PERCENTILES: seq<real> := [0.5, 0.9, 0.95, 0.99]

  function PercentileIndex(n: nat, p: real): int { (n as real * p).Floor }

  /** The index is in range, and in a sorted list the element there is at least as large as more than
      the fraction p of the elements, and at most as large as all but the fraction p. */
  lemma {:induction false} PercentileRank(v: seq<int>, p: real)
    requires v != [] && SortedBy(IntLe(), v) && 0.0 <= p < 1.0
    ensures var k := PercentileIndex(|v|, p);
            && 0 <= k < |v|
            && k as real <= |v| as real * p < (k + 1) as real
            && (forall i :: 0 <= i <= k ==> v[i] <= v[k])
            && (forall i :: k <= i < |v| ==> v[k] <= v[i])
  {
    var k := PercentileIndex(|v|, p);
    IndexInRange(|v|, p);
    forall i | 0 <= i < k ensures v[i] <= v[k] {
      assert IntLe()(v[i], v[k]);
    }
    forall i | k < i < |v| ensures v[k] <= v[i] {
      assert IntLe()(v[k], v[i]);
    }
  }

  /** The elements at the four percentile indexes, all in range. */
  ghost predicate IsPercentileLine(v: seq<int>, r: seq<int>) {
    && |r| == |PERCENTILES|
    && forall i :: 0 <= i < |r| ==>
         0 <= PercentileIndex(|v|, PERCENTILES[i]) < |v| && r[i] == v[PercentileIndex(|v|, PERCENTILES[i])]
  }

  /** One line of `print`, by whole numbers: the median, and the elements at nine tenths, 95 and 99 hundredths. */
  lemma {:induction false} FourPercentiles(v: seq<int>, r: seq<int>)
    requires v != [] && IsPercentileLine(v, r)
    ensures r == [v[|v| / 2], v[|v| * 9 / 10], v[|v| * 95 / 100], v[|v| * 99 / 100]]
  {
    IndexIs(|v|, 0.5, 1, 2);
    IndexIs(|v|, 0.9, 9, 10);
    IndexIs(|v|, 0.95, 95, 100);
    IndexIs(|v|, 0.99, 99, 100);
  }

  lemma {:induction false} IndexIs(n: nat, p: real, a: nat, b: nat)
    requires b > 0 && p * b as real == a as real
    ensures PercentileIndex(n, p) == n * a / b
  {
    ScaledIndex(n as real * p, b, n * a) by {
      assert n as real * p * b as real == n as real * (p * b as real);
      assert (n * a) as real == n as real * a as real;
    }
  }

  lemma {:induction false} ScaledIndex(x: real, b: nat, m: nat)
    requires b > 0 && x * b as real == m as real
    ensures x.Floor == m / b
  {
    var q := m / b;
    assert m == q * b + m % b;
    Below(x, q, b, m);
  }

  lemma {:induction false} Below(x: real, q: nat, b: nat, m: nat)
    requires b > 0 && x * b as real == m as real && q * b <= m < q * b + b
    ensures q as real <= x < (q + 1) as real
  {
    assert (q * b) as real == q as real * b as real;
    assert ((q + 1) * b) as real == (q + 1) as real * b as real;
    SameSign(x - q as real, b as real);
    SameSign((q + 1) as real - x, b as real);
    assert (x - q as real) * b as real == x * b as real - q as real * b as real;
    assert ((q + 1) as real - x) * b as real == (q + 1) as real * b as real - x * b as real;
  }

  lemma {:induction false} SameSign(y: real, b: real)
    requires b > 0.0
    ensures y * b >= 0.0 <==> y >= 0.0
    ensures y * b > 0.0 <==> y > 0.0
  {
  }

  /** One block of `print`. */
  method Percentiles(v: seq<int>) returns (r: seq<int>)
    requires v != []
    ensures IsPercentileLine(v, r)
  {
    r := [];
    var i := 0;
    while i < |PERCENTILES|
      invariant 0 <= i <= |PERCENTILES| && |r| == i
      invariant forall j :: 0 <= j < i ==>
        0 <= PercentileIndex(|v|, PERCENTILES[j]) < |v| && r[j] == v[PercentileIndex(|v|, PERCENTILES[j])]
    {
      IndexInRange(|v|, PERCENTILES[i]);
      r := r + [v[PercentileIndex(|v|, PERCENTILES[i])]];
      i := i + 1;
    }
  }

  lemma {:induction false} IndexInRange(n: nat, p: real)
    requires n > 0 && 0.0 <= p < 1.0
    ensures 0 <= PercentileIndex(n, p) < n
  {
    assert n as real * p < n as real * 1.0 by {
      assert n as real * (1.0 - p) > 0.0;
    }
    assert n as real * p >= 0.0;
  }
}
