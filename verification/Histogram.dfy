/** The latency histogram of the TPC-C aggregator: bucket counts, merging and percentiles. */
module Histogram {
  import opened Ordering

  // ---- samples and buckets ----

  /** How many boundaries are at most `value`: bisect_right on a sorted list. */
  function BisectRight(bounds: seq<int>, value: int): (r: nat)
    ensures r <= |bounds|
  {
    if bounds == [] then 0
    else BisectRight(bounds[..|bounds| - 1], value) + (if bounds[|bounds| - 1] <= value then 1 else 0)
  }

  /** Bucket i holds the values from boundary i - 1 up to, but not including, boundary i. */
  predicate InBucket(bounds: seq<int>, i: nat, value: int)
    requires i <= |bounds|
  {
    (i > 0 ==> bounds[i - 1] <= value) && (i < |bounds| ==> value < bounds[i])
  }

  lemma {:induction false} AllBelow(bounds: seq<int>, value: int)
    requires forall i :: 0 <= i < |bounds| ==> bounds[i] <= value
    ensures BisectRight(bounds, value) == |bounds|
  {
    if bounds != [] {
      AllBelow(bounds[..|bounds| - 1], value);
    }
  }

  /** Bisection to the right: boundaries up to the value stand before the place found, larger ones from there on. */
  lemma {:induction false} BisectSplits(bounds: seq<int>, value: int, k: nat)
    requires SortedBy(IntLe(), bounds) && k < |bounds|
    ensures k < BisectRight(bounds, value) <==> bounds[k] <= value
  {
    BisectFinds(bounds, value, BisectRight(bounds, value));
    var r := BisectRight(bounds, value);
    assert k < r - 1 ==> IntLe()(bounds[k], bounds[r - 1]);
    assert r < k ==> IntLe()(bounds[r], bounds[k]);
  }

  /** Bisection finds the one bucket of the value. */
  lemma {:induction false} BisectFinds(bounds: seq<int>, value: int, i: nat)
    requires SortedBy(IntLe(), bounds) && i <= |bounds|
    ensures InBucket(bounds, i, value) <==> i == BisectRight(bounds, value)
  {
    if bounds != [] {
      var last := |bounds| - 1;
      if bounds[last] <= value {
        AllBelow(bounds, value);
      } else if i <= last {
        BisectFinds(bounds[..last], value, i);
      }
    }
  }

  lemma {:induction false} BisectMonotone(bounds: seq<int>, a: int, b: int)
    requires a <= b
    ensures BisectRight(bounds, a) <= BisectRight(bounds, b)
  {
    if bounds != [] {
      BisectMonotone(bounds[..|bounds| - 1], a, b);
    }
  }

  /** How many samples fall in bucket i. */
  function CountIn(bounds: seq<int>, samples: seq<int>, i: nat): nat
    requires i <= |bounds|
  {
    if samples == [] then 0
    else (if InBucket(bounds, i, samples[0]) then 1 else 0) + CountIn(bounds, samples[1..], i)
  }

  lemma {:induction false} CountAppend(bounds: seq<int>, xs: seq<int>, ys: seq<int>, i: nat)
    requires i <= |bounds|
    ensures CountIn(bounds, xs + ys, i) == CountIn(bounds, xs, i) + CountIn(bounds, ys, i)
  {
    if xs == [] {
      assert xs + ys == ys;
    } else {
      assert (xs + ys)[1..] == xs[1..] + ys;
      CountAppend(bounds, xs[1..], ys, i);
    }
  }

  /** The bucket counts are those of the samples. */
  ghost predicate Represents(bounds: seq<int>, buckets: seq<nat>, samples: seq<int>) {
    && |buckets| == |bounds| + 1
    && forall i :: 0 <= i < |buckets| ==> buckets[i] == CountIn(bounds, samples, i)
  }

  // ---- filling ----

  function Bumped(bounds: seq<int>, buckets: seq<nat>, value: int): seq<nat>
    requires |buckets| == |bounds| + 1
  {
    var i := BisectRight(bounds, value);
    buckets[i := buckets[i] + 1]
  }

  /** Bucket-wise sums; a shorter list leaves the remaining buckets alone. */
  function Merged(buckets: seq<nat>, other: seq<nat>): (r: seq<nat>)
    requires |other| <= |buckets|
    ensures |r| == |buckets|
    ensures forall i :: 0 <= i < |buckets| ==> r[i] == buckets[i] + (if i < |other| then other[i] else 0)
  {
    if other == [] then buckets
    else
      var last := |other| - 1;
      var rest := Merged(buckets, other[..last]);
      rest[last := rest[last] + other[last]]
  }

  lemma {:induction false} BumpedRepresents(bounds: seq<int>, buckets: seq<nat>, samples: seq<int>, value: int)
    requires SortedBy(IntLe(), bounds) && Represents(bounds, buckets, samples)
    ensures Represents(bounds, Bumped(bounds, buckets, value), samples + [value])
  {
    var bumped := Bumped(bounds, buckets, value);
    forall i | 0 <= i < |bumped| ensures bumped[i] == CountIn(bounds, samples + [value], i) {
      CountAppend(bounds, samples, [value], i);
      BisectFinds(bounds, value, i);
    }
  }

  lemma {:induction false} MergedRepresents(bounds: seq<int>, b1: seq<nat>, s1: seq<int>, b2: seq<nat>, s2: seq<int>)
    requires Represents(bounds, b1, s1) && Represents(bounds, b2, s2)
    ensures Represents(bounds, Merged(b1, b2), s1 + s2)
  {
    forall i | 0 <= i < |b1| ensures Merged(b1, b2)[i] == CountIn(bounds, s1 + s2, i) {
      CountAppend(bounds, s1, s2, i);
    }
  }

  /** What is done to a histogram: one sample is added, or the buckets of other samples are merged. */
  datatype Operation = Add(value: int) | Merge(buckets: seq<nat>, samples: seq<int>)

  predicate Fits(bounds: seq<int>, op: Operation) { op.Merge? ==> |op.buckets| == |bounds| + 1 }

  function Filled(bounds: seq<int>, ops: seq<Operation>): (r: seq<nat>)
    requires forall i :: 0 <= i < |ops| ==> Fits(bounds, ops[i])
    ensures |r| == |bounds| + 1
  {
    if ops == [] then seq(|bounds| + 1, _ => 0)
    else
      assert Fits(bounds, ops[|ops| - 1]);
      var rest := Filled(bounds, ops[..|ops| - 1]);
      match ops[|ops| - 1]
      case Add(value) => Bumped(bounds, rest, value)
      case Merge(buckets, _) => Merged(rest, buckets)
  }

  function Samples(ops: seq<Operation>): seq<int> {
    if ops == [] then []
    else Samples(ops[..|ops| - 1]) + (match ops[|ops| - 1] case Add(value) => [value] case Merge(_, samples) => samples)
  }

  /** After any mix of adds and merges each bucket counts the samples of the union in its range. */
  lemma {:induction false} FilledRepresents(bounds: seq<int>, ops: seq<Operation>)
    requires SortedBy(IntLe(), bounds)
    requires forall i :: 0 <= i < |ops| ==> Fits(bounds, ops[i])
    requires forall i :: 0 <= i < |ops| && ops[i].Merge? ==> Represents(bounds, ops[i].buckets, ops[i].samples)
    ensures Represents(bounds, Filled(bounds, ops), Samples(ops))
  {
    if ops != [] {
      var rest, last := ops[..|ops| - 1], ops[|ops| - 1];
      FilledRepresents(bounds, rest);
      match last
      case Add(value) => BumpedRepresents(bounds, Filled(bounds, rest), Samples(rest), value);
      case Merge(buckets, samples) => MergedRepresents(bounds, Filled(bounds, rest), Samples(rest), buckets, samples);
    }
  }

  // ---- percentiles ----

  function Prefix(buckets: seq<nat>, n: nat): nat
    requires n <= |buckets|
  {
    if n == 0 then 0 else Prefix(buckets, n - 1) + buckets[n - 1]
  }

  /** A hundred times the count that p percent of all samples stand for. */
  function Needed(buckets: seq<nat>, p: real): real { p * Prefix(buckets, |buckets|) as real }

  /** The first n counts together reach it. */
  predicate Reaches(buckets: seq<nat>, n: nat, needed: real)
    requires n <= |buckets|
  {
    Prefix(buckets, n) as real * 100.0 >= needed
  }

  /** The answer names a boundary: the lower one of the bucket, or the first or last boundary for the two ends. */
  datatype Answer = From(bound: int) | Below(bound: int) | AtLeast(bound: int) | DivisionByZero | NoBoundary

  /** The nearest rank of p percent among n samples: the ceiling of p * n / 100. */
  function Rank(n: nat, p: real): int { -((-(p * n as real / 100.0)).Floor) }

  /** k is the ceiling of a hundredth of `needed`. */
  predicate IsRank(k: int, needed: real) { (k - 1) as real * 100.0 < needed <= k as real * 100.0 }

  function CountBelow(bounds: seq<int>, samples: seq<int>, i: nat): nat {
    if samples == [] then 0
    else (if BisectRight(bounds, samples[0]) < i then 1 else 0) + CountBelow(bounds, samples[1..], i)
  }

  lemma {:induction false} CountBelowStep(bounds: seq<int>, samples: seq<int>, i: nat)
    requires SortedBy(IntLe(), bounds) && i <= |bounds|
    ensures CountBelow(bounds, samples, i + 1) == CountBelow(bounds, samples, i) + CountIn(bounds, samples, i)
  {
    if samples != [] {
      BisectFinds(bounds, samples[0], i);
      CountBelowStep(bounds, samples[1..], i);
    }
  }

  lemma {:induction false} NoneBelowZero(bounds: seq<int>, samples: seq<int>)
    ensures CountBelow(bounds, samples, 0) == 0
  {
    if samples != [] {
      NoneBelowZero(bounds, samples[1..]);
    }
  }

  lemma {:induction false} AllBelowEnd(bounds: seq<int>, samples: seq<int>)
    ensures CountBelow(bounds, samples, |bounds| + 1) == |samples|
  {
    if samples != [] {
      AllBelowEnd(bounds, samples[1..]);
    }
  }

  lemma {:induction false} PrefixCounts(bounds: seq<int>, buckets: seq<nat>, samples: seq<int>, n: nat)
    requires SortedBy(IntLe(), bounds) && Represents(bounds, buckets, samples) && n <= |buckets|
    ensures Prefix(buckets, n) == CountBelow(bounds, samples, n)
  {
    if n == 0 {
      NoneBelowZero(bounds, samples);
    } else {
      PrefixCounts(bounds, buckets, samples, n - 1);
      CountBelowStep(bounds, samples, n - 1);
    }
  }

  lemma {:induction false} CountBelowInsert(bounds: seq<int>, x: int, xs: seq<int>, i: nat)
    ensures CountBelow(bounds, Insert(IntLe(), x, xs), i)
         == (if BisectRight(bounds, x) < i then 1 else 0) + CountBelow(bounds, xs, i)
  {
    if xs != [] {
      assert ([x] + xs)[1..] == xs;
      if xs[0] < x {
        CountBelowInsert(bounds, x, xs[1..], i);
        assert ([xs[0]] + Insert(IntLe(), x, xs[1..]))[1..] == Insert(IntLe(), x, xs[1..]);
      }
    }
  }

  lemma {:induction false} CountBelowSort(bounds: seq<int>, samples: seq<int>, i: nat)
    ensures CountBelow(bounds, Sort(IntLe(), samples), i) == CountBelow(bounds, samples, i)
  {
    if samples != [] {
      CountBelowSort(bounds, samples[1..], i);
      CountBelowInsert(bounds, samples[0], Sort(IntLe(), samples[1..]), i);
    }
  }

  /** In sorted order the samples below bucket i come first: element k is below it exactly when more than k are. */
  lemma {:induction false} SortedSplit(bounds: seq<int>, xs: seq<int>, i: nat, k: nat)
    requires SortedBy(IntLe(), xs) && k < |xs|
    ensures BisectRight(bounds, xs[k]) < i <==> k < CountBelow(bounds, xs, i)
  {
    assert IntLe()(xs[0], xs[k]) || k == 0;
    BisectMonotone(bounds, xs[0], xs[k]);
    if k > 0 {
      SortedTail(IntLe(), xs);
      SortedSplit(bounds, xs[1..], i, k - 1);
    } else if BisectRight(bounds, xs[0]) >= i {
      NoneBelow(bounds, xs, i);
    }
    if k > 0 && BisectRight(bounds, xs[0]) >= i {
      NoneBelow(bounds, xs, i);
    }
  }

  lemma {:induction false} NoneBelow(bounds: seq<int>, xs: seq<int>, i: nat)
    requires SortedBy(IntLe(), xs) && xs != [] && BisectRight(bounds, xs[0]) >= i
    ensures CountBelow(bounds, xs, i) == 0
  {
    if |xs| > 1 {
      assert IntLe()(xs[0], xs[1]);
      BisectMonotone(bounds, xs[0], xs[1]);
      SortedTail(IntLe(), xs);
      NoneBelow(bounds, xs[1..], i);
    }
  }

  lemma {:induction false} RankIs(n: nat, p: real)
    requires n > 0 && 0.0 < p <= 100.0
    ensures IsRank(Rank(n, p), p * n as real)
    ensures 0.0 < p * n as real <= 100.0 * n as real
  {
    var x := p * n as real / 100.0;
    assert (-x).Floor as real <= -x < (-x).Floor as real + 1.0;
    assert (100.0 - p) * n as real >= 0.0;
  }

  /** The first bucket at which the counts reach what is needed contains the sample of that rank. */
  lemma {:induction false} PercentileBrackets(bounds: seq<int>, buckets: seq<nat>, samples: seq<int>, needed: real,
                                               i: nat, k: int)
    requires SortedBy(IntLe(), bounds) && Represents(bounds, buckets, samples)
    requires 0.0 < needed <= 100.0 * |samples| as real && IsRank(k, needed)
    requires i <= |bounds| && Reaches(buckets, i + 1, needed) && !Reaches(buckets, i, needed)
    ensures 1 <= k <= |samples| && InBucket(bounds, i, Sort(IntLe(), samples)[k - 1])
  {
    PrefixCounts(bounds, buckets, samples, i);
    PrefixCounts(bounds, buckets, samples, i + 1);
    RankedBucket(bounds, samples, k, i);
  }

  lemma {:induction false} RankedBucket(bounds: seq<int>, samples: seq<int>, k: int, i: nat)
    requires SortedBy(IntLe(), bounds) && i <= |bounds| && 1 <= k <= |samples|
    requires CountBelow(bounds, samples, i) < k <= CountBelow(bounds, samples, i + 1)
    ensures InBucket(bounds, i, Sort(IntLe(), samples)[k - 1])
  {
    CountBelowSort(bounds, samples, i);
    CountBelowSort(bounds, samples, i + 1);
    SortInts(samples);
    RankedInOrder(bounds, Sort(IntLe(), samples), k, i);
  }

  lemma {:induction false} RankedInOrder(bounds: seq<int>, sorted: seq<int>, k: int, i: nat)
    requires SortedBy(IntLe(), bounds) && i <= |bounds| && 1 <= k <= |sorted| && SortedBy(IntLe(), sorted)
    requires CountBelow(bounds, sorted, i) < k <= CountBelow(bounds, sorted, i + 1)
    ensures InBucket(bounds, i, sorted[k - 1])
  {
    SortedSplit(bounds, sorted, i, k - 1);
    SortedSplit(bounds, sorted, i + 1, k - 1);
    BisectFinds(bounds, sorted[k - 1], i);
  }

  // ---- the object ----

  class Aggregated {
    var bucketlist: seq<int>
    var buckets: seq<nat>

    ghost predicate Valid()
      reads this
    {
      SortedBy(IntLe(), bucketlist) && |buckets| == |bucketlist| + 1
    }

    constructor (bounds: seq<int>)
      ensures Valid() && bucketlist == Sort(IntLe(), bounds)
      ensures buckets == Filled(bucketlist, [])
    {
      bucketlist := Sort(IntLe(), bounds);
      buckets := seq(|bounds| + 1, _ => 0);
      new;
      SortInts(bounds);
    }

    /** Exactly the bucket whose range holds the value counts one more; whatever samples the histogram represented, it
        now represents with this one. */
    method Add(value: int)
      requires Valid()
      modifies this`buckets
      ensures Valid()
      ensures exists i :: 0 <= i <= |bucketlist| && InBucket(bucketlist, i, value)
                          && buckets == old(buckets)[i := old(buckets)[i] + 1]
      ensures forall samples :: Represents(bucketlist, old(buckets), samples) ==>
                Represents(bucketlist, buckets, samples + [value])
    {
      var i := BisectRight(bucketlist, value);
      buckets := buckets[i := buckets[i] + 1];
      BisectFinds(bucketlist, value, i);
      forall samples | Represents(bucketlist, old(buckets), samples)
        ensures Represents(bucketlist, buckets, samples + [value])
      {
        BumpedRepresents(bucketlist, old(buckets), samples, value);
      }
    }

    /** False when there is no such bucket. */
    method AddBucket(index: nat, value: nat) returns (ok: bool)
      requires Valid()
      modifies this`buckets
      ensures Valid() && ok == (index < |buckets|)
      ensures buckets == if ok then old(buckets)[index := old(buckets)[index] + value] else old(buckets)
    {
      if index >= |buckets| {
        return false;
      }
      buckets := buckets[index := buckets[index] + value];
      return true;
    }

    /** The merging loop over the buckets of another run; it fails when that run has more buckets, after
        merging those that fit. */
    method MergeBuckets(other: seq<nat>) returns (ok: bool)
      requires Valid()
      modifies this`buckets
      ensures Valid() && ok == (|other| <= |buckets|)
      ensures buckets == Merged(old(buckets), if ok then other else other[..|old(buckets)|])
    {
      var i := 0;
      ok := true;
      while i < |other|
        invariant 0 <= i <= |other| && i <= |buckets| && Valid()
        invariant buckets == Merged(old(buckets), other[..i])
      {
        assert other[..i + 1][..i] == other[..i];
        ok := AddBucket(i, other[i]);
        if !ok {
          return;
        }
        i := i + 1;
      }
      assert other[..i] == other;
    }

    /** The count of the bucket that the value falls in. */
    method Count(value: int) returns (r: nat)
      requires Valid()
      ensures exists i :: 0 <= i <= |bucketlist| && InBucket(bucketlist, i, value) && r == buckets[i]
    {
      var i := BisectRight(bucketlist, value);
      BisectFinds(bucketlist, value, i);
      r := buckets[i];
    }

    method TotalCount() returns (total: nat)
      requires Valid()
      ensures total == Prefix(buckets, |buckets|)
    {
      total := 0;
      var i := 0;
      while i < |buckets|
        invariant 0 <= i <= |buckets| && total == Prefix(buckets, i)
      {
        total := total + buckets[i];
        i := i + 1;
      }
    }

    /** The first bucket at which the counts reach p percent, named by its lower boundary. */
    method Percentile(p: real) returns (r: Answer, ghost bucket: nat)
      requires Valid()
      ensures r.DivisionByZero? <==> Prefix(buckets, |buckets|) == 0
      ensures !r.DivisionByZero? ==>
                && bucket <= |buckets|
                && (forall n :: 0 < n <= bucket ==> !Reaches(buckets, n, Needed(buckets, p)))
                && (bucket < |buckets| ==> Reaches(buckets, bucket + 1, Needed(buckets, p)))
                && r == if bucketlist == [] then NoBoundary
                        else if bucket == 0 then Below(bucketlist[0])
                        else if bucket == |buckets| then AtLeast(bucketlist[|bucketlist| - 1])
                        else From(bucketlist[bucket - 1])
    {
      var total := TotalCount();
      var cumulative := 0;
      bucket := 0;
      if total == 0 {
        return DivisionByZero, 0;
      }
      ghost var needed := Needed(buckets, p);
      var i := 0;
      while i < |buckets|
        invariant 0 <= i <= |buckets| && cumulative == Prefix(buckets, i)
        invariant forall n :: 0 < n <= i ==> !Reaches(buckets, n, needed)
      {
        cumulative := cumulative + buckets[i];
        var enough := FractionReaches(cumulative, total, p);
        if enough {
          if i != 0 {
            return From(bucketlist[i - 1]), i;
          }
          return if bucketlist == [] then NoBoundary else Below(bucketlist[0]), 0;
        }
        i := i + 1;
      }
      return if bucketlist == [] then NoBoundary else AtLeast(bucketlist[|bucketlist| - 1]), i;
    }
  }

  /** The comparison of quotients in the loop. */
  method FractionReaches(cumulative: nat, total: nat, p: real) returns (r: bool)
    requires total > 0
    ensures r <==> cumulative as real * 100.0 >= p * total as real
  {
    QuotientReaches(cumulative, total, p);
    r := cumulative as real / total as real >= p / 100.0;
  }

  lemma {:induction false} QuotientReaches(cumulative: nat, total: nat, p: real)
    requires total > 0
    ensures cumulative as real / total as real >= p / 100.0 <==> cumulative as real * 100.0 >= p * total as real
  {
    var t := total as real;
    var q := cumulative as real / t;
    assert q * t == cumulative as real;
    if q >= p / 100.0 {
      assert q * t >= p / 100.0 * t;
    } else {
      assert q * t < p / 100.0 * t;
    }
    assert p / 100.0 * t * 100.0 == p * t;
  }

  /** What is needed lies within what is there, and its rank is the rank of p. */
  lemma {:induction false} NeededIsThere(bounds: seq<int>, buckets: seq<nat>, samples: seq<int>, p: real)
    requires SortedBy(IntLe(), bounds) && Represents(bounds, buckets, samples)
    requires samples != [] && 0.0 < p <= 100.0
    ensures Prefix(buckets, |buckets|) == |samples|
    ensures 0.0 < Needed(buckets, p) <= 100.0 * |samples| as real
    ensures IsRank(Rank(|samples|, p), Needed(buckets, p))
    ensures Reaches(buckets, |buckets|, Needed(buckets, p)) && !Reaches(buckets, 0, Needed(buckets, p))
  {
    AllCounted(bounds, buckets, samples);
    RankIs(|samples|, p);
    assert Needed(buckets, p) == p * |samples| as real;
  }

  lemma {:induction false} AllCounted(bounds: seq<int>, buckets: seq<nat>, samples: seq<int>)
    requires SortedBy(IntLe(), bounds) && Represents(bounds, buckets, samples)
    ensures Prefix(buckets, |buckets|) == |samples| && Prefix(buckets, 0) == 0
  {
    AllBelowEnd(bounds, samples);
    PrefixCounts(bounds, buckets, samples, |buckets|);
  }

  /** The answer names the lower boundary of the bucket that `x` is in, or the first boundary above it. */
  ghost predicate Locates(bounds: seq<int>, r: Answer, x: int) {
    match r
    case Below(b) => bounds != [] && b == bounds[0] && x < b
    case From(b) => exists i :: 0 <= i < |bounds| && bounds[i] == b && InBucket(bounds, i + 1, x)
    case _ => false
  }

  /** What `percentile` answers for the samples of any mix of adds and merges locates the sample of nearest rank. */
  method PercentileOf(h: Aggregated, samples: seq<int>, p: real) returns (r: Answer)
    requires h.Valid() && Represents(h.bucketlist, h.buckets, samples)
    requires samples != [] && 0.0 < p <= 100.0 && h.bucketlist != []
    ensures 1 <= Rank(|samples|, p) <= |samples| == |Sort(IntLe(), samples)|
    ensures Locates(h.bucketlist, r, Sort(IntLe(), samples)[Rank(|samples|, p) - 1])
  {
    ghost var bucket;
    r, bucket := h.Percentile(p);
    NeededIsThere(h.bucketlist, h.buckets, samples, p);
    BracketsLocate(h.bucketlist, h.buckets, samples, Needed(h.buckets, p), bucket, Rank(|samples|, p), r);
  }

  lemma {:induction false} BracketsLocate(bounds: seq<int>, buckets: seq<nat>, samples: seq<int>, needed: real,
                                          bucket: nat, k: int, r: Answer)
    requires SortedBy(IntLe(), bounds) && Represents(bounds, buckets, samples) && bounds != []
    requires 0.0 < needed <= 100.0 * |samples| as real && IsRank(k, needed)
    requires Reaches(buckets, |buckets|, needed) && !Reaches(buckets, 0, needed)
    requires bucket <= |buckets| && (forall n :: 0 < n <= bucket ==> !Reaches(buckets, n, needed))
    requires bucket < |buckets| ==> Reaches(buckets, bucket + 1, needed)
    requires bucket < |buckets| ==> r == if bucket == 0 then Below(bounds[0]) else From(bounds[bucket - 1])
    ensures 1 <= k <= |samples| && Locates(bounds, r, Sort(IntLe(), samples)[k - 1])
  {
    assert bucket < |buckets|;
    PercentileBrackets(bounds, buckets, samples, needed, bucket, k);
    if bucket > 0 {
      assert bounds[bucket - 1] == r.bound;
    }
  }
}
