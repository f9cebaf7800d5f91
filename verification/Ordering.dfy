/** Sorting shared by the report, log and result modules: a stable insertion sort
    standing for the library sorts (std::sort, list.sort), and its properties. */
module Ordering {

  /** `le` is a total preorder on the elements of `xs`. */
  ghost predicate Orders<T>(le: (T, T) -> bool, xs: seq<T>) {
    && (forall a, b :: a in xs && b in xs ==> le(a, b) || le(b, a))
    && (forall a, b, c :: a in xs && b in xs && c in xs && le(a, b) && le(b, c) ==> le(a, c))
  }

  ghost predicate SortedBy<T>(le: (T, T) -> bool, xs: seq<T>) {
    forall i, j :: 0 <= i < j < |xs| ==> le(xs[i], xs[j])
  }

  function Insert<T>(le: (T, T) -> bool, x: T, xs: seq<T>): (r: seq<T>)
    ensures multiset(r) == multiset(xs) + multiset{x}
    ensures |r| == |xs| + 1
  {
    if xs == [] then [x]
    else if le(x, xs[0]) then [x] + xs
    else
      assert xs == [xs[0]] + xs[1..];
      [xs[0]] + Insert(le, x, xs[1..])
  }

  /** Stable: an element never overtakes an equal one that stood before it. */
  function Sort<T>(le: (T, T) -> bool, xs: seq<T>): (r: seq<T>)
    ensures multiset(r) == multiset(xs)
    ensures |r| == |xs|
  {
    if xs == [] then []
    else
      assert xs == [xs[0]] + xs[1..];
      Insert(le, xs[0], Sort(le, xs[1..]))
  }

  lemma {:induction false} SameElements<T>(xs: seq<T>, ys: seq<T>)
    requires multiset(xs) == multiset(ys)
    ensures forall x :: x in xs <==> x in ys
  {
    forall x ensures x in xs <==> x in ys {
      assert x in xs <==> x in multiset(xs);
      assert x in ys <==> x in multiset(ys);
    }
  }

  ghost predicate NoRepeats<T>(s: seq<T>) { forall i, j :: 0 <= i < j < |s| ==> s[i] != s[j] }

  lemma {:induction false} CountedOnce<T>(xs: seq<T>, x: T)
    requires NoRepeats(xs)
    ensures multiset(xs)[x] <= 1
  {
    if xs != [] {
      assert xs == [xs[0]] + xs[1..];
      CountedOnce(xs[1..], x);
      if x == xs[0] {
        assert x !in xs[1..];
      }
    }
  }

  /** A permutation of distinct elements is distinct. */
  lemma {:induction false} PermutedNoRepeats<T>(xs: seq<T>, ys: seq<T>)
    requires NoRepeats(xs) && multiset(xs) == multiset(ys)
    ensures NoRepeats(ys)
  {
    forall i, j | 0 <= i < j < |ys| ensures ys[i] != ys[j] {
      CountedOnce(xs, ys[i]);
      assert ys == ys[..j] + ([ys[j]] + ys[j + 1..]);
      assert ys[i] == ys[..j][i];
      assert ys[i] in multiset(ys[..j]);
    }
  }

  /** Where the first element of `xs` stands in a permutation of `xs`. */
  lemma {:induction false} FirstIn<T>(xs: seq<T>, ys: seq<T>) returns (before: seq<T>, after: seq<T>)
    requires xs != [] && multiset(xs) == multiset(ys)
    ensures ys == before + ([xs[0]] + after)
    ensures multiset(xs[1..]) == multiset(before + after)
    ensures |xs| == |ys| == |before + after| + 1
  {
    assert xs[0] in multiset(xs);
    var i :| 0 <= i < |ys| && ys[i] == xs[0];
    before, after := ys[..i], ys[i + 1..];
    assert ys == before + ([xs[0]] + after);
    assert xs == [xs[0]] + xs[1..];
    assert multiset(ys) - multiset{xs[0]} == multiset(before + after);
    assert multiset(xs) - multiset{xs[0]} == multiset(xs[1..]);
    assert |multiset(xs)| == |xs| && |multiset(ys)| == |ys|;
  }

  lemma {:induction false} OrdersPart<T>(le: (T, T) -> bool, xs: seq<T>, ys: seq<T>)
    requires Orders(le, xs)
    requires multiset(ys) <= multiset(xs)
    ensures Orders(le, ys)
  {
    forall a | a in ys ensures a in xs {
      assert a in multiset(ys);
      assert a in multiset(xs);
    }
  }

  lemma {:induction false} ConsSorted<T>(le: (T, T) -> bool, x: T, xs: seq<T>)
    requires SortedBy(le, xs)
    requires forall y :: y in multiset(xs) ==> le(x, y)
    ensures SortedBy(le, [x] + xs)
  {
    forall j | 0 <= j < |xs| ensures le(x, xs[j]) {
      assert xs[j] in multiset(xs);
    }
  }

  lemma {:induction false} SortedTail<T>(le: (T, T) -> bool, xs: seq<T>)
    requires SortedBy(le, xs) && xs != []
    ensures SortedBy(le, xs[1..])
    ensures forall y :: y in multiset(xs[1..]) ==> le(xs[0], y)
  {
    forall y | y in multiset(xs[1..]) ensures le(xs[0], y) {
      assert y in xs[1..];
      var m :| 0 <= m < |xs[1..]| && xs[1..][m] == y;
      assert le(xs[0], xs[m + 1]);
    }
  }

  lemma {:induction false} InsertSorts<T>(le: (T, T) -> bool, x: T, xs: seq<T>)
    requires Orders(le, [x] + xs)
    requires SortedBy(le, xs)
    ensures SortedBy(le, Insert(le, x, xs))
  {
    if xs == [] {
    } else {
      assert xs == [xs[0]] + xs[1..];
      assert x in [x] + xs && xs[0] in [x] + xs;
      SortedTail(le, xs);
      if le(x, xs[0]) {
        forall y | y in multiset(xs) ensures le(x, y) {
          assert y in [x] + xs;
        }
        ConsSorted(le, x, xs);
      } else {
        OrdersPart(le, [x] + xs, [x] + xs[1..]);
        InsertSorts(le, x, xs[1..]);
        ConsSorted(le, xs[0], Insert(le, x, xs[1..]));
      }
    }
  }

  lemma {:induction false} SortSorts<T>(le: (T, T) -> bool, xs: seq<T>)
    requires Orders(le, xs)
    ensures SortedBy(le, Sort(le, xs))
  {
    if xs != [] {
      assert xs == [xs[0]] + xs[1..];
      OrdersPart(le, xs, xs[1..]);
      SortSorts(le, xs[1..]);
      var tail := Sort(le, xs[1..]);
      OrdersPart(le, xs, [xs[0]] + tail);
      InsertSorts(le, xs[0], tail);
    }
  }

  lemma {:induction false} Associative<T>(a: seq<T>, b: seq<T>, c: seq<T>)
    ensures a + (b + c) == a + b + c
  {
  }

  lemma {:induction false} EmptyPrefix<T>(xs: seq<T>)
    ensures [] + xs == xs
  {
  }

  lemma {:induction false} Overwritten<T>(xs: seq<T>, i: nat, a: T, b: T)
    requires i < |xs|
    ensures xs[i := a][i] == a && xs[i := a][i := b] == xs[i := b]
  {
  }

  lemma {:induction false} LastUpdated<T>(xs: seq<T>, a: T, b: T)
    ensures (xs + [a])[|xs|] == a && (xs + [a])[|xs| := b] == xs + [b]
  {
  }

  function IntLe(): (int, int) -> bool { (a: int, b: int) => a <= b }

  lemma {:induction false} SortInts(xs: seq<int>)
    ensures SortedBy(IntLe(), Sort(IntLe(), xs))
  {
    SortSorts(IntLe(), xs);
  }

  /** Sorted lists of the same numbers are the same. */
  lemma {:induction false} SortedUnique(xs: seq<int>, ys: seq<int>)
    requires multiset(xs) == multiset(ys) && SortedBy(IntLe(), xs) && SortedBy(IntLe(), ys)
    ensures xs == ys
  {
    if xs == [] {
      assert |multiset(ys)| == 0;
    } else {
      SameLength(xs, ys);
      SameElements(xs, ys);
      LeastFirst(xs, ys[0]);
      LeastFirst(ys, xs[0]);
      SameRest(xs, ys);
      SortedTail(IntLe(), xs);
      SortedTail(IntLe(), ys);
      SortedUnique(xs[1..], ys[1..]);
    }
  }

  lemma {:induction false} SameLength<T>(xs: seq<T>, ys: seq<T>)
    requires multiset(xs) == multiset(ys)
    ensures |xs| == |ys|
  {
    assert |multiset(ys)| == |multiset(xs)| == |xs| && |multiset(ys)| == |ys|;
  }

  lemma {:induction false} SameRest(xs: seq<int>, ys: seq<int>)
    requires multiset(xs) == multiset(ys) && xs != [] && ys != [] && xs[0] == ys[0]
    ensures multiset(xs[1..]) == multiset(ys[1..])
    ensures xs[1..] == ys[1..] ==> xs == ys
  {
    assert xs == [xs[0]] + xs[1..] && ys == [ys[0]] + ys[1..];
    assert multiset(xs[1..]) == multiset(xs) - multiset{xs[0]} && multiset(ys[1..]) == multiset(ys) - multiset{ys[0]};
  }

  lemma {:induction false} LeastFirst(xs: seq<int>, x: int)
    requires SortedBy(IntLe(), xs) && x in xs
    ensures xs[0] <= x
  {
    var i :| 0 <= i < |xs| && xs[i] == x;
    assert i > 0 ==> IntLe()(xs[0], xs[i]);
  }

  lemma {:induction false} SortPermuted(xs: seq<int>, ys: seq<int>)
    requires multiset(xs) == multiset(ys)
    ensures Sort(IntLe(), xs) == Sort(IntLe(), ys)
  {
    SortInts(xs);
    SortInts(ys);
    SortedUnique(Sort(IntLe(), xs), Sort(IntLe(), ys));
  }

  function Sum(xs: seq<int>): int {
    if xs == [] then 0 else xs[0] + Sum(xs[1..])
  }

  lemma {:induction false} SumInsert(x: int, xs: seq<int>)
    ensures Sum(Insert(IntLe(), x, xs)) == x + Sum(xs)
  {
    if xs != [] && x > xs[0] {
      SumInsert(x, xs[1..]);
    }
  }

  lemma {:induction false} SumSort(xs: seq<int>)
    ensures Sum(Sort(IntLe(), xs)) == Sum(xs)
  {
    if xs != [] {
      SumSort(xs[1..]);
      SumInsert(xs[0], Sort(IntLe(), xs[1..]));
    }
  }

  lemma {:induction false} SumAppend(xs: seq<int>, ys: seq<int>)
    ensures Sum(xs + ys) == Sum(xs) + Sum(ys)
  {
    if xs == [] {
      assert xs + ys == ys;
    } else {
      assert (xs + ys)[1..] == xs[1..] + ys;
      SumAppend(xs[1..], ys);
    }
  }

  // ---- strings, in code-point order ----

  predicate StringLe(a: string, b: string) {
    if a == "" then true
    else if b == "" then false
    else if a[0] != b[0] then a[0] < b[0]
    else StringLe(a[1..], b[1..])
  }

  lemma {:induction false} StringOrder(a: string, b: string, c: string)
    ensures StringLe(a, b) || StringLe(b, a)
    ensures StringLe(a, b) && StringLe(b, a) ==> a == b
    ensures StringLe(a, b) && StringLe(b, c) ==> StringLe(a, c)
  {
    if a != "" && b != "" && c != "" {
      StringOrder(a[1..], b[1..], c[1..]);
      assert a == [a[0]] + a[1..] && b == [b[0]] + b[1..];
    } else if a != "" && b != "" {
      StringOrder(a[1..], b[1..], c);
      assert a == [a[0]] + a[1..] && b == [b[0]] + b[1..];
    }
  }

  /** The first different characters decide, the lower one first; a string comes before its continuations. */
  lemma {:induction false} StringFirstDifference(p: string, a: string, b: string)
    ensures StringLe(p, p + a)
    ensures a != "" ==> !StringLe(p + a, p)
    ensures a != "" && b != "" && a[0] < b[0] ==> StringLe(p + a, p + b) && !StringLe(p + b, p + a)
  {
    if p == "" {
      assert p + a == a && p + b == b;
    } else {
      assert (p + a)[1..] == p[1..] + a && (p + b)[1..] == p[1..] + b;
      StringFirstDifference(p[1..], a, b);
    }
  }

  // ---- stability ----

  /** Neither comes before the other. */
  predicate Ties<T>(le: (T, T) -> bool, x: T, y: T) { le(x, y) && le(y, x) }

  /** The elements that tie with `y`, in their order. */
  function TiesWith<T>(le: (T, T) -> bool, y: T, xs: seq<T>): seq<T> {
    if xs == [] then [] else (if Ties(le, xs[0], y) then [xs[0]] else []) + TiesWith(le, y, xs[1..])
  }

  ghost predicate Transitive<T(!new)>(le: (T, T) -> bool) { forall a, b, c :: le(a, b) && le(b, c) ==> le(a, c) }

  lemma {:induction false} NotBothTie<T(!new)>(le: (T, T) -> bool, x: T, z: T, y: T)
    requires Transitive(le) && !le(x, z)
    ensures !(Ties(le, x, y) && Ties(le, z, y))
  {
  }

  lemma {:induction false} TiesCons<T>(le: (T, T) -> bool, y: T, x: T, xs: seq<T>)
    ensures TiesWith(le, y, [x] + xs) == if Ties(le, x, y) then [x] + TiesWith(le, y, xs) else TiesWith(le, y, xs)
  {
    assert ([x] + xs)[1..] == xs;
  }

  lemma {:induction false} InsertStable<T(!new)>(le: (T, T) -> bool, x: T, xs: seq<T>, y: T)
    requires Transitive(le)
    ensures TiesWith(le, y, Insert(le, x, xs)) == TiesWith(le, y, [x] + xs)
  {
    if xs == [] {
      assert [x] + xs == [x];
    } else if !le(x, xs[0]) {
      InsertStable(le, x, xs[1..], y);
      NotBothTie(le, x, xs[0], y);
      TiesSwapped(le, x, xs[0], xs[1..], Insert(le, x, xs[1..]), y);
      assert xs == [xs[0]] + xs[1..];
    }
  }

  lemma {:induction false} TiesSwapped<T>(le: (T, T) -> bool, x: T, z: T, xs: seq<T>, more: seq<T>, y: T)
    requires !(Ties(le, x, y) && Ties(le, z, y)) && TiesWith(le, y, more) == TiesWith(le, y, [x] + xs)
    ensures TiesWith(le, y, [z] + more) == TiesWith(le, y, [x] + ([z] + xs))
  {
    TiesCons(le, y, z, more);
    TiesCons(le, y, x, xs);
    TiesCons(le, y, z, xs);
    TiesCons(le, y, x, [z] + xs);
  }

  /** Sorting keeps elements that tie in the order they came. */
  lemma {:induction false} SortStable<T(!new)>(le: (T, T) -> bool, xs: seq<T>, y: T)
    requires Transitive(le)
    ensures TiesWith(le, y, Sort(le, xs)) == TiesWith(le, y, xs)
  {
    if xs != [] {
      SortStable(le, xs[1..], y);
      InsertStable(le, xs[0], Sort(le, xs[1..]), y);
      TiesCons(le, y, xs[0], Sort(le, xs[1..]));
    }
  }
}
