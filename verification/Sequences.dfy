/** Facts about sequences that the scanner and the discovery code share: flat-mapping under
    permutation, first-occurrence deduplication, and the stable sort behind `sort_by_key`. */
module Sequences {

  /** Flat-map, in order. */
  function Collect<T, U>(f: T -> seq<U>, s: seq<T>): seq<U>
  {
    if s == [] then [] else Collect(f, s[..|s| - 1]) + f(s[|s| - 1])
  }

  lemma {:induction false} CollectConcat<T, U>(f: T -> seq<U>, s: seq<T>, t: seq<T>)
    ensures Collect(f, s + t) == Collect(f, s) + Collect(f, t)
    decreases |t|
  {
    if t == [] {
      assert s + t == s;
    } else {
      var n := |t| - 1;
      CollectConcat(f, s, t[..n]);
      assert (s + t)[..|s + t| - 1] == s + t[..n];
    }
  }

  /** Flat-mapping fewer elements yields fewer values, whatever the order. */
  lemma {:induction false} CollectMonotone<T, U>(f: T -> seq<U>, a: seq<T>, b: seq<T>)
    requires multiset(a) <= multiset(b)
    ensures multiset(Collect(f, a)) <= multiset(Collect(f, b))
    decreases |a|
  {
    if a != [] {
      var n := |a| - 1;
      var x := a[n];
      assert a == a[..n] + [x];
      assert x in multiset(a) && x in multiset(b);
      var j :| 0 <= j < |b| && b[j] == x;
      assert b == b[..j] + ([x] + b[j + 1..]);
      assert multiset(a[..n]) == multiset(a) - multiset{x};
      assert multiset(b[..j] + b[j + 1..]) == multiset(b) - multiset{x};
      CollectMonotone(f, a[..n], b[..j] + b[j + 1..]);
      CollectConcat(f, b[..j], b[j + 1..]);
      CollectConcat(f, b[..j], [x] + b[j + 1..]);
      CollectConcat(f, [x], b[j + 1..]);
      assert Collect(f, [x]) == f(x);
    }
  }

  /** Flat-mapping a permutation yields a permutation. */
  lemma CollectPermutation<T, U>(f: T -> seq<U>, a: seq<T>, b: seq<T>)
    requires multiset(a) == multiset(b)
    ensures multiset(Collect(f, a)) == multiset(Collect(f, b))
  {
    CollectMonotone(f, a, b);
    CollectMonotone(f, b, a);
  }

  ghost predicate Distinct<T>(s: seq<T>)
  {
    forall i, j :: 0 <= i < j < |s| ==> s[i] != s[j]
  }

  lemma DistinctAppend<T>(s: seq<T>, x: T)
    requires Distinct(s) && x !in s
    ensures Distinct(s + [x])
  {
  }

  lemma DistinctLast<T>(s: seq<T>, x: T)
    requires Distinct(s + [x])
    ensures Distinct(s) && x !in s
  {
    var all := s + [x];
    assert forall i :: 0 <= i < |s| ==> all[i] == s[i] && all[i] != all[|s|];
  }

  lemma {:induction false} DistinctCounts<T>(s: seq<T>, x: T)
    requires Distinct(s)
    ensures multiset(s)[x] == if x in s then 1 else 0
  {
    if s != [] {
      var n := |s| - 1;
      assert s == s[..n] + [s[n]];
      DistinctCounts(s[..n], x);
    }
  }

  /** A duplicate-free sequence is, up to order, contained in any sequence with its elements. */
  lemma DistinctContained<T>(a: seq<T>, b: seq<T>)
    requires Distinct(a)
    requires forall x :: x in a ==> x in b
    ensures multiset(a) <= multiset(b)
  {
    forall x: T ensures multiset(a)[x] <= multiset(b)[x] {
      DistinctCounts(a, x);
      assert x in b <==> x in multiset(b);
    }
  }

  /** A duplicate-free sequence drawn from a finite set is no longer than the set. */
  lemma {:induction false} DistinctBounded<T>(s: seq<T>, universe: set<T>)
    requires Distinct(s)
    requires forall x :: x in s ==> x in universe
    ensures |s| <= |universe|
  {
    if s != [] {
      var n := |s| - 1;
      assert s[n] in s;
      DistinctBounded(s[..n], universe - {s[n]});
    }
  }

  /** The naturals below `n`. */
  ghost function Below(n: nat): (r: set<nat>)
    ensures |r| == n && forall w: nat :: w in r <==> w < n
  {
    if n == 0 then {} else Below(n - 1) + {n - 1}
  }

  /** Distinct naturals below `n` that avoid one of them number at most `n - 1`. */
  lemma DistinctBelow(s: seq<nat>, n: nat, avoided: nat)
    requires Distinct(s) && avoided < n && avoided !in s
    requires forall w :: w in s ==> w < n
    ensures |s| <= n - 1
  {
    DistinctBounded(s, Below(n) - {avoided});
  }

  /** Selecting at most one value per element, never the same value twice, selects distinct values. */
  lemma {:induction false} CollectDistinct<T, U>(f: T -> seq<U>, s: seq<T>)
    requires forall i :: 0 <= i < |s| ==> |f(s[i])| <= 1
    requires forall i, j :: 0 <= i < j < |s| && f(s[i]) != [] && f(s[j]) != [] ==> f(s[i])[0] != f(s[j])[0]
    ensures Distinct(Collect(f, s))
  {
    if s != [] {
      var n := |s| - 1;
      assert forall i :: 0 <= i < n ==> s[..n][i] == s[i];
      CollectDistinct(f, s[..n]);
      if f(s[n]) != [] && f(s[n])[0] in Collect(f, s[..n]) {
        var _ := CollectSource(f, s[..n], f(s[n])[0]);
        assert false;
      }
    }
  }

  /** Every collected value comes from some element. */
  lemma {:induction false} CollectSource<T, U>(f: T -> seq<U>, s: seq<T>, u: U) returns (i: nat)
    requires u in Collect(f, s)
    ensures i < |s| && u in f(s[i])
  {
    i := |s| - 1;
    if u !in f(s[i]) {
      i := CollectSource(f, s[..i], u);
    }
  }

  lemma {:induction false} CollectReaches<T, U>(f: T -> seq<U>, s: seq<T>, i: nat, u: U)
    requires i < |s| && u in f(s[i])
    ensures u in Collect(f, s)
  {
    if i < |s| - 1 {
      CollectReaches(f, s[..|s| - 1], i, u);
    }
  }

  lemma CollectOne<T, U>(f: T -> seq<U>, x: T)
    ensures Collect(f, [x]) == f(x)
  {
    assert [x][..0] == [] && [] + f(x) == f(x);
  }

  lemma CollectTwo<T, U>(f: T -> seq<U>, x: T, y: T)
    ensures Collect(f, [x, y]) == f(x) + f(y)
  {
    CollectOne(f, x);
    assert [x, y][..1] == [x];
  }

  // ---- Sums ----

  function Sum<T>(f: T -> nat, s: seq<T>): nat {
    if s == [] then 0 else Sum(f, s[..|s| - 1]) + f(s[|s| - 1])
  }

  lemma {:induction false} SumUpdate<T>(f: T -> nat, s: seq<T>, i: nat, x: T)
    requires i < |s|
    ensures Sum(f, s[i := x]) + f(s[i]) == Sum(f, s) + f(x)
  {
    var n := |s| - 1;
    if i < n {
      SumUpdate(f, s[..n], i, x);
      assert s[i := x][..n] == s[..n][i := x];
    } else {
      assert s[i := x][..n] == s[..n];
    }
  }

  lemma SumAppend<T>(f: T -> nat, s: seq<T>, x: T)
    ensures Sum(f, s + [x]) == Sum(f, s) + f(x)
  {
    assert (s + [x])[..|s|] == s;
  }

  lemma {:induction false} SumConcat<T>(f: T -> nat, s: seq<T>, t: seq<T>)
    ensures Sum(f, s + t) == Sum(f, s) + Sum(f, t)
    decreases |t|
  {
    if t == [] {
      assert s + t == s;
    } else {
      var n := |t| - 1;
      SumConcat(f, s, t[..n]);
      assert (s + t)[..|s + t| - 1] == s + t[..n];
    }
  }

  lemma {:induction false} SumMonotone<T>(f: T -> nat, g: T -> nat, s: seq<T>)
    requires forall i :: 0 <= i < |s| ==> f(s[i]) <= g(s[i])
    ensures Sum(f, s) <= Sum(g, s)
  {
    if s != [] {
      SumMonotone(f, g, s[..|s| - 1]);
    }
  }

  lemma {:induction false} SumBounded<T>(f: T -> nat, s: seq<T>, bound: nat)
    requires forall i :: 0 <= i < |s| ==> f(s[i]) <= bound
    ensures Sum(f, s) <= bound * |s|
  {
    if s != [] {
      var n := |s| - 1;
      SumBounded(f, s[..n], bound);
      assert bound * |s| == bound * n + bound;
    }
  }

  // ---- First occurrences ----

  /** The elements of `s`, each kept at its first occurrence only. */
  function FirstOccurrences<T(==)>(s: seq<T>): (r: seq<T>)
  {
    if s == [] then []
    else
      var front := FirstOccurrences(s[..|s| - 1]);
      if s[|s| - 1] in s[..|s| - 1] then front else front + [s[|s| - 1]]
  }

  lemma {:induction false} FirstOccurrencesElements<T>(s: seq<T>)
    ensures forall x :: x in FirstOccurrences(s) <==> x in s
    ensures Distinct(FirstOccurrences(s))
  {
    if s != [] {
      var n := |s| - 1;
      FirstOccurrencesElements(s[..n]);
      assert s == s[..n] + [s[n]];
    }
  }

  /** What follows a sequence sees only the first occurrences in it. */
  lemma {:induction false} FirstOccurrencesCongruence<T>(a: seq<T>, b: seq<T>, tail: seq<T>)
    requires FirstOccurrences(a) == FirstOccurrences(b)
    ensures FirstOccurrences(a + tail) == FirstOccurrences(b + tail)
    decreases |tail|
  {
    if tail == [] {
      assert a + tail == a && b + tail == b;
    } else {
      var n := |tail| - 1;
      FirstOccurrencesCongruence(a, b, tail[..n]);
      assert (a + tail)[..|a + tail| - 1] == a + tail[..n];
      assert (b + tail)[..|b + tail| - 1] == b + tail[..n];
      FirstOccurrencesElements(a + tail[..n]);
      FirstOccurrencesElements(b + tail[..n]);
      assert tail[n] in a + tail[..n] <==> tail[n] in b + tail[..n];
    }
  }

  /** Elements already seen add nothing. */
  lemma {:induction false} FirstOccurrencesAbsorb<T>(a: seq<T>, b: seq<T>)
    requires forall x :: x in b ==> x in a
    ensures FirstOccurrences(a + b) == FirstOccurrences(a)
    decreases |b|
  {
    if b == [] {
      assert a + b == a;
    } else {
      var n := |b| - 1;
      assert forall x :: x in b[..n] ==> x in b;
      FirstOccurrencesAbsorb(a, b[..n]);
      assert (a + b)[..|a + b| - 1] == a + b[..n];
      assert b[n] in b;
    }
  }

  /** `x` occurs in `s` before `y` first does. */
  ghost predicate Before<T>(s: seq<T>, x: T, y: T) {
    exists a :: 0 <= a < |s| && s[a] == x && y !in s[..a + 1]
  }

  /** The elements of `r` are in the order of their first occurrences in `s`. */
  ghost predicate InOrder<T>(s: seq<T>, r: seq<T>) {
    forall i, j :: 0 <= i < j < |r| ==> Before(s, r[i], r[j])
  }

  lemma {:induction false} FirstOccurrencesInOrder<T>(s: seq<T>)
    ensures InOrder(s, FirstOccurrences(s))
  {
    if s != [] {
      var n := |s| - 1;
      FirstOccurrencesInOrder(s[..n]);
      var r := FirstOccurrences(s);
      forall i, j | 0 <= i < j < |r| ensures Before(s, r[i], r[j]) {
        var front := FirstOccurrences(s[..n]);
        assert r[i] == front[i] && front[i] in front;
        KeptOccurs(s[..n], front[i]);
        if j < |front| {
          assert r[j] == front[j];
          assert Before(s[..n], front[i], front[j]);
          BeforeExtends(s, n, r[i], r[j]);
        } else {
          var a :| 0 <= a < n && s[..n][a] == r[i];
          assert r[j] == s[n] && forall b :: 0 <= b < n ==> s[..n][b] == s[b] != s[n];
        }
      }
    }
  }

  lemma KeptOccurs<T>(s: seq<T>, x: T)
    requires x in FirstOccurrences(s)
    ensures x in s
  {
    FirstOccurrencesElements(s);
  }

  lemma BeforeExtends<T>(s: seq<T>, n: nat, x: T, y: T)
    requires n <= |s| && Before(s[..n], x, y)
    ensures Before(s, x, y)
  {
    var a :| 0 <= a < n && s[..n][a] == x && y !in s[..n][..a + 1];
    assert s[..n][..a + 1] == s[..a + 1];
  }

  lemma TwoFirsts<T>(x: T, y: T)
    requires x != y
    ensures FirstOccurrences([x, y]) == [x, y]
  {
    assert [x, y][..1] == [x] && [x][..0] == [];
    assert FirstOccurrences([x]) == [x];
  }

  // ---- Stable sorting ----

  ghost predicate TotalPreorder<T(!new)>(leq: (T, T) -> bool)
  {
    && (forall x, y :: leq(x, y) || leq(y, x))
    && (forall x, y, z :: leq(x, y) && leq(y, z) ==> leq(x, z))
  }

  ghost predicate Antisymmetric<T(!new)>(leq: (T, T) -> bool)
  {
    forall x, y :: leq(x, y) && leq(y, x) ==> x == y
  }

  ghost predicate Sorted<T>(leq: (T, T) -> bool, s: seq<T>)
  {
    forall i, j :: 0 <= i < j < |s| ==> leq(s[i], s[j])
  }

  /** Insert `x` behind every element that does not exceed it. */
  function Insert<T>(leq: (T, T) -> bool, s: seq<T>, x: T): seq<T>
  {
    if s == [] then [x]
    else if leq(s[|s| - 1], x) then s + [x]
    else Insert(leq, s[..|s| - 1], x) + [s[|s| - 1]]
  }

  /** The stable sort of `s`: later elements go behind earlier ones of the same rank. */
  function StableSort<T>(leq: (T, T) -> bool, s: seq<T>): seq<T>
  {
    if s == [] then [] else Insert(leq, StableSort(leq, s[..|s| - 1]), s[|s| - 1])
  }

  lemma {:induction false} InsertElements<T>(leq: (T, T) -> bool, s: seq<T>, x: T)
    ensures multiset(Insert(leq, s, x)) == multiset(s) + multiset{x}
  {
    if s != [] && !leq(s[|s| - 1], x) {
      var n := |s| - 1;
      assert s == s[..n] + [s[n]];
      InsertElements(leq, s[..n], x);
    }
  }

  lemma InsertedFrom<T>(leq: (T, T) -> bool, s: seq<T>, x: T, i: nat)
    requires i < |Insert(leq, s, x)|
    ensures Insert(leq, s, x)[i] in s || Insert(leq, s, x)[i] == x
  {
    InsertElements(leq, s, x);
    hide Insert;
    assert Insert(leq, s, x)[i] in multiset(Insert(leq, s, x));
  }

  lemma {:induction false} InsertSorted<T(!new)>(leq: (T, T) -> bool, s: seq<T>, x: T)
    requires TotalPreorder(leq) && Sorted(leq, s)
    ensures Sorted(leq, Insert(leq, s, x))
  {
    if s != [] && !leq(s[|s| - 1], x) {
      var n := |s| - 1;
      InsertSorted(leq, s[..n], x);
      var r := Insert(leq, s[..n], x);
      forall i | 0 <= i < |r| ensures leq(r[i], s[n]) {
        InsertedFrom(leq, s[..n], x, i);
      }
    }
  }

  lemma {:induction false} StableSortSorts<T(!new)>(leq: (T, T) -> bool, s: seq<T>)
    requires TotalPreorder(leq)
    ensures Sorted(leq, StableSort(leq, s))
    ensures multiset(StableSort(leq, s)) == multiset(s)
  {
    if s != [] {
      var n := |s| - 1;
      assert s == s[..n] + [s[n]];
      StableSortSorts(leq, s[..n]);
      InsertSorted(leq, StableSort(leq, s[..n]), s[n]);
      InsertElements(leq, StableSort(leq, s[..n]), s[n]);
    }
  }

  /** Sorting is idempotent, and re-sorting after an append equals sorting the longer sequence. */
  lemma {:induction false} StableSortIncremental<T(!new)>(leq: (T, T) -> bool, s: seq<T>, x: T)
    requires TotalPreorder(leq)
    ensures StableSort(leq, StableSort(leq, s) + [x]) == StableSort(leq, s + [x])
  {
    var sorted := StableSort(leq, s);
    StableSortSorts(leq, s);
    StableSortFixpoint(leq, sorted);
    assert (s + [x])[..|s|] == s;
    assert (sorted + [x])[..|sorted|] == sorted;
  }

  lemma {:induction false} StableSortFixpoint<T(!new)>(leq: (T, T) -> bool, s: seq<T>)
    requires Sorted(leq, s)
    ensures StableSort(leq, s) == s
  {
    if s != [] {
      var n := |s| - 1;
      StableSortFixpoint(leq, s[..n]);
      assert s == s[..n] + [s[n]];
    }
  }

  /** Everything in `low` ranks at or below `x`, everything in `high` above it. */
  lemma {:induction false} InsertBetween<T>(leq: (T, T) -> bool, low: seq<T>, high: seq<T>, x: T)
    requires forall y :: y in low ==> leq(y, x)
    requires forall y :: y in high ==> !leq(y, x)
    ensures Insert(leq, low + high, x) == low + [x] + high
    decreases |high|
  {
    if high == [] {
      assert low + high == low;
    } else {
      var n := |high| - 1;
      assert (low + high)[..|low + high| - 1] == low + high[..n];
      assert high[n] in high;
      InsertBetween(leq, low, high[..n], x);
    }
  }

  lemma SortedLastIsGreatest<T(!new)>(leq: (T, T) -> bool, s: seq<T>, x: T)
    requires TotalPreorder(leq) && Sorted(leq, s) && x in s
    ensures leq(x, s[|s| - 1])
  {
    assert leq(x, x);
  }

  lemma WithoutLast<T>(s: seq<T>)
    requires s != []
    ensures multiset(s[..|s| - 1]) == multiset(s) - multiset{s[|s| - 1]}
  {
    assert s == s[..|s| - 1] + [s[|s| - 1]];
  }

  lemma SortedLastAgrees<T(!new)>(leq: (T, T) -> bool, a: seq<T>, b: seq<T>)
    requires TotalPreorder(leq) && Antisymmetric(leq)
    requires Sorted(leq, a) && Sorted(leq, b) && a != [] && b != []
    requires multiset(a) == multiset(b)
    ensures a[|a| - 1] == b[|b| - 1]
  {
    var x, y := a[|a| - 1], b[|b| - 1];
    assert x in multiset(a) && y in multiset(b);
    assert x in b && y in a;
    SortedLastIsGreatest(leq, b, x);
    SortedLastIsGreatest(leq, a, y);
  }

  lemma SameSize<T>(a: seq<T>, b: seq<T>)
    requires multiset(a) == multiset(b)
    ensures |a| == |b|
  {
    assert |multiset(a)| == |a| && |multiset(b)| == |b|;
  }

  lemma SortedFront<T(!new)>(leq: (T, T) -> bool, s: seq<T>)
    requires Sorted(leq, s) && s != []
    ensures Sorted(leq, s[..|s| - 1]) && s == s[..|s| - 1] + [s[|s| - 1]]
  {
  }

  /** Under an antisymmetric order a multiset has one sorted arrangement. */
  lemma {:induction false} SortedUnique<T(!new)>(leq: (T, T) -> bool, a: seq<T>, b: seq<T>)
    requires TotalPreorder(leq) && Antisymmetric(leq)
    requires Sorted(leq, a) && Sorted(leq, b)
    requires multiset(a) == multiset(b)
    ensures a == b
  {
    hide TotalPreorder, Antisymmetric, Sorted;
    SameSize(a, b);
    if a != [] {
      var n := |a| - 1;
      SortedLastAgrees(leq, a, b);
      SortedFront(leq, a);
      SortedFront(leq, b);
      WithoutLast(a);
      WithoutLast(b);
      SortedUnique(leq, a[..n], b[..n]);
    }
  }
}
