/** A stable sort by a comparison, and the code-point order of strings. */
module Sorting {
  import opened Common

  ghost predicate TotalPreorder<T(!new)>(leq: (T, T) -> bool) {
    && (forall x, y :: leq(x, y) || leq(y, x))
    && forall x, y, z :: leq(x, y) && leq(y, z) ==> leq(x, z)
  }

  ghost predicate SortedBy<T>(xs: seq<T>, leq: (T, T) -> bool) {
    forall i, j :: 0 <= i < j < |xs| ==> leq(xs[i], xs[j])
  }

  /** Place `x` after every element it does not precede. */
  function Insert<T>(x: T, xs: seq<T>, leq: (T, T) -> bool): (r: seq<T>)
    ensures |r| == |xs| + 1 && multiset(r) == multiset(xs) + multiset{x}
  {
    if xs == [] then [x]
    else if leq(xs[0], x) then
      var r := [xs[0]] + Insert(x, xs[1..], leq);
      assert xs == [xs[0]] + xs[1..];
      r
    else [x] + xs
  }

  /** `sorted(xs, key=...)`. */
  function Sort<T>(xs: seq<T>, leq: (T, T) -> bool): (r: seq<T>)
    ensures |r| == |xs| && multiset(r) == multiset(xs)
  {
    if xs == [] then []
    else
      assert xs == xs[..|xs| - 1] + [xs[|xs| - 1]];
      Insert(xs[|xs| - 1], Sort(xs[..|xs| - 1], leq), leq)
  }

  lemma {:induction false} InsertSorts<T(!new)>(x: T, xs: seq<T>, leq: (T, T) -> bool)
    requires TotalPreorder(leq) && SortedBy(xs, leq)
    ensures SortedBy(Insert(x, xs, leq), leq)
  {
    if xs != [] && leq(xs[0], x) {
      InsertSorts(x, xs[1..], leq);
      var rest := Insert(x, xs[1..], leq);
      forall j | 0 <= j < |rest| ensures leq(xs[0], rest[j]) {
        assert rest[j] in multiset(rest);
        assert rest[j] == x || rest[j] in multiset(xs[1..]);
      }
    }
  }

  lemma {:induction false} SortSorts<T(!new)>(xs: seq<T>, leq: (T, T) -> bool)
    requires TotalPreorder(leq)
    ensures SortedBy(Sort(xs, leq), leq)
  {
    if xs != [] {
      SortSorts(xs[..|xs| - 1], leq);
      InsertSorts(xs[|xs| - 1], Sort(xs[..|xs| - 1], leq), leq);
    }
  }

  lemma SortKeepsMembers<T>(xs: seq<T>, leq: (T, T) -> bool)
    ensures forall x :: x in Sort(xs, leq) <==> x in xs
  {
    forall x ensures x in Sort(xs, leq) <==> x in xs {
      assert x in Sort(xs, leq) <==> x in multiset(Sort(xs, leq));
      assert x in xs <==> x in multiset(xs);
    }
  }

  /** Elements that were distinct stay distinct. */
  lemma SortKeepsDistinct<T>(xs: seq<T>, leq: (T, T) -> bool)
    requires Distinct(xs)
    ensures Distinct(Sort(xs, leq))
  {
    var r := Sort(xs, leq);
    DistinctCounts(xs);
    forall i, j | 0 <= i < j < |r| ensures r[i] != r[j] {
      if r[i] == r[j] {
        TwiceCounts(r, i, j);
      }
    }
  }

  lemma {:induction false} DistinctCounts<T>(xs: seq<T>)
    requires Distinct(xs)
    ensures forall x :: multiset(xs)[x] <= 1
  {
    if xs != [] {
      DistinctCounts(xs[1..]);
      assert xs == [xs[0]] + xs[1..];
      assert xs[0] !in multiset(xs[1..]);
    }
  }

  lemma TwiceCounts<T>(xs: seq<T>, i: nat, j: nat)
    requires i < j < |xs| && xs[i] == xs[j]
    ensures multiset(xs)[xs[i]] >= 2
  {
    assert xs == xs[..i] + [xs[i]] + xs[i + 1..j] + [xs[j]] + xs[j + 1..];
  }

  // ----- strings

  /** Python's `<=` on strings. */
  predicate StringLeq(a: string, b: string) {
    a == "" || (b != "" && (a[0] < b[0] || (a[0] == b[0] && StringLeq(a[1..], b[1..]))))
  }

  lemma {:induction false} StringTotal(a: string, b: string)
    ensures StringLeq(a, b) || StringLeq(b, a)
    ensures StringLeq(a, b) && StringLeq(b, a) ==> a == b
  {
    if a != "" && b != "" {
      StringTotal(a[1..], b[1..]);
      assert a == [a[0]] + a[1..] && b == [b[0]] + b[1..];
    }
  }

  lemma {:induction false} StringTransitive(a: string, b: string, c: string)
    requires StringLeq(a, b) && StringLeq(b, c)
    ensures StringLeq(a, c)
  {
    if a != "" && a[0] == b[0] == c[0] {
      StringTransitive(a[1..], b[1..], c[1..]);
    }
  }

  lemma {:induction false} InsertLast<T>(x: T, xs: seq<T>, leq: (T, T) -> bool)
    requires forall i :: 0 <= i < |xs| ==> leq(xs[i], x)
    ensures Insert(x, xs, leq) == xs + [x]
  {
    if xs != [] {
      InsertLast(x, xs[1..], leq);
      assert xs == [xs[0]] + xs[1..];
    }
  }

  /** Sorting is stable: what is in order already is left alone. */
  lemma {:induction false} SortedIsFixed<T>(xs: seq<T>, leq: (T, T) -> bool)
    requires SortedBy(xs, leq)
    ensures Sort(xs, leq) == xs
  {
    if xs != [] {
      var n := |xs| - 1;
      SortedIsFixed(xs[..n], leq);
      InsertLast(xs[n], xs[..n], leq);
      assert xs == xs[..n] + [xs[n]];
    }
  }
}
