/** Ordered listings of a table: what `Model.objects.all()` returns under a
    `Meta.ordering`, and the `filter(...)` / `first()` operations on it. A
    table's rows are a finite set; a listing is the unique sequence that
    holds each row once, in strictly increasing order. */
module Listing {
  import opened Values

  ghost predicate Irreflexive<T(!new)>(xs: set<T>, lt: (T, T) -> bool) {
    forall x :: x in xs ==> !lt(x, x)
  }

  ghost predicate Transitive<T(!new)>(xs: set<T>, lt: (T, T) -> bool) {
    forall x, y, z :: x in xs && y in xs && z in xs && lt(x, y) && lt(y, z) ==> lt(x, z)
  }

  ghost predicate Connected<T(!new)>(xs: set<T>, lt: (T, T) -> bool) {
    forall x, y :: x in xs && y in xs && x != y ==> lt(x, y) || lt(y, x)
  }

  /** `lt` orders the rows `xs` strictly and totally. */
  ghost predicate StrictTotalOn<T(!new)>(xs: set<T>, lt: (T, T) -> bool) {
    Irreflexive(xs, lt) && Transitive(xs, lt) && Connected(xs, lt)
  }

  /** `m` comes before every other row of `xs`. */
  predicate IsLeast<T(!new)>(m: T, xs: set<T>, lt: (T, T) -> bool) {
    m in xs && forall y :: y in xs && y != m ==> lt(m, y)
  }

  /** Every element of `s` comes before every later one. */
  ghost predicate Sorted<T>(s: seq<T>, lt: (T, T) -> bool) {
    forall i, j :: 0 <= i < j < |s| ==> lt(s[i], s[j])
  }

  /** `s` lists exactly the rows `xs`, each once, in order. */
  ghost predicate ListsInOrder<T(!new)>(s: seq<T>, xs: set<T>, lt: (T, T) -> bool) {
    |s| == |xs| && (forall x :: x in s <==> x in xs) && Sorted(s, lt)
  }

  lemma StrictTotalOnSubset<T(!new)>(xs: set<T>, ys: set<T>, lt: (T, T) -> bool)
    requires StrictTotalOn(xs, lt) && ys <= xs
    ensures StrictTotalOn(ys, lt)
  {
  }

  /** A finite, non-empty, totally ordered set of rows has a first row. */
  lemma {:induction false} LeastExists<T(!new)>(xs: set<T>, lt: (T, T) -> bool)
    requires xs != {} && StrictTotalOn(xs, lt)
    ensures exists m :: IsLeast(m, xs, lt)
    decreases |xs|
  {
    var a :| a in xs;
    if xs == {a} {
      assert IsLeast(a, xs, lt);
    } else {
      var rest := xs - {a};
      StrictTotalOnSubset(xs, rest, lt);
      LeastExists(rest, lt);
      var m :| IsLeast(m, rest, lt);
      assert Transitive(xs, lt);
      if lt(a, m) {
        forall y | y in xs && y != a
          ensures lt(a, y)
        {
          if y != m {
            assert lt(m, y);
          }
        }
        assert IsLeast(a, xs, lt);
      } else {
        assert lt(m, a);
        assert IsLeast(m, xs, lt);
      }
    }
  }

  /** The listing of the rows `xs` under the order `lt`. */
  function SortedSeq<T(==,!new)>(xs: set<T>, lt: (T, T) -> bool): (s: seq<T>)
    requires StrictTotalOn(xs, lt)
    ensures ListsInOrder(s, xs, lt)
    decreases |xs|
  {
    if xs == {} then []
    else
      LeastExists(xs, lt);
      var m :| IsLeast(m, xs, lt);
      StrictTotalOnSubset(xs, xs - {m}, lt);
      [m] + SortedSeq(xs - {m}, lt)
  }

  /** A listing starts with the first row and continues with a listing of
      the rest. */
  lemma ListingSplits<T(!new)>(s: seq<T>, xs: set<T>, lt: (T, T) -> bool)
    requires StrictTotalOn(xs, lt) && ListsInOrder(s, xs, lt) && xs != {}
    ensures IsLeast(s[0], xs, lt)
    ensures ListsInOrder(s[1..], xs - {s[0]}, lt)
  {
    forall y | y in xs && y != s[0]
      ensures lt(s[0], y)
    {
      var k :| 0 <= k < |s| && s[k] == y;
    }
    forall x | x in s[1..]
      ensures x != s[0]
    {
      var k :| 1 <= k < |s| && s[k] == x;
      assert lt(s[0], s[k]);
    }
    assert s == [s[0]] + s[1..];
  }

  /** Two rows that both come first are the same row. */
  lemma LeastIsUnique<T(!new)>(a: T, b: T, xs: set<T>, lt: (T, T) -> bool)
    requires StrictTotalOn(xs, lt) && IsLeast(a, xs, lt) && IsLeast(b, xs, lt)
    ensures a == b
  {
  }

  /** The order alone fixes the listing: any sequence that lists the rows
      once each in order is the one `SortedSeq` builds. */
  lemma {:induction false} ListingIsUnique<T(!new)>(s: seq<T>, xs: set<T>, lt: (T, T) -> bool)
    requires StrictTotalOn(xs, lt) && ListsInOrder(s, xs, lt)
    ensures s == SortedSeq(xs, lt)
    decreases |xs|
  {
    var t := SortedSeq(xs, lt);
    if xs != {} {
      ListingSplits(s, xs, lt);
      ListingSplits(t, xs, lt);
      LeastIsUnique(s[0], t[0], xs, lt);
      var rest := xs - {s[0]};
      StrictTotalOnSubset(xs, rest, lt);
      ListingIsUnique(s[1..], rest, lt);
      ListingIsUnique(t[1..], rest, lt);
      assert s == [s[0]] + s[1..] && t == [t[0]] + t[1..];
    } else {
      assert |s| == 0 && |t| == 0;
    }
  }

  /** `queryset.filter(...)`: the rows satisfying `p`, in listing order. */
  function Filter<T(!new)>(s: seq<T>, p: T -> bool): (r: seq<T>)
    ensures |r| <= |s|
    ensures forall x :: x in r <==> x in s && p(x)
  {
    if s == [] then [] else (if p(s[0]) then [s[0]] else []) + Filter(s[1..], p)
  }

  /** Filtering keeps the relative order of the rows it keeps. */
  lemma {:induction false} FilterSorted<T(!new)>(s: seq<T>, p: T -> bool, lt: (T, T) -> bool)
    requires Sorted(s, lt)
    ensures Sorted(Filter(s, p), lt)
  {
    if s != [] {
      FilterSorted(s[1..], p, lt);
      var r := Filter(s, p);
      var tail := Filter(s[1..], p);
      if p(s[0]) {
        forall i, j | 0 <= i < j < |r|
          ensures lt(r[i], r[j])
        {
          if i == 0 {
            assert r[j] == tail[j - 1] && r[j] in s[1..];
          } else {
            assert r[i] == tail[i - 1] && r[j] == tail[j - 1];
          }
        }
      }
    }
  }

  /** `queryset.first()`: the first row in listing order, if any. */
  function First<T>(s: seq<T>): (r: Option<T>)
    ensures r.None? <==> s == []
    ensures r.Some? ==> r.value == s[0]
  {
    if s == [] then None else Some(s[0])
  }

  /** The first row satisfying `p` comes before every other such row, and
      there is none exactly when no row satisfies `p`. */
  lemma FirstOfFilterIsLeast<T(!new)>(s: seq<T>, p: T -> bool, lt: (T, T) -> bool)
    requires Sorted(s, lt)
    ensures First(Filter(s, p)).None? <==> forall x :: x in s ==> !p(x)
    ensures First(Filter(s, p)).Some? ==>
      var f := First(Filter(s, p)).value;
      f in s && p(f) && forall x :: x in s && p(x) && x != f ==> lt(f, x)
  {
    var r := Filter(s, p);
    FilterSorted(s, p, lt);
    if r != [] {
      assert r[0] in r;
      forall x | x in s && p(x) && x != r[0]
        ensures lt(r[0], x)
      {
        assert x in r;
        var k :| 0 <= k < |r| && r[k] == x;
      }
    } else {
      assert forall x :: x in s ==> !p(x);
    }
  }

  /** `a` can be obtained from `b` by deleting elements. */
  predicate IsSubsequence<T(==)>(a: seq<T>, b: seq<T>)
    decreases |b|
  {
    a == [] || (b != [] && (if a[0] == b[0] then IsSubsequence(a[1..], b[1..]) else IsSubsequence(a, b[1..])))
  }
}
