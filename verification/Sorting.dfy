/** Stable sorting by a total preorder, as a list sort with a key does it. */
module Sorting {
  import opened Seqs

  ghost predicate TotalPreorder<T(!new)>(le: (T, T) -> bool) {
    && (forall x, y :: le(x, y) || le(y, x))
    && (forall x, y, z :: le(x, y) && le(y, z) ==> le(x, z))
  }

  ghost predicate Sorted<T>(le: (T, T) -> bool, xs: seq<T>) {
    forall i, j :: 0 <= i < j < |xs| ==> le(xs[i], xs[j])
  }

  /** `x` goes after every element it does not precede. */
  function Insert<T>(le: (T, T) -> bool, xs: seq<T>, x: T): seq<T> {
    if xs == [] then [x]
    else if le(xs[|xs| - 1], x) then xs + [x]
    else Insert(le, xs[..|xs| - 1], x) + [xs[|xs| - 1]]
  }

  function Sort<T>(le: (T, T) -> bool, xs: seq<T>): seq<T> {
    if xs == [] then [] else Insert(le, Sort(le, xs[..|xs| - 1]), xs[|xs| - 1])
  }

  // ---- Permutation ---------------------------------------------------------------------

  lemma SplitLast<T>(xs: seq<T>)
    requires xs != []
    ensures xs == xs[..|xs| - 1] + [xs[|xs| - 1]]
    ensures multiset(xs) == multiset(xs[..|xs| - 1]) + multiset{xs[|xs| - 1]}
  {
    assert xs == xs[..|xs| - 1] + [xs[|xs| - 1]];
  }

  lemma {:induction false} InsertPermutes<T>(le: (T, T) -> bool, xs: seq<T>, x: T)
    ensures multiset(Insert(le, xs, x)) == multiset(xs) + multiset{x}
  {
    if xs != [] && !le(xs[|xs| - 1], x) {
      InsertPermutes(le, xs[..|xs| - 1], x);
      SplitLast(xs);
    }
  }

  lemma {:induction false} SortPermutes<T>(le: (T, T) -> bool, xs: seq<T>)
    ensures multiset(Sort(le, xs)) == multiset(xs)
  {
    if xs != [] {
      SortPermutes(le, xs[..|xs| - 1]);
      InsertPermutes(le, Sort(le, xs[..|xs| - 1]), xs[|xs| - 1]);
      SplitLast(xs);
    }
  }

  lemma SortKeepsElements<T>(le: (T, T) -> bool, xs: seq<T>, x: T)
    ensures x in Sort(le, xs) <==> x in xs
  {
    SortPermutes(le, xs);
    SameElements(Sort(le, xs), xs);
  }

  // ---- Order ---------------------------------------------------------------------------

  lemma SameElements<T>(xs: seq<T>, ys: seq<T>)
    requires multiset(xs) == multiset(ys)
    ensures |xs| == |ys| && forall x :: x in xs <==> x in ys
  {
    assert |multiset(xs)| == |xs| && |multiset(ys)| == |ys|;
    assert forall x :: x in xs <==> x in multiset(xs);
    assert forall x :: x in ys <==> x in multiset(ys);
  }

  lemma {:induction false} InsertSorts<T(!new)>(le: (T, T) -> bool, xs: seq<T>, x: T)
    requires TotalPreorder(le) && Sorted(le, xs)
    ensures Sorted(le, Insert(le, xs, x))
  {
    if xs != [] {
      var front, last := xs[..|xs| - 1], xs[|xs| - 1];
      if le(last, x) {
        forall i | 0 <= i < |xs| ensures le(xs[i], x) {
          assert i < |xs| - 1 ==> le(xs[i], last);
        }
      } else {
        InsertSorts(le, front, x);
        var r := Insert(le, front, x);
        forall i | 0 <= i < |r| ensures le(r[i], last) {
          InsertPermutes(le, front, x);
          assert multiset(r) == multiset(front + [x]);
          SameElements(r, front + [x]);
          assert r[i] in front + [x];
          assert forall k :: 0 <= k < |front| ==> le(front[k], last);
        }
      }
    }
  }

  lemma {:induction false} SortSorts<T(!new)>(le: (T, T) -> bool, xs: seq<T>)
    requires TotalPreorder(le)
    ensures Sorted(le, Sort(le, xs))
  {
    if xs != [] {
      SortSorts(le, xs[..|xs| - 1]);
      InsertSorts(le, Sort(le, xs[..|xs| - 1]), xs[|xs| - 1]);
    }
  }

  // ---- Stability -----------------------------------------------------------------------

  function Ties<T(!new)>(le: (T, T) -> bool, xs: seq<T>, v: T): seq<T> {
    Filter(x => le(x, v) && le(v, x), xs)
  }

  lemma TiesLast<T(!new)>(le: (T, T) -> bool, xs: seq<T>, x: T, v: T)
    ensures Ties(le, xs + [x], v) == Ties(le, xs, v) + if le(x, v) && le(v, x) then [x] else []
  {
    FilterLast(y => le(y, v) && le(v, y), xs, x);
  }

  lemma {:induction false} InsertStable<T(!new)>(le: (T, T) -> bool, xs: seq<T>, x: T, v: T)
    requires TotalPreorder(le)
    ensures Ties(le, Insert(le, xs, x), v) == Ties(le, xs + [x], v)
  {
    if xs == [] {
      assert xs + [x] == [x];
    } else if !le(xs[|xs| - 1], x) {
      var front, last := xs[..|xs| - 1], xs[|xs| - 1];
      SplitLast(xs);
      InsertStable(le, front, x, v);
      TiesLast(le, Insert(le, front, x), last, v);
      TiesLast(le, front, x, v);
      TiesLast(le, front, last, v);
      TiesLast(le, xs, x, v);
      assert !(le(x, v) && le(v, x) && le(last, v) && le(v, last));
    }
  }

  /** Elements with equal keys keep their order. */
  lemma {:induction false} SortStable<T(!new)>(le: (T, T) -> bool, xs: seq<T>, v: T)
    requires TotalPreorder(le)
    ensures Ties(le, Sort(le, xs), v) == Ties(le, xs, v)
  {
    if xs != [] {
      var front, last := xs[..|xs| - 1], xs[|xs| - 1];
      SplitLast(xs);
      SortStable(le, front, v);
      InsertStable(le, Sort(le, front), last, v);
      TiesLast(le, Sort(le, front), last, v);
      TiesLast(le, front, last, v);
    }
  }

  // ---- Counting ------------------------------------------------------------------------

  lemma {:induction false} CountedOnce<T>(xs: seq<T>, x: T)
    requires Distinct(xs)
    ensures multiset(xs)[x] == if x in xs then 1 else 0
  {
    if xs != [] {
      var front := xs[..|xs| - 1];
      CountedOnce(front, x);
      SplitLast(xs);
      if x == xs[|xs| - 1] {
        assert x !in front;
      }
    }
  }

  lemma TwiceCounts<T>(xs: seq<T>, i: nat, j: nat)
    requires i < j < |xs| && xs[i] == xs[j]
    ensures multiset(xs)[xs[i]] >= 2
  {
    assert xs == xs[..j] + [xs[j]] + xs[j + 1..];
    assert xs[i] in xs[..j];
  }

  lemma SortKeepsDistinct<T>(le: (T, T) -> bool, xs: seq<T>)
    requires Distinct(xs)
    ensures Distinct(Sort(le, xs))
  {
    var sorted := Sort(le, xs);
    SortPermutes(le, xs);
    forall i, j | 0 <= i < j < |sorted| ensures sorted[i] != sorted[j] {
      if sorted[i] == sorted[j] {
        TwiceCounts(sorted, i, j);
        CountedOnce(xs, sorted[i]);
      }
    }
  }

  lemma SameSetSameMultiset<T>(xs: seq<T>, ys: seq<T>)
    requires Distinct(xs) && Distinct(ys)
    requires forall x :: x in xs ==> x in ys
    requires forall x :: x in ys ==> x in xs
    ensures multiset(xs) == multiset(ys)
  {
    forall x | x in multiset(xs) + multiset(ys) ensures multiset(xs)[x] == multiset(ys)[x] {
      CountedOnce(xs, x);
      CountedOnce(ys, x);
    }
  }

  lemma {:induction false} CountFilter<T>(p: T -> bool, xs: seq<T>, x: T)
    ensures multiset(Filter(p, xs))[x] == if p(x) then multiset(xs)[x] else 0
  {
    if xs != [] {
      CountFilter(p, xs[..|xs| - 1], x);
      SplitLast(xs);
    }
  }

  lemma FilterPermutes<T(!new)>(p: T -> bool, xs: seq<T>, ys: seq<T>)
    requires multiset(xs) == multiset(ys)
    ensures multiset(Filter(p, xs)) == multiset(Filter(p, ys))
  {
    forall x ensures multiset(Filter(p, xs))[x] == multiset(Filter(p, ys))[x] {
      CountFilter(p, xs, x);
      CountFilter(p, ys, x);
    }
  }

  // ---- Uniqueness ----------------------------------------------------------------------

  /** `le` tells any two different elements of `xs` apart. */
  ghost predicate Antisymmetric<T(!new)>(le: (T, T) -> bool, xs: seq<T>) {
    forall x, y :: x in xs && y in xs && le(x, y) && le(y, x) ==> x == y
  }

  lemma {:induction false} SortedIsUnique<T(!new)>(le: (T, T) -> bool, xs: seq<T>, ys: seq<T>)
    requires TotalPreorder(le) && Antisymmetric(le, xs)
    requires Sorted(le, xs) && Sorted(le, ys) && multiset(xs) == multiset(ys)
    ensures xs == ys
  {
    SameElements(xs, ys);
    if xs != [] {
      hide TotalPreorder, Antisymmetric, Sorted;
      var n := |xs| - 1;
      LastsAgree(le, xs, ys);
      SplitLast(xs);
      SplitLast(ys);
      assert multiset(xs[..n]) == multiset(xs) - multiset{xs[n]};
      assert multiset(ys[..n]) == multiset(ys) - multiset{ys[n]};
      FrontStaysSorted(le, xs);
      FrontStaysSorted(le, ys);
      SortedIsUnique(le, xs[..n], ys[..n]);
    }
  }

  lemma FrontStaysSorted<T(!new)>(le: (T, T) -> bool, xs: seq<T>)
    requires Sorted(le, xs) && xs != []
    ensures Sorted(le, xs[..|xs| - 1]) && (Antisymmetric(le, xs) ==> Antisymmetric(le, xs[..|xs| - 1]))
  {
    assert forall x :: x in xs[..|xs| - 1] ==> x in xs;
  }

  lemma LastsAgree<T(!new)>(le: (T, T) -> bool, xs: seq<T>, ys: seq<T>)
    requires TotalPreorder(le) && Antisymmetric(le, xs) && Sorted(le, xs) && Sorted(le, ys)
    requires xs != [] && |xs| == |ys| && forall x :: x in xs <==> x in ys
    ensures xs[|xs| - 1] == ys[|ys| - 1]
  {
    hide TotalPreorder, Sorted;
    LastIsGreatest(le, xs, ys[|ys| - 1]);
    LastIsGreatest(le, ys, xs[|xs| - 1]);
  }

  lemma LastIsGreatest<T(!new)>(le: (T, T) -> bool, xs: seq<T>, x: T)
    requires TotalPreorder(le) && Sorted(le, xs) && x in xs
    ensures le(x, xs[|xs| - 1])
  {
  }

  /** Sorting by a total order forgets the order of the input. */
  lemma SortIgnoresOrder<T(!new)>(le: (T, T) -> bool, xs: seq<T>, ys: seq<T>)
    requires TotalPreorder(le) && Antisymmetric(le, xs) && multiset(xs) == multiset(ys)
    ensures Sort(le, xs) == Sort(le, ys)
  {
    SortPermutes(le, xs);
    SortPermutes(le, ys);
    SortSorts(le, xs);
    SortSorts(le, ys);
    SameElements(xs, Sort(le, xs));
    SortedIsUnique(le, Sort(le, xs), Sort(le, ys));
  }

  // ---- Only the comparisons made matter ------------------------------------------------

  lemma {:induction false} InsertCongruent<T>(le: (T, T) -> bool, le': (T, T) -> bool, xs: seq<T>, x: T)
    requires forall y :: y in xs ==> le(y, x) == le'(y, x)
    ensures Insert(le, xs, x) == Insert(le', xs, x)
  {
    if xs != [] {
      SplitLast(xs);
      InsertCongruent(le, le', xs[..|xs| - 1], x);
    }
  }

  lemma {:induction false} SortCongruent<T>(le: (T, T) -> bool, le': (T, T) -> bool, xs: seq<T>)
    requires forall x, y :: x in xs && y in xs ==> le(x, y) == le'(x, y)
    ensures Sort(le, xs) == Sort(le', xs)
  {
    if xs != [] {
      var front, last := xs[..|xs| - 1], xs[|xs| - 1];
      SplitLast(xs);
      SortCongruent(le, le', front);
      forall y | y in Sort(le, front) ensures le(y, last) == le'(y, last) {
        SortKeepsElements(le, front, y);
      }
      InsertCongruent(le, le', Sort(le, front), last);
    }
  }
}
