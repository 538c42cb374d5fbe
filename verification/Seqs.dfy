/** Sequence operations the other modules share. */
module Seqs {
  /** The elements of `xs` that satisfy `p`, in their order. */
  function Filter<T>(p: T -> bool, xs: seq<T>): (r: seq<T>)
    ensures forall x :: x in r ==> x in xs && p(x)
    ensures forall x :: x in xs && p(x) ==> x in r
    ensures |r| <= |xs|
  {
    if xs == [] then []
    else
      var rest := Filter(p, xs[..|xs| - 1]);
      var last := xs[|xs| - 1];
      assert xs == xs[..|xs| - 1] + [last];
      if p(last) then rest + [last] else rest
  }

  lemma FilterLast<T>(p: T -> bool, xs: seq<T>, x: T)
    ensures Filter(p, xs + [x]) == if p(x) then Filter(p, xs) + [x] else Filter(p, xs)
  {
    assert (xs + [x])[..|xs|] == xs;
  }

  lemma FilterFront<T>(p: T -> bool, xs: seq<T>)
    requires xs != []
    ensures var front, last := xs[..|xs| - 1], xs[|xs| - 1];
      Filter(p, xs) == if p(last) then Filter(p, front) + [last] else Filter(p, front)
  {
  }

  lemma {:induction false} FilterConcat<T>(p: T -> bool, xs: seq<T>, ys: seq<T>)
    ensures Filter(p, xs + ys) == Filter(p, xs) + Filter(p, ys)
  {
    if ys == [] {
      assert xs + ys == xs;
    } else {
      var front, last := ys[..|ys| - 1], ys[|ys| - 1];
      assert xs + ys == (xs + front) + [last] && ys == front + [last];
      FilterConcat(p, xs, front);
      FilterLast(p, xs + front, last);
      FilterLast(p, front, last);
    }
  }

  ghost predicate Distinct<T>(xs: seq<T>) {
    forall i, j :: 0 <= i < j < |xs| ==> xs[i] != xs[j]
  }

  lemma {:induction false} FilterDistinct<T>(p: T -> bool, xs: seq<T>)
    requires Distinct(xs)
    ensures Distinct(Filter(p, xs))
  {
    if xs != [] {
      FilterDistinct(p, xs[..|xs| - 1]);
    }
  }

  /** The elements of `xs` other than `skip`, each once, in order of first appearance. */
  method Unique<T(==)>(xs: seq<T>, skip: T) returns (out: seq<T>)
    ensures Distinct(out)
    ensures forall x :: x in out ==> x in xs && x != skip
    ensures forall x :: x in xs && x != skip ==> x in out
  {
    out := [];
    var seen := {skip};
    for k := 0 to |xs|
      invariant forall x :: x in seen ==> x == skip || x in xs[..k]
      invariant skip in seen && forall j :: 0 <= j < k ==> xs[j] in seen
      invariant Distinct(out) && forall x :: x in out ==> x in seen && x != skip
      invariant forall x :: x in seen && x != skip ==> x in out
    {
      assert xs[..k + 1] == xs[..k] + [xs[k]];
      if xs[k] !in seen {
        seen := seen + {xs[k]};
        out := out + [xs[k]];
      }
    }
  }

  /** Place by place alike. */
  ghost predicate Alike<T>(alike: (T, T) -> bool, xs: seq<T>, ys: seq<T>) {
    |xs| == |ys| && forall k :: 0 <= k < |xs| ==> alike(xs[k], ys[k])
  }

  lemma AlikeEnds<T>(alike: (T, T) -> bool, xs: seq<T>, ys: seq<T>)
    requires Alike(alike, xs, ys) && xs != []
    ensures |xs| == |ys| && Alike(alike, xs[..|xs| - 1], ys[..|ys| - 1]) && alike(xs[|xs| - 1], ys[|ys| - 1])
  {
  }

  lemma AlikeAppend<T>(alike: (T, T) -> bool, xs: seq<T>, ys: seq<T>, x: T, y: T)
    requires Alike(alike, xs, ys) && alike(x, y)
    ensures Alike(alike, xs + [x], ys + [y])
  {
  }

  function SameBy<T>(p: T -> bool): (T, T) -> bool {
    (x: T, y: T) => p(x) == p(y)
  }

  /** Filtering by something they have in common leaves lists alike. */
  lemma {:induction false} FilterAlike<T>(p: T -> bool, alike: (T, T) -> bool, xs: seq<T>, ys: seq<T>)
    requires Alike(alike, xs, ys) && Alike(SameBy(p), xs, ys)
    ensures Alike(alike, Filter(p, xs), Filter(p, ys))
  {
    if xs != [] {
      hide Filter, Alike;
      var n := |xs| - 1;
      AlikeEnds(alike, xs, ys);
      AlikeEnds(SameBy(p), xs, ys);
      FilterAlike(p, alike, xs[..n], ys[..n]);
      FilterFront(p, xs);
      FilterFront(p, ys);
      if p(xs[n]) {
        AlikeAppend(alike, Filter(p, xs[..n]), Filter(p, ys[..n]), xs[n], ys[n]);
      }
    }
  }

  lemma {:induction false} SubsetSize<T>(small: set<T>, large: set<T>)
    requires small <= large
    ensures |small| <= |large|
  {
    if small != {} {
      var x :| x in small;
      SubsetSize(small - {x}, large - {x});
    }
  }
}
