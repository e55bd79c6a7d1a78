/** Sequences without repetition, filtering, and the sizes of the sets they list. */
module Sequences {

  predicate Distinct<T(==)>(xs: seq<T>) {
    forall i, j :: 0 <= i < j < |xs| ==> xs[i] != xs[j]
  }

  lemma {:induction false} DistinctCount<T>(xs: seq<T>)
    requires Distinct(xs)
    ensures |set x | x in xs| == |xs|
  {
    if xs != [] {
      var init, last := xs[..|xs| - 1], xs[|xs| - 1];
      DistinctCount(init);
      assert xs == init + [last];
      assert (set x | x in xs) == (set x | x in init) + {last};
    }
  }

  lemma {:induction false} SubsetSize<T>(a: set<T>, b: set<T>)
    requires a <= b
    ensures |a| <= |b|
  {
    if a != {} {
      var x :| x in a;
      SubsetSize(a - {x}, b - {x});
    }
  }

  /** The elements that satisfy p, in their order. */
  function Select<T(!new)>(xs: seq<T>, p: T -> bool): (kept: seq<T>)
    ensures forall x :: x in kept <==> x in xs && p(x)
  {
    if xs == [] then []
    else
      var rest, last := Select(xs[..|xs| - 1], p), xs[|xs| - 1];
      assert forall x :: x in xs <==> x in xs[..|xs| - 1] || x == last;
      if p(last) then rest + [last] else rest
  }

  lemma {:induction false} SelectDistinct<T(!new)>(xs: seq<T>, p: T -> bool)
    requires Distinct(xs)
    ensures Distinct(Select(xs, p))
  {
    if xs != [] {
      var init, last := xs[..|xs| - 1], xs[|xs| - 1];
      SelectDistinct(init, p);
      assert last !in init;
    }
  }

  lemma {:induction false} SelectNone<T(!new)>(xs: seq<T>, p: T -> bool)
    requires forall x :: x in xs ==> !p(x)
    ensures Select(xs, p) == []
  {
    if xs != [] {
      SelectNone(xs[..|xs| - 1], p);
    }
  }
}
