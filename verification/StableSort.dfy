/** The stable sort of object entries, and the order in which a rebuilt object lists its keys. */
module StableSort {

  /** xs is a sorted sequence; x goes after everything that does not rank above it. */
  function Insert<T>(rank: T -> real, xs: seq<T>, x: T): (r: seq<T>)
    ensures multiset(r) == multiset(xs) + multiset{x}
  {
    if xs == [] || rank(xs[|xs| - 1]) <= rank(x) then xs + [x]
    else
      assert xs == xs[..|xs| - 1] + [xs[|xs| - 1]];
      Insert(rank, xs[..|xs| - 1], x) + [xs[|xs| - 1]]
  }

  function Sort<T>(rank: T -> real, xs: seq<T>): (r: seq<T>)
    ensures multiset(r) == multiset(xs)
  {
    if xs == [] then []
    else
      assert xs == xs[..|xs| - 1] + [xs[|xs| - 1]];
      Insert(rank, Sort(rank, xs[..|xs| - 1]), xs[|xs| - 1])
  }

  /** Every earlier element is related to every later one. */
  ghost predicate Pairwise<T(!new)>(le: (T, T) -> bool, xs: seq<T>) {
    forall i, j :: 0 <= i < j < |xs| ==> le(xs[i], xs[j])
  }

  /** Rank first, then the given relation. */
  ghost function Then<T(!new)>(rank: T -> real, le: (T, T) -> bool): (T, T) -> bool {
    (a, b) => rank(a) < rank(b) || (rank(a) == rank(b) && le(a, b))
  }

  lemma AppendPairwise<T(!new)>(le: (T, T) -> bool, xs: seq<T>, x: T)
    requires Pairwise(le, xs) && forall e :: e in xs ==> le(e, x)
    ensures Pairwise(le, xs + [x])
  {
    var r := xs + [x];
    forall i, j | 0 <= i < j < |r| ensures le(r[i], r[j]) {
      assert r[i] == xs[i] && xs[i] in xs;
    }
  }

  lemma BeforeLast<T(!new)>(le: (T, T) -> bool, xs: seq<T>, e: T)
    requires Pairwise(le, xs) && xs != [] && e in xs[..|xs| - 1]
    ensures le(e, xs[|xs| - 1])
  {
    var i :| 0 <= i < |xs| - 1 && xs[i] == e;
  }

  lemma {:induction false} InsertPairwise<T(!new)>(rank: T -> real, le: (T, T) -> bool, xs: seq<T>, x: T)
    requires Pairwise(Then(rank, le), xs)
    requires forall e :: e in xs ==> le(e, x)
    ensures Pairwise(Then(rank, le), Insert(rank, xs, x))
  {
    var order := Then(rank, le);
    if xs == [] || rank(xs[|xs| - 1]) <= rank(x) {
      forall e | e in xs ensures order(e, x) {
        if e != xs[|xs| - 1] {
          BeforeLast(order, xs, e);
        }
      }
      AppendPairwise(order, xs, x);
    } else {
      var init, last := xs[..|xs| - 1], xs[|xs| - 1];
      InsertPairwise(rank, le, init, x);
      var head := Insert(rank, init, x);
      forall e | e in head ensures order(e, last) {
        assert e in multiset(init) + multiset{x};
        if e in init {
          BeforeLast(order, xs, e);
        }
      }
      AppendPairwise(order, head, last);
    }
  }

  /** The sort orders by rank and keeps any relation the input had among equals: it is stable. */
  lemma {:induction false} SortPairwise<T(!new)>(rank: T -> real, le: (T, T) -> bool, xs: seq<T>)
    requires Pairwise(le, xs)
    ensures Pairwise(Then(rank, le), Sort(rank, xs))
  {
    if xs != [] {
      var init, last := xs[..|xs| - 1], xs[|xs| - 1];
      SortPairwise(rank, le, init);
      forall e | e in Sort(rank, init) ensures le(e, last) {
        assert e in multiset(init);
        BeforeLast(le, xs, e);
      }
      InsertPairwise(rank, le, Sort(rank, init), last);
    }
  }

  ghost predicate AntisymmetricOn<T(!new)>(le: (T, T) -> bool, xs: seq<T>) {
    forall a, b :: a in xs && b in xs && le(a, b) && le(b, a) ==> a == b
  }

  lemma GreatestAgree<T(!new)>(le: (T, T) -> bool, xs: seq<T>, ys: seq<T>)
    requires Pairwise(le, xs) && Pairwise(le, ys) && multiset(xs) == multiset(ys)
    requires AntisymmetricOn(le, xs) && xs != [] && |xs| == |ys|
    ensures xs[|xs| - 1] == ys[|ys| - 1]
  {
    var n := |xs| - 1;
    var a, b := xs[n], ys[n];
    assert a in multiset(ys) && b in multiset(xs);
    var i :| 0 <= i < |ys| && ys[i] == a;
    var j :| 0 <= j < |xs| && xs[j] == b;
    if i < n && j < n {
      assert le(ys[i], ys[n]) && le(xs[j], xs[n]);
    }
  }

  lemma WithoutLast<T(!new)>(le: (T, T) -> bool, xs: seq<T>)
    requires xs != [] && Pairwise(le, xs)
    ensures var init := xs[..|xs| - 1];
      multiset(init) == multiset(xs) - multiset{xs[|xs| - 1]} && Pairwise(le, init)
  {
    assert xs == xs[..|xs| - 1] + [xs[|xs| - 1]];
  }

  lemma SameLength<T>(xs: seq<T>, ys: seq<T>)
    requires multiset(xs) == multiset(ys)
    ensures |xs| == |ys|
  {
    assert |multiset(xs)| == |xs| && |multiset(ys)| == |ys|;
  }

  /** Two arrangements of the same elements, both strictly ordered, are the same sequence. */
  lemma {:induction false} StrictOrderUnique<T(!new)>(le: (T, T) -> bool, xs: seq<T>, ys: seq<T>)
    requires Pairwise(le, xs) && Pairwise(le, ys) && multiset(xs) == multiset(ys)
    requires AntisymmetricOn(le, xs)
    ensures xs == ys
  {
    SameLength(xs, ys);
    if xs != [] {
      var n := |xs| - 1;
      GreatestAgree(le, xs, ys);
      WithoutLast(le, xs);
      WithoutLast(le, ys);
      StrictOrderUnique(le, xs[..n], ys[..n]);
      assert xs == xs[..n] + [xs[n]] && ys == ys[..n] + [ys[n]];
    }
  }
}
