/** Stable sorting by a total preorder, and when the order of the input stops mattering. */
module Sorting {

  ghost predicate TotalPreorder<T(!new)>(leq: (T, T) -> bool) {
    && (forall x, y :: leq(x, y) || leq(y, x))
    && (forall x, y, z :: leq(x, y) && leq(y, z) ==> leq(x, z))
  }

  ghost predicate Sorted<T>(xs: seq<T>, leq: (T, T) -> bool) {
    forall i, j :: 0 <= i < j < |xs| ==> leq(xs[i], xs[j])
  }

  function Insert<T>(xs: seq<T>, x: T, leq: (T, T) -> bool): seq<T> {
    if xs == [] || leq(xs[|xs| - 1], x) then xs + [x]
    else Insert(xs[..|xs| - 1], x, leq) + [xs[|xs| - 1]]
  }

  /** Array.prototype.sort: stable, later elements go behind equal earlier ones. */
  function Sort<T>(xs: seq<T>, leq: (T, T) -> bool): seq<T> {
    if xs == [] then [] else Insert(Sort(xs[..|xs| - 1], leq), xs[|xs| - 1], leq)
  }

  lemma {:induction false} InsertKeepsElements<T>(xs: seq<T>, x: T, leq: (T, T) -> bool)
    ensures multiset(Insert(xs, x, leq)) == multiset(xs) + multiset{x}
  {
    if xs != [] && !leq(xs[|xs| - 1], x) {
      InsertKeepsElements(xs[..|xs| - 1], x, leq);
      assert xs == xs[..|xs| - 1] + [xs[|xs| - 1]];
    }
  }

  lemma {:induction false} InsertSorts<T(!new)>(xs: seq<T>, x: T, leq: (T, T) -> bool)
    requires TotalPreorder(leq) && Sorted(xs, leq)
    ensures Sorted(Insert(xs, x, leq), leq)
  {
    if xs != [] && !leq(xs[|xs| - 1], x) {
      var init, last := xs[..|xs| - 1], xs[|xs| - 1];
      InsertSorts(init, x, leq);
      var inserted := Insert(init, x, leq);
      forall i | 0 <= i < |inserted| ensures leq(inserted[i], last) {
        InsertKeepsElements(init, x, leq);
        assert inserted[i] in multiset(inserted);
        assert inserted[i] in init || inserted[i] == x;
      }
    }
  }

  lemma {:induction false} SortKeepsElements<T>(xs: seq<T>, leq: (T, T) -> bool)
    ensures multiset(Sort(xs, leq)) == multiset(xs)
  {
    if xs != [] {
      var init, last := xs[..|xs| - 1], xs[|xs| - 1];
      SortKeepsElements(init, leq);
      InsertKeepsElements(Sort(init, leq), last, leq);
      assert xs == init + [last];
    }
  }

  lemma {:induction false} SortSorts<T(!new)>(xs: seq<T>, leq: (T, T) -> bool)
    requires TotalPreorder(leq)
    ensures Sorted(Sort(xs, leq), leq)
    ensures multiset(Sort(xs, leq)) == multiset(xs)
  {
    SortKeepsElements(xs, leq);
    if xs != [] {
      SortSorts(xs[..|xs| - 1], leq);
      InsertSorts(Sort(xs[..|xs| - 1], leq), xs[|xs| - 1], leq);
    }
  }

  /** Every element of a sorted sequence is at most its last. */
  lemma LastIsGreatest<T(!new)>(xs: seq<T>, ys: seq<T>, leq: (T, T) -> bool)
    requires xs != [] && ys != [] && Sorted(ys, leq) && multiset(xs) == multiset(ys)
    requires forall y :: y in ys ==> leq(y, y)
    ensures leq(xs[|xs| - 1], ys[|ys| - 1]) && xs[|xs| - 1] in ys
  {
    assert xs[|xs| - 1] in multiset(ys);
    var i :| 0 <= i < |ys| && ys[i] == xs[|xs| - 1];
  }

  /** The order tells the elements of xs apart. */
  ghost predicate Separates<T>(leq: (T, T) -> bool, xs: seq<T>) {
    (forall x :: x in xs ==> leq(x, x)) &&
    forall x, y :: x in xs && y in xs && leq(x, y) && leq(y, x) ==> x == y
  }

  lemma DropLast<T(!new)>(xs: seq<T>, leq: (T, T) -> bool)
    requires xs != []
    ensures xs == xs[..|xs| - 1] + [xs[|xs| - 1]]
    ensures multiset(xs[..|xs| - 1]) == multiset(xs) - multiset{xs[|xs| - 1]}
    ensures Sorted(xs, leq) ==> Sorted(xs[..|xs| - 1], leq)
    ensures Separates(leq, xs) ==> Separates(leq, xs[..|xs| - 1])
  {
    assert xs == xs[..|xs| - 1] + [xs[|xs| - 1]];
    assert forall x :: x in xs[..|xs| - 1] ==> x in xs;
  }

  /** If the order tells all elements apart, a sorted arrangement is unique. */
  lemma {:induction false} SortedUnique<T(!new)>(xs: seq<T>, ys: seq<T>, leq: (T, T) -> bool)
    requires Sorted(xs, leq) && Sorted(ys, leq) && multiset(xs) == multiset(ys)
    requires Separates(leq, xs)
    ensures xs == ys
    decreases |xs|
  {
    assert |xs| == |multiset(xs)| && |ys| == |multiset(ys)|;
    if xs != [] {
      SameLast(xs, ys, leq);
      DropLast(xs, leq);
      DropLast(ys, leq);
      SortedUnique(xs[..|xs| - 1], ys[..|ys| - 1], leq);
    }
  }

  lemma SameLast<T(!new)>(xs: seq<T>, ys: seq<T>, leq: (T, T) -> bool)
    requires xs != [] && ys != []
    requires Sorted(xs, leq) && Sorted(ys, leq) && multiset(xs) == multiset(ys)
    requires Separates(leq, xs)
    ensures xs[|xs| - 1] == ys[|ys| - 1]
  {
    forall y | y in ys ensures y in xs {
      assert y in multiset(xs);
    }
    LastIsGreatest(xs, ys, leq);
    LastIsGreatest(ys, xs, leq);
  }

  lemma SortIgnoresOrder<T(!new)>(xs: seq<T>, ys: seq<T>, leq: (T, T) -> bool)
    requires TotalPreorder(leq) && multiset(xs) == multiset(ys)
    requires Separates(leq, xs)
    ensures Sort(xs, leq) == Sort(ys, leq)
  {
    SortSorts(xs, leq);
    SortSorts(ys, leq);
    forall x | x in Sort(xs, leq) ensures x in xs {
      assert x in multiset(Sort(xs, leq));
    }
    SortedUnique(Sort(xs, leq), Sort(ys, leq), leq);
  }
}
