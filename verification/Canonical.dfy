/** Lists kept in one strict order: such a list is determined by its elements, so sorting gives equal
    elements one representation. */
module Canonical {

  ghost predicate StrictOrder<T(!new)>(less: (T, T) -> bool) {
    (forall x :: !less(x, x)) && forall x, y, z :: less(x, y) && less(y, z) ==> less(x, z)
  }

  /** Any two elements are equal or ordered. */
  predicate Comparable<T(==)>(xs: seq<T>, less: (T, T) -> bool) {
    forall x, y | x in xs && y in xs :: less(x, y) || x == y || less(y, x)
  }

  predicate Ordered<T>(xs: seq<T>, less: (T, T) -> bool) {
    forall i, j | 0 <= i < j < |xs| :: less(xs[i], xs[j])
  }

  lemma Later<T(!new)>(xs: seq<T>, x: T, less: (T, T) -> bool)
    requires StrictOrder(less) && Ordered(xs, less) && Comparable(xs + [x], less) && xs != [] && x != xs[0]
             && !less(x, xs[0])
    ensures Ordered(xs[1..], less) && Comparable(xs[1..] + [x], less) && xs == [xs[0]] + xs[1..]
    ensures forall y | y in xs[1..] || y == x :: less(xs[0], y)
  {
    assert xs == [xs[0]] + xs[1..];
    assert xs[0] in xs + [x] && x in xs + [x];
    assert forall y | y in xs[1..] + [x] :: y in xs + [x];
    forall y | y in xs[1..] ensures less(xs[0], y) {
      var i :| 0 <= i < |xs| - 1 && xs[1..][i] == y;
      assert less(xs[0], xs[i + 1]);
    }
  }

  lemma InFront<T(!new)>(x: T, xs: seq<T>, less: (T, T) -> bool)
    requires Ordered(xs, less) && forall y | y in xs :: less(x, y)
    ensures Ordered([x] + xs, less)
  {
    forall j | 0 <= j < |xs| ensures less(x, xs[j]) { assert xs[j] in xs; }
  }

  /** Adds one element at its place; an element that is already there is not added again. */
  function Insert<T(==,!new)>(xs: seq<T>, x: T, less: (T, T) -> bool): (r: seq<T>)
    requires StrictOrder(less) && Ordered(xs, less) && Comparable(xs + [x], less)
    ensures Ordered(r, less) && forall y :: y in r <==> y in xs || y == x
  {
    if xs == [] then [x]
    else if x == xs[0] then xs
    else if less(x, xs[0]) then
      assert forall j | 0 <= j < |xs| :: less(x, xs[j]);
      [x] + xs
    else
      Later(xs, x, less);
      var rest := Insert(xs[1..], x, less);
      InFront(xs[0], rest, less);
      [xs[0]] + rest
  }

  function Sorted<T(==,!new)>(xs: seq<T>, less: (T, T) -> bool): (r: seq<T>)
    requires StrictOrder(less) && Comparable(xs, less)
    ensures Ordered(r, less) && forall y :: y in r <==> y in xs
  {
    if xs == [] then [] else
    assert xs == [xs[0]] + xs[1..];
    Insert(Sorted(xs[1..], less), xs[0], less)
  }

  lemma Rest<T(!new)>(xs: seq<T>, less: (T, T) -> bool)
    requires StrictOrder(less) && Ordered(xs, less) && xs != []
    ensures forall x :: x in xs[1..] <==> x in xs && x != xs[0]
  {
    forall x ensures x in xs[1..] <==> x in xs && x != xs[0] {
      assert xs == [xs[0]] + xs[1..];
      if x in xs[1..] {
        var i :| 0 <= i < |xs| - 1 && xs[1..][i] == x;
        assert less(xs[0], xs[i + 1]);
      }
    }
  }

  lemma {:induction false} Unique<T(!new)>(xs: seq<T>, ys: seq<T>, less: (T, T) -> bool)
    requires StrictOrder(less) && Ordered(xs, less) && Ordered(ys, less) && forall x :: x in xs <==> x in ys
    ensures xs == ys
    decreases |xs|
  {
    if xs != [] { assert xs[0] in xs; }
    if ys != [] { assert ys[0] in ys; }
    if xs != [] && ys != [] {
      assert xs[0] == ys[0];
      Rest(xs, less);
      Rest(ys, less);
      Unique(xs[1..], ys[1..], less);
    }
  }

  /** Two lists sort to the same list exactly when they have the same elements. */
  lemma SortedExact<T(!new)>(xs: seq<T>, ys: seq<T>, less: (T, T) -> bool)
    requires StrictOrder(less) && Comparable(xs, less) && Comparable(ys, less)
    ensures Sorted(xs, less) == Sorted(ys, less) <==> forall x :: x in xs <==> x in ys
  {
    if Sorted(xs, less) == Sorted(ys, less) {
      forall x ensures x in xs <==> x in ys { assert x in Sorted(xs, less) <==> x in xs; }
    } else if forall x :: x in xs <==> x in ys {
      Unique(Sorted(xs, less), Sorted(ys, less), less);
    }
  }
}
