/**
 * Sorting by a comparator, as `Stream.sorted(Comparator)` and `List.sort(Comparator)` do:
 * the result is a permutation of the input, ordered by a total, transitive "less or equal".
 */
module Sorting {

  /** `le` relates every pair one way or the other. */
  ghost predicate Total<T(!new)>(le: (T, T) -> bool)
  {
    forall a, b :: le(a, b) || le(b, a)
  }

  ghost predicate Transitive<T(!new)>(le: (T, T) -> bool)
  {
    forall a, b, c :: le(a, b) && le(b, c) ==> le(a, c)
  }

  /** Each element is `le` its successor. */
  ghost predicate Sorted<T>(xs: seq<T>, le: (T, T) -> bool)
  {
    forall i :: 0 < i < |xs| ==> le(xs[i - 1], xs[i])
  }

  /** Every element is `le` every later one. */
  ghost predicate Ordered<T>(xs: seq<T>, le: (T, T) -> bool)
  {
    forall i, j :: 0 <= i < j < |xs| ==> le(xs[i], xs[j])
  }

  /** Puts `x` in front of the first element it is `le`. */
  function Insert<T(!new)>(x: T, xs: seq<T>, le: (T, T) -> bool): (r: seq<T>)
    requires Total(le) && Sorted(xs, le)
    ensures multiset(r) == multiset(xs) + multiset{x}
    ensures Sorted(r, le)
    ensures r[0] == x || (xs != [] && r[0] == xs[0])
  {
    if xs == [] then [x]
    else if le(x, xs[0]) then [x] + xs
    else
      var rest := Insert(x, xs[1..], le);
      assert xs == [xs[0]] + xs[1..];
      [xs[0]] + rest
  }

  /** Insertion sort: a sorted permutation of `xs`. */
  function InsertionSort<T(!new)>(xs: seq<T>, le: (T, T) -> bool): (r: seq<T>)
    requires Total(le)
    ensures multiset(r) == multiset(xs)
    ensures Sorted(r, le)
  {
    if xs == [] then []
    else
      assert xs == [xs[0]] + xs[1..];
      Insert(xs[0], InsertionSort(xs[1..], le), le)
  }

  /** Under a transitive order, adjacent order is order between any two positions. */
  lemma SortedIsOrdered<T(!new)>(xs: seq<T>, le: (T, T) -> bool)
    requires Transitive(le) && Sorted(xs, le)
    ensures Ordered(xs, le)
  {
    forall i, j | 0 <= i < j < |xs| ensures le(xs[i], xs[j]) {
      SortedStep(xs, le, i, j);
    }
  }

  lemma {:induction false} SortedStep<T(!new)>(xs: seq<T>, le: (T, T) -> bool, i: nat, j: nat)
    requires Transitive(le) && Sorted(xs, le)
    requires i < j < |xs|
    ensures le(xs[i], xs[j])
    decreases j - i
  {
    if i + 1 < j {
      SortedStep(xs, le, i, j - 1);
    }
  }
}
