/**
 * Sums over sequences and over sets: the shape shared by every holdings fold of the ledger
 * (`volumes.merge(symbol, delta, Long::sum)`, `total += volume`, `currentShares -= volume`).
 * A fold is a key (what is being counted) and a weight (how much one element contributes to it).
 */
module Folds {

  /** The sum of `weight(x, key)` over the elements `x` of `xs`, taken left to right. */
  function Sum<T, K>(xs: seq<T>, key: K, weight: (T, K) -> int): int
  {
    if xs == [] then 0 else Sum(xs[..|xs| - 1], key, weight) + weight(xs[|xs| - 1], key)
  }

  lemma {:induction false} SumAppend<T, K>(xs: seq<T>, ys: seq<T>, key: K, weight: (T, K) -> int)
    ensures Sum(xs + ys, key, weight) == Sum(xs, key, weight) + Sum(ys, key, weight)
    decreases |ys|
  {
    if ys == [] {
      assert xs + ys == xs;
    } else {
      var ys' := ys[..|ys| - 1];
      assert (xs + ys)[..|xs + ys| - 1] == xs + ys';
      SumAppend(xs, ys', key, weight);
    }
  }

  lemma SumOfOne<T, K>(x: T, key: K, weight: (T, K) -> int)
    ensures Sum([x], key, weight) == weight(x, key)
  {
    assert [x][..0] == [];
  }

  lemma SumOfTwo<T, K>(x: T, y: T, key: K, weight: (T, K) -> int)
    ensures Sum([x, y], key, weight) == weight(x, key) + weight(y, key)
  {
    assert [x, y][..1] == [x];
    SumOfOne(x, key, weight);
  }

  /** Taking the element at `j` out of `ys` takes one copy of it out of its multiset. */
  lemma RemoveAt<T>(ys: seq<T>, j: nat)
    requires j < |ys|
    ensures multiset(ys[..j] + ys[j + 1..]) == multiset(ys) - multiset{ys[j]}
  {
    assert ys == ys[..j] + [ys[j]] + ys[j + 1..];
  }

  /** The sum of `ys` is the sum without its element at `j`, plus that element's weight. */
  lemma SumRemoveAt<T, K>(ys: seq<T>, j: nat, key: K, weight: (T, K) -> int)
    requires j < |ys|
    ensures Sum(ys, key, weight) == Sum(ys[..j] + ys[j + 1..], key, weight) + weight(ys[j], key)
  {
    var front, mid, back := ys[..j], [ys[j]], ys[j + 1..];
    assert ys == front + (mid + back);
    SumAppend(front, mid + back, key, weight);
    SumAppend(mid, back, key, weight);
    SumAppend(front, back, key, weight);
    SumOfOne(ys[j], key, weight);
  }

  /** The order in which the elements are visited does not change the sum. */
  lemma {:induction false} SumPermutation<T, K>(xs: seq<T>, ys: seq<T>, key: K, weight: (T, K) -> int)
    requires multiset(xs) == multiset(ys)
    ensures Sum(xs, key, weight) == Sum(ys, key, weight)
    decreases |xs|
  {
    if xs != [] {
      var n := |xs| - 1;
      var x := xs[n];
      assert x in multiset(ys) by {
        assert x in multiset(xs);
      }
      var j :| 0 <= j < |ys| && ys[j] == x;
      RemoveAt(xs, n);
      RemoveAt(ys, j);
      assert xs[..n] + xs[n + 1..] == xs[..n];
      SumPermutation(xs[..n], ys[..j] + ys[j + 1..], key, weight);
      SumRemoveAt(ys, j, key, weight);
    }
  }

  /** No element occurs twice. */
  ghost predicate Distinct<T>(xs: seq<T>)
  {
    forall i, j :: 0 <= i < j < |xs| ==> xs[i] != xs[j]
  }

  /** Dropping the last element of a list without repeats: the rest has none, and does not hold that element. */
  lemma DistinctInit<T>(xs: seq<T>)
    requires Distinct(xs) && xs != []
    ensures Distinct(xs[..|xs| - 1])
    ensures xs[|xs| - 1] !in xs[..|xs| - 1]
    ensures forall x :: x in xs <==> x in xs[..|xs| - 1] || x == xs[|xs| - 1]
  {
    var n := |xs| - 1;
    assert xs == xs[..n] + [xs[n]];
    forall k | 0 <= k < n ensures xs[..n][k] != xs[n] {
      assert xs[..n][k] == xs[k];
    }
  }

  /** Some listing of the elements of a set, each once, in an unspecified order. */
  ghost function Listing<T(!new)>(s: set<T>): (xs: seq<T>)
    ensures Distinct(xs)
    ensures forall x :: x in xs <==> x in s
  {
    if s == {} then []
    else
      var x :| x in s;
      [x] + Listing(s - {x})
  }

  lemma {:induction false} DistinctCount<T>(xs: seq<T>, x: T)
    requires Distinct(xs)
    ensures multiset(xs)[x] == if x in xs then 1 else 0
    decreases |xs|
  {
    if xs != [] {
      assert xs == [xs[0]] + xs[1..];
      DistinctCount(xs[1..], x);
    }
  }

  /** Two duplicate-free sequences with the same elements are permutations of each other. */
  lemma DistinctListsAgree<T>(xs: seq<T>, ys: seq<T>)
    requires Distinct(xs) && Distinct(ys)
    requires forall x :: x in xs <==> x in ys
    ensures multiset(xs) == multiset(ys)
  {
    forall x ensures multiset(xs)[x] == multiset(ys)[x] {
      DistinctCount(xs, x);
      DistinctCount(ys, x);
    }
  }

  /** Reordering keeps a sequence free of duplicates. */
  lemma DistinctOfPermutation<T>(xs: seq<T>, ys: seq<T>)
    requires Distinct(xs) && multiset(xs) == multiset(ys)
    ensures Distinct(ys)
  {
    forall i, j | 0 <= i < j < |ys| ensures ys[i] != ys[j] {
      var y := ys[j];
      DistinctCount(xs, y);
      assert ys == ys[..j] + [y] + ys[j + 1..];
      assert multiset(ys)[y] == multiset(ys[..j])[y] + 1 + multiset(ys[j + 1..])[y];
      assert ys[i] in ys[..j];
    }
  }

  /** Summing any duplicate-free listing of a set gives the same result. */
  lemma SumOfDistinct<T(!new), K>(xs: seq<T>, s: set<T>, key: K, weight: (T, K) -> int)
    requires Distinct(xs)
    requires forall x :: x in xs <==> x in s
    ensures Sum(xs, key, weight) == Sum(Listing(s), key, weight)
  {
    DistinctListsAgree(xs, Listing(s));
    SumPermutation(xs, Listing(s), key, weight);
  }

  /** Adding one new element to a set adds its weight to the set's sum. */
  lemma SumOfListingInsert<T(!new), K>(s: set<T>, x: T, key: K, weight: (T, K) -> int)
    requires x !in s
    ensures Sum(Listing(s + {x}), key, weight) == Sum(Listing(s), key, weight) + weight(x, key)
  {
    var xs := Listing(s) + [x];
    assert Distinct(xs);
    assert forall y :: y in xs <==> y in s + {x};
    SumOfDistinct(xs, s + {x}, key, weight);
    SumAppend(Listing(s), [x], key, weight);
    assert [x][..0] == [];
  }
}
