// Facts about sequences that do not depend on the order of their elements.
module Permutations {

  function Map<T, U>(f: T -> U, xs: seq<T>): (r: seq<U>)
    ensures |r| == |xs| && forall i | 0 <= i < |xs| :: r[i] == f(xs[i])
  {
    seq(|xs|, i requires 0 <= i < |xs| => f(xs[i]))
  }

  function SetOf<T(==)>(xs: seq<T>): set<T> { set x | x in xs }

  /** len(set(xs)) == len(xs). */
  predicate Distinct<T(==)>(xs: seq<T>) { |SetOf(xs)| == |xs| }

  ghost predicate Permuted<T>(xs: seq<T>, ys: seq<T>) { multiset(xs) == multiset(ys) }

  lemma PermutedBasics<T>(xs: seq<T>, ys: seq<T>)
    requires Permuted(xs, ys)
    ensures |xs| == |ys| && SetOf(xs) == SetOf(ys)
    ensures forall x :: x in xs <==> x in ys
    ensures Distinct(xs) <==> Distinct(ys)
  {
    assert |multiset(xs)| == |xs| && |multiset(ys)| == |ys|;
    assert forall x :: x in xs <==> x in multiset(xs);
    assert forall x :: x in ys <==> x in multiset(ys);
  }

  lemma RemoveAt<T>(xs: seq<T>, i: nat)
    requires i < |xs|
    ensures multiset(xs) == multiset(xs[..i] + xs[i + 1..]) + multiset{xs[i]}
  {
    assert xs == xs[..i] + [xs[i]] + xs[i + 1..];
  }

  lemma MapRemoveAt<T, U>(f: T -> U, xs: seq<T>, i: nat)
    requires i < |xs|
    ensures multiset(Map(f, xs)) == multiset(Map(f, xs[..i] + xs[i + 1..])) + multiset{f(xs[i])}
  {
    RemoveAt(Map(f, xs), i);
    assert Map(f, xs)[..i] + Map(f, xs)[i + 1..] == Map(f, xs[..i] + xs[i + 1..]);
  }

  lemma {:induction false} MapPermuted<T, U>(f: T -> U, xs: seq<T>, ys: seq<T>)
    requires Permuted(xs, ys)
    ensures Permuted(Map(f, xs), Map(f, ys))
  {
    PermutedBasics(xs, ys);
    if xs != [] {
      var last := |xs| - 1;
      assert xs[last] in ys;
      var i: nat :| i < |ys| && ys[i] == xs[last];
      var init, rest := xs[..last] + xs[last + 1..], ys[..i] + ys[i + 1..];
      RemoveAt(xs, last);
      RemoveAt(ys, i);
      assert multiset(init) == multiset(xs) - multiset{xs[last]} == multiset(rest);
      MapPermuted(f, init, rest);
      MapRemoveAt(f, xs, last);
      MapRemoveAt(f, ys, i);
    }
  }

  /** Distinct means that no two positions hold the same element. */
  lemma {:induction false} DistinctMeans<T>(xs: seq<T>)
    ensures Distinct(xs) <==> forall i, j | 0 <= i < j < |xs| :: xs[i] != xs[j]
    ensures |SetOf(xs)| <= |xs|
  {
    if xs == [] {
      assert SetOf(xs) == {};
    } else {
      var init, last := xs[..|xs| - 1], xs[|xs| - 1];
      DistinctMeans(init);
      assert xs == init + [last];
      if last in init {
        assert SetOf(xs) == SetOf(init);
      } else {
        assert SetOf(xs) == SetOf(init) + {last};
      }
    }
  }
}
