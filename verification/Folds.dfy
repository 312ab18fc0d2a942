// Sums over sequences and over the classes of a partition.
module Folds {
  /** Sum of w over the elements of xs. */
  function Total<T>(xs: seq<T>, w: T -> real): real {
    if xs == [] then 0.0 else Total(xs[..|xs| - 1], w) + w(xs[|xs| - 1])
  }

  function Where<T(!new)>(xs: seq<T>, p: T -> bool): seq<T> {
    if xs == [] then []
    else Where(xs[..|xs| - 1], p) + (if p(xs[|xs| - 1]) then [xs[|xs| - 1]] else [])
  }

  function One<T>(): T -> real { _ => 1.0 }

  function InClass<T>(cls: T -> nat, b: nat): T -> bool { x => cls(x) == b }

  /** Sum of w class by class, over the classes before n. */
  function ByClass<T(!new)>(xs: seq<T>, w: T -> real, cls: T -> nat, n: nat): real {
    if n == 0 then 0.0 else ByClass(xs, w, cls, n - 1) + Total(Where(xs, InClass(cls, n - 1)), w)
  }

  lemma {:induction false} TotalOfOnes<T(!new)>(xs: seq<T>)
    ensures Total(xs, One<T>()) == |xs| as real
  {
    if xs != [] {
      TotalOfOnes(xs[..|xs| - 1]);
    }
  }

  lemma TotalAppend<T(!new)>(xs: seq<T>, x: T, w: T -> real)
    ensures Total(xs + [x], w) == Total(xs, w) + w(x)
  {
    assert (xs + [x])[..|xs|] == xs;
  }

  lemma {:induction false} ByClassAppend<T(!new)>(xs: seq<T>, x: T, w: T -> real, cls: T -> nat, n: nat)
    ensures ByClass(xs + [x], w, cls, n) == ByClass(xs, w, cls, n) + (if cls(x) < n then w(x) else 0.0)
  {
    if n > 0 {
      ByClassAppend(xs, x, w, cls, n - 1);
      assert (xs + [x])[..|xs|] == xs;
      TotalAppend(Where(xs, InClass(cls, n - 1)), x, w);
      assert Where(xs, InClass(cls, n - 1)) + [] == Where(xs, InClass(cls, n - 1));
    }
  }

  lemma {:induction false} ByClassEmpty<T(!new)>(w: T -> real, cls: T -> nat, n: nat)
    ensures ByClass([], w, cls, n) == 0.0
  {
    if n > 0 {
      ByClassEmpty(w, cls, n - 1);
    }
  }

  /** Summing class by class loses nothing when every element belongs to one of the n classes. */
  lemma {:induction false} Partition<T(!new)>(xs: seq<T>, w: T -> real, cls: T -> nat, n: nat)
    requires forall x | x in xs :: cls(x) < n
    ensures ByClass(xs, w, cls, n) == Total(xs, w)
  {
    if xs == [] {
      ByClassEmpty(w, cls, n);
    } else {
      var init, last := xs[..|xs| - 1], xs[|xs| - 1];
      assert xs == init + [last];
      Partition(init, w, cls, n);
      ByClassAppend(init, last, w, cls, n);
    }
  }

  lemma {:induction false} WhereAgree<T(!new)>(xs: seq<T>, p: T -> bool, q: T -> bool)
    requires forall x | x in xs :: p(x) == q(x)
    ensures Where(xs, p) == Where(xs, q)
  {
    if xs != [] {
      WhereAgree(xs[..|xs| - 1], p, q);
    }
  }

  // ---- by index --------------------------------------------------------

  /** term(0) + ... + term(n - 1). */
  function Sum(n: nat, term: nat -> real): real { if n == 0 then 0.0 else Sum(n - 1, term) + term(n - 1) }

  lemma {:induction false} SumDependsOnTerms(n: nat, f: nat -> real, g: nat -> real)
    requires forall k: nat | k < n :: f(k) == g(k)
    ensures Sum(n, f) == Sum(n, g)
  {
    if n > 0 {
      SumDependsOnTerms(n - 1, f, g);
    }
  }

  function Term<T>(xs: seq<T>, w: T -> real): nat -> real { (k: nat) => if k < |xs| then w(xs[k]) else 0.0 }

  lemma {:induction false} TotalIsSum<T>(xs: seq<T>, w: T -> real)
    ensures Total(xs, w) == Sum(|xs|, Term(xs, w))
  {
    if xs != [] {
      var init := xs[..|xs| - 1];
      TotalIsSum(init, w);
      SumDependsOnTerms(|init|, Term(init, w), Term(xs, w));
    }
  }

  function Indices<T(!new)>(xs: seq<T>, p: T -> bool): set<nat> { set k: nat | k < |xs| && p(xs[k]) }

  lemma {:induction false} WhereCounts<T(!new)>(xs: seq<T>, p: T -> bool)
    ensures |Where(xs, p)| == |Indices(xs, p)|
  {
    if xs == [] {
      assert Indices(xs, p) == {};
    } else {
      var n := |xs| - 1;
      WhereCounts(xs[..n], p);
      assert Indices(xs, p) == Indices(xs[..n], p) + (if p(xs[n]) then {n} else {});
    }
  }

  function Picked<T>(p: T -> bool, w: T -> real): T -> real { x => if p(x) then w(x) else 0.0 }

  lemma {:induction false} WhereSums<T(!new)>(xs: seq<T>, p: T -> bool, w: T -> real)
    ensures Total(Where(xs, p), w) == Total(xs, Picked(p, w))
  {
    if xs != [] {
      var init, last := xs[..|xs| - 1], xs[|xs| - 1];
      WhereSums(init, p, w);
      if p(last) {
        TotalAppend(Where(init, p), last, w);
      } else {
        assert Where(init, p) + [] == Where(init, p);
      }
    }
  }
}
