// Lexicographic string order, and sorting as Python's sorted() does it.
module Ordering {

  // ---- strings ---------------------------------------------------------

  /** Strict lexicographic order on code points. */
  predicate LexLess(a: string, b: string) {
    |b| > 0 && (|a| == 0 || a[0] < b[0] || (a[0] == b[0] && LexLess(a[1..], b[1..])))
  }

  lemma {:induction false} LexIrreflexive(a: string)
    ensures !LexLess(a, a)
  {
    if a != "" {
      LexIrreflexive(a[1..]);
    }
  }

  lemma {:induction false} LexTransitive(a: string, b: string, c: string)
    requires LexLess(a, b) && LexLess(b, c)
    ensures LexLess(a, c)
  {
    if a != "" && a[0] == b[0] && b[0] == c[0] {
      LexTransitive(a[1..], b[1..], c[1..]);
    }
  }

  lemma {:induction false} LexTotal(a: string, b: string)
    ensures a == b || LexLess(a, b) || LexLess(b, a)
  {
    if a != "" && b != "" && a[0] == b[0] {
      LexTotal(a[1..], b[1..]);
      assert a == [a[0]] + a[1..] && b == [b[0]] + b[1..];
    }
  }

  lemma LexAsymmetric(a: string, b: string)
    requires LexLess(a, b)
    ensures !LexLess(b, a)
  {
    if LexLess(b, a) {
      LexTransitive(a, b, a);
      LexIrreflexive(a);
    }
  }

  /** Comparing two strings with a common prefix compares what follows. */
  lemma {:induction false} LexCommonPrefix(p: string, a: string, b: string)
    ensures LexLess(p + a, p + b) <==> LexLess(a, b)
  {
    if p == "" {
      assert p + a == a && p + b == b;
    } else {
      LexCommonPrefix(p[1..], a, b);
      assert (p + a)[1..] == p[1..] + a && (p + b)[1..] == p[1..] + b;
    }
  }

  /** Two strings of equal length decide the comparison if they differ. */
  lemma {:induction false} LexDecidedByHead(h: string, g: string, a: string, b: string)
    requires |h| == |g| && h != g
    ensures LexLess(h + a, g + b) <==> LexLess(h, g)
  {
    if h[0] == g[0] {
      assert h == [h[0]] + h[1..] && g == [g[0]] + g[1..];
      LexDecidedByHead(h[1..], g[1..], a, b);
      assert (h + a)[1..] == h[1..] + a && (g + b)[1..] == g[1..] + b;
    }
  }

  // ---- sorting ---------------------------------------------------------

  /** An order that Python's key comparison provides: strict, and transitive on ties as well. */
  ghost predicate StrictWeak<T(!new)>(less: (T, T) -> bool) {
    && (forall a, b :: less(a, b) ==> !less(b, a))
    && (forall a, b, c :: !less(b, a) && !less(c, b) ==> !less(c, a))
  }

  /** x goes before the first element that is greater. */
  function Insert<T>(x: T, xs: seq<T>, less: (T, T) -> bool): seq<T> {
    if xs == [] then [x]
    else if less(x, xs[0]) then [x] + xs
    else [xs[0]] + Insert(x, xs[1..], less)
  }

  function Sort<T>(xs: seq<T>, less: (T, T) -> bool): seq<T> {
    if xs == [] then []
    else Insert(xs[|xs| - 1], Sort(xs[..|xs| - 1], less), less)
  }

  ghost predicate Sorted<T>(xs: seq<T>, less: (T, T) -> bool) {
    forall i, j | 0 <= i < j < |xs| :: !less(xs[j], xs[i])
  }

  ghost predicate StrictlySorted<T>(xs: seq<T>, less: (T, T) -> bool) {
    forall i, j | 0 <= i < j < |xs| :: less(xs[i], xs[j])
  }

  lemma {:induction false} InsertIsPermutation<T>(x: T, xs: seq<T>, less: (T, T) -> bool)
    ensures multiset(Insert(x, xs, less)) == multiset(xs) + multiset{x}
  {
    if xs != [] {
      assert xs == [xs[0]] + xs[1..];
      InsertIsPermutation(x, xs[1..], less);
    }
  }

  lemma {:induction false} SortIsPermutation<T>(xs: seq<T>, less: (T, T) -> bool)
    ensures multiset(Sort(xs, less)) == multiset(xs)
    ensures |Sort(xs, less)| == |xs|
  {
    if xs != [] {
      assert xs == xs[..|xs| - 1] + [xs[|xs| - 1]];
      SortIsPermutation(xs[..|xs| - 1], less);
      InsertIsPermutation(xs[|xs| - 1], Sort(xs[..|xs| - 1], less), less);
    }
    assert |Sort(xs, less)| == |multiset(Sort(xs, less))| == |multiset(xs)|;
  }

  lemma {:induction false} InsertSorts<T(!new)>(x: T, xs: seq<T>, less: (T, T) -> bool)
    requires StrictWeak(less) && Sorted(xs, less)
    ensures Sorted(Insert(x, xs, less), less)
  {
    if xs != [] && !less(x, xs[0]) {
      var rest := Insert(x, xs[1..], less);
      InsertSorts(x, xs[1..], less);
      InsertIsPermutation(x, xs[1..], less);
      forall j | 0 <= j < |rest| ensures !less(rest[j], xs[0]) {
        assert rest[j] in multiset(rest);
        assert rest[j] == x || rest[j] in xs[1..];
      }
    }
  }

  lemma {:induction false} SortSorts<T(!new)>(xs: seq<T>, less: (T, T) -> bool)
    requires StrictWeak(less)
    ensures Sorted(Sort(xs, less), less)
  {
    if xs != [] {
      SortSorts(xs[..|xs| - 1], less);
      InsertSorts(xs[|xs| - 1], Sort(xs[..|xs| - 1], less), less);
    }
  }

  lemma SameLeast<T(!new)>(xs: seq<T>, ys: seq<T>, less: (T, T) -> bool)
    requires forall a, b :: less(a, b) ==> !less(b, a)
    requires StrictlySorted(xs, less) && StrictlySorted(ys, less)
    requires xs != [] && ys != [] && xs[0] in ys && ys[0] in xs
    ensures xs[0] == ys[0]
  {
    var i :| 0 <= i < |ys| && ys[i] == xs[0];
    var j :| 0 <= j < |xs| && xs[j] == ys[0];
  }

  lemma TailPermuted<T>(xs: seq<T>, ys: seq<T>)
    requires xs != [] && ys != [] && xs[0] == ys[0] && multiset(xs) == multiset(ys)
    ensures multiset(xs[1..]) == multiset(ys[1..])
  {
    assert xs == [xs[0]] + xs[1..] && ys == [ys[0]] + ys[1..];
    assert multiset(xs[1..]) == multiset(xs) - multiset{xs[0]};
    assert multiset(ys[1..]) == multiset(ys) - multiset{ys[0]};
  }

  /** A strictly sorted arrangement of given elements is unique. */
  lemma {:induction false} StrictlySortedIsUnique<T(!new)>(xs: seq<T>, ys: seq<T>, less: (T, T) -> bool)
    requires StrictWeak(less)
    requires StrictlySorted(xs, less) && StrictlySorted(ys, less) && multiset(xs) == multiset(ys)
    ensures xs == ys
  {
    assert |xs| == |multiset(xs)| == |multiset(ys)| == |ys|;
    if xs != [] {
      assert xs[0] in multiset(ys) && ys[0] in multiset(xs);
      SameLeast(xs, ys, less);
      TailPermuted(xs, ys);
      StrictlySortedIsUnique(xs[1..], ys[1..], less);
      assert xs == [xs[0]] + xs[1..] && ys == [ys[0]] + ys[1..];
    }
  }

  /** Where keys differ, sorted means strictly sorted. */
  lemma DistinctKeysSortStrictly<T(!new)>(xs: seq<T>, less: (T, T) -> bool)
    requires Sorted(xs, less)
    requires forall i, j | 0 <= i < j < |xs| :: less(xs[i], xs[j]) || less(xs[j], xs[i])
    ensures StrictlySorted(xs, less)
  {
  }
}
