// What the evidence checks guarantee: a ranking is accepted exactly when it is
// the canonical one, and the outcome never depends on array order.
module EvidenceTheorems {
  import opened Common
  import opened Ordering
  import opened Permutations
  import opened EvidenceRanking

  // ---- the three sort orders -------------------------------------------

  lemma LexWeak(a: string, b: string, c: string)
    requires !LexLess(b, a) && !LexLess(c, b)
    ensures !LexLess(c, a)
  {
    if LexLess(c, a) {
      LexTotal(a, b);
      LexTotal(b, c);
      if a != b && b != c {
        LexTransitive(a, b, c);
        LexAsymmetric(a, c);
      }
    }
  }

  lemma IdOrderIsStrict()
    ensures StrictWeak(ById())
  {
    forall a: string, b: string | LexLess(a, b) ensures !LexLess(b, a) {
      LexAsymmetric(a, b);
    }
    forall a: string, b: string, c: string | !LexLess(b, a) && !LexLess(c, b) ensures !LexLess(c, a) {
      LexWeak(a, b, c);
    }
  }

  lemma RankOrderIsStrict()
    ensures StrictWeak(ByRank())
  {
  }

  lemma StrengthOrderIsStrict()
    ensures StrictWeak(ByStrength())
  {
    forall a: Support, b: Support | ByStrength()(a, b) ensures !ByStrength()(b, a) {
      if a.strength == b.strength {
        LexAsymmetric(a.id, b.id);
      }
    }
    forall a: Support, b: Support, c: Support | !ByStrength()(b, a) && !ByStrength()(c, b) ensures !ByStrength()(c, a) {
      if a.strength == b.strength == c.strength {
        LexWeak(a.id, b.id, c.id);
      }
    }
  }

  // ---- keys without duplicates -----------------------------------------

  lemma SortByStrengthStrictly(xs: seq<Support>)
    requires Distinct(Map(SupportId(), xs))
    ensures StrictlySorted(Sort(xs, ByStrength()), ByStrength())
  {
    var ys := Sort(xs, ByStrength());
    StrengthOrderIsStrict();
    SortSorts(xs, ByStrength());
    SortIsPermutation(xs, ByStrength());
    MapPermuted(SupportId(), xs, ys);
    PermutedBasics(Map(SupportId(), xs), Map(SupportId(), ys));
    var ids := Map(SupportId(), ys);
    DistinctMeans(ids);
    forall i, j | 0 <= i < j < |ys| ensures ByStrength()(ys[i], ys[j]) || ByStrength()(ys[j], ys[i]) {
      assert ids[i] != ids[j];
      LexTotal(ys[i].id, ys[j].id);
    }
    DistinctKeysSortStrictly(ys, ByStrength());
  }

  lemma SortByRankStrictly(xs: seq<Ranked>)
    requires Distinct(Map(Rank(), xs))
    ensures StrictlySorted(Sort(xs, ByRank()), ByRank())
  {
    var ys := Sort(xs, ByRank());
    RankOrderIsStrict();
    SortSorts(xs, ByRank());
    SortIsPermutation(xs, ByRank());
    MapPermuted(Rank(), xs, ys);
    PermutedBasics(Map(Rank(), xs), Map(Rank(), ys));
    var ranks := Map(Rank(), ys);
    DistinctMeans(ranks);
    forall i, j | 0 <= i < j < |ys| ensures ByRank()(ys[i], ys[j]) || ByRank()(ys[j], ys[i]) {
      assert ranks[i] != ranks[j];
    }
    DistinctKeysSortStrictly(ys, ByRank());
  }

  lemma SortByIdStrictly(xs: seq<string>)
    requires Distinct(xs)
    ensures StrictlySorted(Sort(xs, ById()), ById())
  {
    var ys := Sort(xs, ById());
    IdOrderIsStrict();
    SortSorts(xs, ById());
    SortIsPermutation(xs, ById());
    PermutedBasics(xs, ys);
    DistinctMeans(ys);
    forall i, j | 0 <= i < j < |ys| ensures ById()(ys[i], ys[j]) || ById()(ys[j], ys[i]) {
      LexTotal(ys[i], ys[j]);
    }
    DistinctKeysSortStrictly(ys, ById());
  }

  // ---- ranks are 1..n --------------------------------------------------

  lemma UpToIsDistinct(n: nat)
    ensures Distinct(UpTo(n))
  {
    DistinctMeans(UpTo(n));
  }

  /** Ascending integers that are exactly 1..n are 1, 2, ..., n in that order. */
  lemma {:induction false} AscendingUpTo(ks: seq<int>, n: nat)
    requires forall i, j | 0 <= i < j < |ks| :: ks[i] < ks[j]
    requires SetOf(ks) == SetOf(UpTo(n))
    ensures ks == UpTo(n)
    decreases n
  {
    DistinctMeans(ks);
    UpToIsDistinct(n);
    assert |ks| == n;
    if n > 0 {
      assert UpTo(n)[n - 1] in SetOf(UpTo(n));
      assert n in SetOf(ks);
      var last := ks[|ks| - 1];
      assert last in SetOf(UpTo(n));
      assert last == n;
      var init := ks[..|ks| - 1];
      forall k ensures k in SetOf(init) <==> k in SetOf(UpTo(n - 1)) {
        if k in SetOf(init) {
          assert k in SetOf(ks) && k < last;
          assert UpTo(n - 1)[k - 1] == k;
        }
        if k in SetOf(UpTo(n - 1)) {
          assert UpTo(n)[k - 1] == k && k in SetOf(ks);
        }
      }
      AscendingUpTo(init, n - 1);
      assert ks == init + [n];
      assert UpTo(n) == UpTo(n - 1) + [n];
    }
  }

  /** The quantities every evidence check reads are the same for permuted arrays. */
  lemma MappedBasics<T, U>(f: T -> U, xs: seq<T>, ys: seq<T>)
    requires Permuted(xs, ys)
    ensures Permuted(Map(f, xs), Map(f, ys)) && SetOf(Map(f, xs)) == SetOf(Map(f, ys))
    ensures forall u :: u in Map(f, xs) <==> u in Map(f, ys)
    ensures Distinct(Map(f, xs)) <==> Distinct(Map(f, ys))
  {
    MapPermuted(f, xs, ys);
    PermutedBasics(Map(f, xs), Map(f, ys));
  }

  // ---- the canonical ranking -------------------------------------------

  /** Rank k belongs to the k-th strongest supporting item. */
  function Canonical(supporting: seq<Support>): seq<Ranked> {
    var sorted := Sort(supporting, ByStrength());
    seq(|sorted|, i requires 0 <= i < |sorted| => Ranked(sorted[i].id, i + 1))
  }

  /** The checks that do not look at the ranking. */
  ghost predicate EvidenceWellFormed(t: Text, supporting: seq<Support>, conflicting: seq<Conflict>) {
    var ids := Map(SupportId(), supporting) + Map(ConflictId(), conflicting);
    var supportTexts, conflictTexts := Map(SupportText(t), supporting), Map(ConflictText(t), conflicting);
    && (forall id | id in ids :: IdAccepted(t, id)) && Distinct(ids)
    && "" !in supportTexts + conflictTexts
    && Distinct(Map(t.fold, supportTexts)) && Distinct(Map(t.fold, conflictTexts))
    && SetOf(Map(t.fold, supportTexts)) * SetOf(Map(t.fold, conflictTexts)) == {}
  }

  lemma DistinctPrefix(a: seq<string>, b: seq<string>)
    requires Distinct(a + b)
    ensures Distinct(a) && Distinct(b) && forall x | x in a :: x !in b
  {
    DistinctMeans(a + b);
    DistinctMeans(a);
    DistinctMeans(b);
    forall i, j | 0 <= i < j < |a| ensures a[i] != a[j] {
      assert (a + b)[i] != (a + b)[j];
    }
    forall i, j | 0 <= i < j < |b| ensures b[i] != b[j] {
      assert (a + b)[|a| + i] != (a + b)[|a| + j];
    }
    forall i, j | 0 <= i < |a| && 0 <= j < |b| ensures a[i] != b[j] {
      assert (a + b)[i] != (a + b)[|a| + j];
    }
  }

  lemma CanonicalShape(supporting: seq<Support>)
    ensures |Canonical(supporting)| == |supporting|
    ensures Map(Rank(), Canonical(supporting)) == UpTo(|supporting|)
    ensures Map(RankedId(), Canonical(supporting)) == Map(SupportId(), Sort(supporting, ByStrength()))
    ensures Permuted(Map(RankedId(), Canonical(supporting)), Map(SupportId(), supporting))
    ensures StrictlySorted(Canonical(supporting), ByRank())
  {
    SortIsPermutation(supporting, ByStrength());
    var sorted := Sort(supporting, ByStrength());
    hide Sort;
    MapPermuted(SupportId(), sorted, supporting);
    assert Map(RankedId(), Canonical(supporting)) == Map(SupportId(), sorted);
  }

  /** An accepted ranking, sorted by rank, is the canonical one. */
  lemma AcceptedIsCanonical(supporting: seq<Support>, conflicting: seq<Conflict>, ranking: seq<Ranked>)
    requires RankingFailure(supporting, conflicting, ranking).None?
    ensures Sort(ranking, ByRank()) == Canonical(supporting)
    ensures Permuted(ranking, Canonical(supporting))
  {
    var sorted := Sort(ranking, ByRank());
    SortByRankStrictly(ranking);
    SortIsPermutation(ranking, ByRank());
    MapPermuted(Rank(), ranking, sorted);
    PermutedBasics(Map(Rank(), ranking), Map(Rank(), sorted));
    var ks := Map(Rank(), sorted);
    forall i, j | 0 <= i < j < |ks| ensures ks[i] < ks[j] {
      assert ByRank()(sorted[i], sorted[j]);
    }
    AscendingUpTo(ks, |supporting|);
    CanonicalShape(supporting);
    assert Map(RankedId(), sorted) == Map(RankedId(), Canonical(supporting));
    forall i | 0 <= i < |sorted| ensures sorted[i] == Canonical(supporting)[i] {
      assert Map(RankedId(), sorted)[i] == sorted[i].id && ks[i] == sorted[i].rank;
      assert Map(RankedId(), Canonical(supporting))[i] == Canonical(supporting)[i].id;
      assert Map(Rank(), Canonical(supporting))[i] == Canonical(supporting)[i].rank;
    }
  }

  lemma CanonicalSortsBack(supporting: seq<Support>, ranking: seq<Ranked>)
    requires Permuted(ranking, Canonical(supporting)) && Distinct(Map(Rank(), ranking))
    ensures Sort(ranking, ByRank()) == Canonical(supporting)
  {
    CanonicalShape(supporting);
    SortByRankStrictly(ranking);
    SortIsPermutation(ranking, ByRank());
    RankOrderIsStrict();
    StrictlySortedIsUnique(Sort(ranking, ByRank()), Canonical(supporting), ByRank());
  }

  /** Any arrangement of the canonical ranking passes every ranking check. */
  lemma CanonicalIsAccepted(supporting: seq<Support>, conflicting: seq<Conflict>, ranking: seq<Ranked>)
    requires Distinct(Map(SupportId(), supporting) + Map(ConflictId(), conflicting))
    requires Permuted(ranking, Canonical(supporting))
    ensures RankingFailure(supporting, conflicting, ranking).None?
  {
    var supportIds := Map(SupportId(), supporting);
    DistinctPrefix(supportIds, Map(ConflictId(), conflicting));
    CanonicalShape(supporting);
    UpToIsDistinct(|supporting|);
    MappedBasics(Rank(), ranking, Canonical(supporting));
    MappedBasics(RankedId(), ranking, Canonical(supporting));
    PermutedBasics(Map(RankedId(), Canonical(supporting)), supportIds);
    CanonicalSortsBack(supporting, ranking);
    hide Canonical, Sort, Distinct, SetOf, UpTo;
  }

  lemma FactorsPassExactly(t: Text, supporting: seq<Support>, conflicting: seq<Conflict>)
    ensures FactorFailure(t, supporting, conflicting).None? <==> EvidenceWellFormed(t, supporting, conflicting)
  {
  }

  /**
   * The evidence passes exactly when it is well formed and the ranking is, up to array order, the canonical one:
   * ranks 1..n, each once, by descending strength and then ascending identifier.
   */
  lemma EvidenceAcceptedExactly(t: Text, supporting: seq<Support>, conflicting: seq<Conflict>, ranking: seq<Ranked>)
    ensures EvidenceFailure(t, supporting, conflicting, ranking).None?
            <==> EvidenceWellFormed(t, supporting, conflicting) && Permuted(ranking, Canonical(supporting))
  {
    FactorsPassExactly(t, supporting, conflicting);
    if RankingFailure(supporting, conflicting, ranking).None? {
      AcceptedIsCanonical(supporting, conflicting, ranking);
    } else if EvidenceWellFormed(t, supporting, conflicting) && Permuted(ranking, Canonical(supporting)) {
      CanonicalIsAccepted(supporting, conflicting, ranking);
    }
    hide FactorFailure, RankingFailure, EvidenceWellFormed, Canonical;
  }

  /** The order behind the canonical ranking is the only strict arrangement of the supporting items. */
  lemma CanonicalOrderIsUnique(t: Text, supporting: seq<Support>, conflicting: seq<Conflict>, other: seq<Support>)
    requires EvidenceWellFormed(t, supporting, conflicting)
    requires Permuted(other, supporting) && StrictlySorted(other, ByStrength())
    ensures other == Sort(supporting, ByStrength())
  {
    DistinctPrefix(Map(SupportId(), supporting), Map(ConflictId(), conflicting));
    SortByStrengthStrictly(supporting);
    SortIsPermutation(supporting, ByStrength());
    StrengthOrderIsStrict();
    StrictlySortedIsUnique(other, Sort(supporting, ByStrength()), ByStrength());
  }

  // ---- array order does not matter -------------------------------------

  lemma {:induction false} StatementIsTheOne(xs: seq<Support>, x: Support)
    requires Distinct(Map(SupportId(), xs)) && x in xs
    ensures StatementOf(xs, x.id) == x.statement
  {
    var ids := Map(SupportId(), xs);
    DistinctMeans(ids);
    var last := |xs| - 1;
    if xs[last].id == x.id {
      var i :| 0 <= i < |xs| && xs[i] == x;
      assert ids[i] == ids[last];
    } else {
      var init := xs[..last];
      assert Map(SupportId(), init) == ids[..last];
      DistinctMeans(ids[..last]);
      assert x in init;
      StatementIsTheOne(init, x);
    }
  }

  lemma {:induction false} StatementOfAbsent(xs: seq<Support>, id: string)
    requires id !in Map(SupportId(), xs)
    ensures StatementOf(xs, id) == ""
  {
    if xs != [] {
      var ids, init := Map(SupportId(), xs), xs[..|xs| - 1];
      assert ids[|xs| - 1] == xs[|xs| - 1].id;
      assert Map(SupportId(), init) == ids[..|xs| - 1];
      StatementOfAbsent(init, id);
    }
  }

  lemma StatementIgnoresOrder(xs: seq<Support>, ys: seq<Support>, id: string)
    requires Permuted(xs, ys) && Distinct(Map(SupportId(), xs))
    ensures StatementOf(xs, id) == StatementOf(ys, id)
  {
    var ids, others := Map(SupportId(), xs), Map(SupportId(), ys);
    MapPermuted(SupportId(), xs, ys);
    PermutedBasics(ids, others);
    PermutedBasics(xs, ys);
    if id in ids {
      var i :| 0 <= i < |ids| && ids[i] == id;
      StatementIsTheOne(xs, xs[i]);
      StatementIsTheOne(ys, xs[i]);
    } else {
      StatementOfAbsent(xs, id);
      StatementOfAbsent(ys, id);
    }
  }

  lemma StatementsIgnoreOrder(t: Text, xs: seq<Support>, ys: seq<Support>, ids: seq<string>)
    requires Permuted(xs, ys) && Distinct(Map(SupportId(), xs))
    ensures Statements(t, xs, ids) == Statements(t, ys, ids)
  {
    forall i | 0 <= i < |ids| ensures Statements(t, xs, ids)[i] == Statements(t, ys, ids)[i] {
      StatementIgnoresOrder(xs, ys, ids[i]);
    }
  }

  lemma SortedIdsIgnoreOrder(a: seq<string>, b: seq<string>)
    requires Permuted(a, b) && Distinct(a)
    ensures Sort(a, ById()) == Sort(b, ById())
  {
    PermutedBasics(a, b);
    SortByIdStrictly(a);
    SortByIdStrictly(b);
    SortIsPermutation(a, ById());
    SortIsPermutation(b, ById());
    IdOrderIsStrict();
    StrictlySortedIsUnique(Sort(a, ById()), Sort(b, ById()), ById());
  }

  lemma SortedRankingIgnoresOrder(a: seq<Ranked>, b: seq<Ranked>)
    requires Permuted(a, b) && Distinct(Map(Rank(), a))
    ensures Sort(a, ByRank()) == Sort(b, ByRank())
  {
    MapPermuted(Rank(), a, b);
    PermutedBasics(Map(Rank(), a), Map(Rank(), b));
    SortByRankStrictly(a);
    SortByRankStrictly(b);
    SortIsPermutation(a, ByRank());
    SortIsPermutation(b, ByRank());
    RankOrderIsStrict();
    StrictlySortedIsUnique(Sort(a, ByRank()), Sort(b, ByRank()), ByRank());
  }

  lemma SortedSupportIgnoresOrder(a: seq<Support>, b: seq<Support>)
    requires Permuted(a, b) && Distinct(Map(SupportId(), a))
    ensures Sort(a, ByStrength()) == Sort(b, ByStrength())
  {
    MapPermuted(SupportId(), a, b);
    PermutedBasics(Map(SupportId(), a), Map(SupportId(), b));
    SortByStrengthStrictly(a);
    SortByStrengthStrictly(b);
    SortIsPermutation(a, ByStrength());
    SortIsPermutation(b, ByStrength());
    StrengthOrderIsStrict();
    StrictlySortedIsUnique(Sort(a, ByStrength()), Sort(b, ByStrength()), ByStrength());
  }

  lemma AllIdsIgnoreOrder(s1: seq<Support>, s2: seq<Support>, c1: seq<Conflict>, c2: seq<Conflict>)
    requires Permuted(s1, s2) && Permuted(c1, c2)
    ensures var all1 := Map(SupportId(), s1) + Map(ConflictId(), c1);
      var all2 := Map(SupportId(), s2) + Map(ConflictId(), c2);
      (forall id :: id in all1 <==> id in all2) && (Distinct(all1) <==> Distinct(all2))
  {
    MapPermuted(SupportId(), s1, s2);
    MapPermuted(ConflictId(), c1, c2);
    PermutedBasics(Map(SupportId(), s1) + Map(ConflictId(), c1), Map(SupportId(), s2) + Map(ConflictId(), c2));
  }

  lemma FactorFailureIgnoresOrder(t: Text, s1: seq<Support>, s2: seq<Support>, c1: seq<Conflict>, c2: seq<Conflict>)
    requires Permuted(s1, s2) && Permuted(c1, c2)
    ensures FactorFailure(t, s1, c1) == FactorFailure(t, s2, c2)
  {
    MappedBasics(SupportText(t), s1, s2);
    MappedBasics(ConflictText(t), c1, c2);
    MappedBasics(t.fold, Map(SupportText(t), s1), Map(SupportText(t), s2));
    MappedBasics(t.fold, Map(ConflictText(t), c1), Map(ConflictText(t), c2));
    AllIdsIgnoreOrder(s1, s2, c1, c2);
    hide Map, SetOf, Distinct, IdAccepted;
  }

  lemma RankingFailureIgnoresOrder(
      s1: seq<Support>, s2: seq<Support>, c1: seq<Conflict>, c2: seq<Conflict>, r1: seq<Ranked>, r2: seq<Ranked>)
    requires Permuted(s1, s2) && Permuted(c1, c2) && Permuted(r1, r2) && Distinct(Map(SupportId(), s1))
    ensures RankingFailure(s1, c1, r1) == RankingFailure(s2, c2, r2)
  {
    hide Map, Sort, Distinct, SetOf, UpTo;
    PermutedBasics(s1, s2);
    MappedBasics(SupportId(), s1, s2);
    MappedBasics(ConflictId(), c1, c2);
    MappedBasics(RankedId(), r1, r2);
    MappedBasics(Rank(), r1, r2);
    if Distinct(Map(Rank(), r1)) {
      SortedRankingIgnoresOrder(r1, r2);
      SortedSupportIgnoresOrder(s1, s2);
    }
  }

  lemma EvidenceFailureIgnoresOrder(
      t: Text, s1: seq<Support>, s2: seq<Support>, c1: seq<Conflict>, c2: seq<Conflict>,
      r1: seq<Ranked>, r2: seq<Ranked>)
    requires Permuted(s1, s2) && Permuted(c1, c2) && Permuted(r1, r2)
    ensures EvidenceFailure(t, s1, c1, r1) == EvidenceFailure(t, s2, c2, r2)
  {
    FactorFailureIgnoresOrder(t, s1, s2, c1, c2);
    if FactorFailure(t, s1, c1).None? {
      DistinctPrefix(Map(SupportId(), s1), Map(ConflictId(), c1));
      RankingFailureIgnoresOrder(s1, s2, c1, c2, r1, r2);
    }
  }

  lemma SchemaIgnoresOrder(p: Payload, q: Payload)
    requires q == p.(supporting := q.supporting, conflicting := q.conflicting, ranking := q.ranking)
    requires Permuted(p.supporting, q.supporting) && Permuted(p.conflicting, q.conflicting)
    requires Permuted(p.ranking, q.ranking)
    ensures SchemaValid(p) == SchemaValid(q)
    ensures |p.supporting| == |q.supporting|
  {
    hide Length, Permuted, KnownRegime, KnownDirection;
    PermutedBasics(p.supporting, q.supporting);
    PermutedBasics(p.conflicting, q.conflicting);
    PermutedBasics(p.ranking, q.ranking);
  }

  /** The three reported statement lists do not depend on array order either. */
  lemma ReportedListsIgnoreOrder(t: Text, p: Payload, q: Payload)
    requires Permuted(p.supporting, q.supporting) && Permuted(p.conflicting, q.conflicting)
    requires Permuted(p.ranking, q.ranking)
    requires EvidenceFailure(t, p.supporting, p.conflicting, p.ranking).None?
    ensures Statements(t, p.supporting, Sort(Map(SupportId(), p.supporting), ById()))
            == Statements(t, q.supporting, Sort(Map(SupportId(), q.supporting), ById()))
    ensures Statements(t, Map(AsSupport(), p.conflicting), Sort(Map(ConflictId(), p.conflicting), ById()))
            == Statements(t, Map(AsSupport(), q.conflicting), Sort(Map(ConflictId(), q.conflicting), ById()))
    ensures Statements(t, p.supporting, Map(RankedId(), Sort(p.ranking, ByRank())))
            == Statements(t, q.supporting, Map(RankedId(), Sort(q.ranking, ByRank())))
  {
    var supportIds, conflictIds := Map(SupportId(), p.supporting), Map(ConflictId(), p.conflicting);
    var asSupport := Map(AsSupport(), p.conflicting);
    DistinctPrefix(supportIds, conflictIds);
    assert Map(SupportId(), asSupport) == conflictIds;
    assert Distinct(Map(Rank(), p.ranking));
    hide EvidenceFailure, Sort, Statements, Distinct, Map;
    MapPermuted(SupportId(), p.supporting, q.supporting);
    MapPermuted(ConflictId(), p.conflicting, q.conflicting);
    MapPermuted(AsSupport(), p.conflicting, q.conflicting);
    SortedIdsIgnoreOrder(supportIds, Map(SupportId(), q.supporting));
    SortedIdsIgnoreOrder(conflictIds, Map(ConflictId(), q.conflicting));
    SortedRankingIgnoresOrder(p.ranking, q.ranking);
    StatementsIgnoreOrder(t, p.supporting, q.supporting, Sort(supportIds, ById()));
    StatementsIgnoreOrder(t, asSupport, Map(AsSupport(), q.conflicting), Sort(conflictIds, ById()));
    StatementsIgnoreOrder(t, p.supporting, q.supporting, Map(RankedId(), Sort(p.ranking, ByRank())));
  }

  /**
   * Array order has no meaning: permuting the supporting, conflicting and ranking arrays never changes the
   * decision, down to the code of the fallback and the order of every reported list.
   */
  lemma OrderIndependence(t: Text, limits: Limits, p: Payload, q: Payload, c: Context)
    requires q == p.(supporting := q.supporting, conflicting := q.conflicting, ranking := q.ranking)
    requires Permuted(p.supporting, q.supporting) && Permuted(p.conflicting, q.conflicting)
    requires Permuted(p.ranking, q.ranking)
    ensures Validate(t, limits, Some(p), c) == Validate(t, limits, Some(q), c)
  {
    hide SchemaValid, EvidenceFailure, Statements, Sort, Map, NonBlank, Dedupe;
    SchemaIgnoresOrder(p, q);
    EvidenceFailureIgnoresOrder(t, p.supporting, q.supporting, p.conflicting, q.conflicting, p.ranking, q.ranking);
    if EvidenceFailure(t, p.supporting, p.conflicting, p.ranking).None? {
      ReportedListsIgnoreOrder(t, p, q);
    }
  }

  lemma FactorsAreDistinct(t: Text, supporting: seq<Support>, conflicting: seq<Conflict>)
    requires FactorFailure(t, supporting, conflicting).None?
    ensures Distinct(Map(SupportId(), supporting))
  {
    DistinctPrefix(Map(SupportId(), supporting), Map(ConflictId(), conflicting));
  }

  /** The statements of the supporting items from strongest to weakest, ties by identifier. */
  function Strongest(t: Text, supporting: seq<Support>): seq<string> {
    Map((s: Support) => Clip(t.strip(s.statement), 240), Sort(supporting, ByStrength()))
  }

  lemma RankedStatements(t: Text, supporting: seq<Support>, conflicting: seq<Conflict>, ranking: seq<Ranked>)
    requires RankingFailure(supporting, conflicting, ranking).None? && Distinct(Map(SupportId(), supporting))
    ensures Statements(t, supporting, Map(RankedId(), Sort(ranking, ByRank()))) == Strongest(t, supporting)
  {
    var sorted := Sort(supporting, ByStrength());
    AcceptedIsCanonical(supporting, conflicting, ranking);
    SortIsPermutation(supporting, ByStrength());
    CanonicalShape(supporting);
    PermutedBasics(sorted, supporting);
    var ids := Map(SupportId(), sorted);
    assert Map(RankedId(), Sort(ranking, ByRank())) == ids;
    hide Sort, Canonical, RankingFailure, Distinct;
    forall i | 0 <= i < |sorted| ensures StatementOf(supporting, ids[i]) == sorted[i].statement {
      assert sorted[i] in supporting && ids[i] == sorted[i].id;
      StatementIsTheOne(supporting, sorted[i]);
    }
  }

  /** An accepted decision reports exactly its supporting statements, in the one strict strength order. */
  lemma ReportedRanking(t: Text, limits: Limits, p: Payload, c: Context)
    requires Validate(t, limits, Some(p), c).Accepted?
    ensures Validate(t, limits, Some(p), c).ranking == Strongest(t, p.supporting)
    ensures var sorted := Sort(p.supporting, ByStrength());
      StrictlySorted(sorted, ByStrength()) && Permuted(sorted, p.supporting)
  {
    hide SchemaValid, FactorFailure, RankingFailure, Statements, Strongest, Sort, NonBlank, Dedupe;
    assert EvidenceFailure(t, p.supporting, p.conflicting, p.ranking).None?;
    FactorsAreDistinct(t, p.supporting, p.conflicting);
    RankedStatements(t, p.supporting, p.conflicting, p.ranking);
    SortByStrengthStrictly(p.supporting);
    SortIsPermutation(p.supporting, ByStrength());
  }

  function StatementById(t: Text, supporting: seq<Support>): string -> string {
    (id: string) => Clip(t.strip(StatementOf(supporting, id)), 240)
  }

  /** The ranking reports the supporting statements, each as often as the supporting list does. */
  lemma RankingRearrangesSupport(t: Text, supporting: seq<Support>, conflicting: seq<Conflict>, ranking: seq<Ranked>)
    requires RankingFailure(supporting, conflicting, ranking).None?
    ensures Permuted(Statements(t, supporting, Map(RankedId(), Sort(ranking, ByRank()))),
                     Statements(t, supporting, Sort(Map(SupportId(), supporting), ById())))
    ensures |Statements(t, supporting, Map(RankedId(), Sort(ranking, ByRank())))| == |supporting|
  {
    var ranked, listed := Map(RankedId(), Sort(ranking, ByRank())), Sort(Map(SupportId(), supporting), ById());
    AcceptedIsCanonical(supporting, conflicting, ranking);
    CanonicalShape(supporting);
    SortIsPermutation(Map(SupportId(), supporting), ById());
    hide Sort, Canonical, RankingFailure;
    assert Permuted(ranked, listed);
    MapPermuted(StatementById(t, supporting), ranked, listed);
    assert Statements(t, supporting, ranked) == Map(StatementById(t, supporting), ranked);
    assert Statements(t, supporting, listed) == Map(StatementById(t, supporting), listed);
  }

  /** What a caller may rely on in an accepted decision: its action, risk, direction and evidence fit together. */
  ghost predicate Coherent(limits: Limits, c: Context, d: Decision)
    requires d.Accepted?
  {
    var accepting := d.action in {ACCEPT_REDUCED, ACCEPT_STANDARD};
    && (d.action == ABSTAIN ==> d.abstention && d.risk == 0.0)
    && (d.action == REJECT ==> d.risk == 0.0)
    && (d.action == ACCEPT_REDUCED ==> 0.0 < d.risk < 1.0)
    && (d.action == ACCEPT_STANDARD ==> d.risk == 1.0 && d.direction != "NEUTRAL")
    && (accepting ==> !d.abstention && d.supporting != [])
    && (accepting && c.expectedDirection in ["LONG", "SHORT"] ==> d.direction == c.expectedDirection)
    && (d.risk == 0.0 || limits.minRisk <= d.risk <= limits.maxRisk)
    && c.age.Some? && -limits.maxFuture <= c.age.value <= limits.maxAge
  }

  lemma SameLength(xs: seq<string>, ys: seq<string>)
    requires Permuted(xs, ys)
    ensures |xs| == |ys|
  {
    PermutedBasics(xs, ys);
  }

  /** Every accepted decision is coherent, and its ranking is a rearrangement of its supporting statements. */
  lemma AcceptedIsCoherent(t: Text, limits: Limits, p: Payload, c: Context)
    ensures var d := Validate(t, limits, Some(p), c);
      d.Accepted? ==> Coherent(limits, c, d) && Permuted(d.ranking, d.supporting)
  {
    hide SchemaValid, FactorFailure, RankingFailure, Statements, Sort, Map, NonBlank, Dedupe, Permuted;
    if EvidenceFailure(t, p.supporting, p.conflicting, p.ranking).None? {
      RankingRearrangesSupport(t, p.supporting, p.conflicting, p.ranking);
      SameLength(Statements(t, p.supporting, Map(RankedId(), Sort(p.ranking, ByRank()))),
                 Statements(t, p.supporting, Sort(Map(SupportId(), p.supporting), ById())));
    }
  }
}
