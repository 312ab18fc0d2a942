// When a payload is accepted, what each refusal means, and what an accepted
// decision reports.
module EvidenceDecisions {
  import opened Common
  import opened Ordering
  import opened Permutations
  import opened Folds
  import opened EvidenceRanking
  import opened EvidenceTheorems

  // ---- acceptance ------------------------------------------------------

  predicate Sized(s: string, low: int, high: int) { low <= |s| && |s| <= high }

  /** What the response schema demands of the payload. */
  ghost predicate WellShaped(p: Payload) {
    && Sized(p.regime, 1, 80) && Sized(p.explanation, 1, 1000) && Sized(p.uncertaintyExplanation, 1, 600)
    && (p.direction == "LONG" || p.direction == "SHORT" || p.direction == "NEUTRAL")
    && 0.0 <= p.confidence <= 100.0 && 0.0 <= p.uncertainty <= 100.0 && 0.0 <= p.opportunityQuality <= 100.0
    && 0.0 <= p.risk <= 1.0
    && |p.supporting| <= 20 && |p.conflicting| <= 20 && |p.ranking| <= 20 && |p.invalidations| <= 20
    && 1 <= |p.regimes| <= 4
    && (forall i | 0 <= i < |p.supporting| ::
          var x := p.supporting[i]; Sized(x.id, 1, 64) && Sized(x.statement, 1, 240) && 1 <= x.strength <= 100)
    && (forall i | 0 <= i < |p.conflicting| ::
          var x := p.conflicting[i]; Sized(x.id, 1, 64) && Sized(x.statement, 1, 240))
    && (forall i | 0 <= i < |p.ranking| :: var x := p.ranking[i]; Sized(x.id, 1, 64) && 1 <= x.rank <= 20)
    && (forall i | 0 <= i < |p.invalidations| :: Sized(p.invalidations[i], 0, 240))
    && (forall i | 0 <= i < |p.regimes| :: KnownRegime(p.regimes[i]))
    && (p.symbol.Some? ==> Sized(p.symbol.value, 1, 40))
    && (p.referencePrice.Some? ==> p.referencePrice.value > 0.0)
  }

  /** The decision is about this context's symbol and price, and the context is fresh. */
  predicate AboutContext(t: Text, limits: Limits, p: Payload, c: Context) {
    && (p.symbol.Some? ==> t.upper(p.symbol.value) == c.symbol)
    && (p.symbol.None? ==> t.upper(c.symbol) == c.symbol)
    && (p.referencePrice.Some? ==>
          && c.price > 0.0
          && (Abs(p.referencePrice.value - c.price) <= 0.000000001
              || Abs(p.referencePrice.value - c.price) <= c.price * 0.000001))
    && c.age.Some? && -limits.maxFuture <= c.age.value <= limits.maxAge
  }

  /** Action, risk, abstention and direction of the payload do not contradict each other or the context. */
  predicate Consistent(limits: Limits, p: Payload, c: Context) {
    && limits.minRisk <= p.risk <= limits.maxRisk
    && match p.action
       case ACCEPT_STANDARD =>
         && p.risk == 1.0 && !p.abstention && p.supporting != [] && p.direction != "NEUTRAL"
         && (c.expectedDirection == "LONG" || c.expectedDirection == "SHORT" ==> p.direction == c.expectedDirection)
       case ACCEPT_REDUCED =>
         && 0.0 < p.risk < 1.0 && !p.abstention && p.supporting != []
         && (c.expectedDirection == "LONG" || c.expectedDirection == "SHORT" ==> p.direction == c.expectedDirection)
       case REJECT => p.risk == 0.0
       case ABSTAIN => p.abstention
       case WAIT | OBSERVE => true
  }

  lemma SchemaExactly(p: Payload)
    ensures SchemaValid(p) <==> WellShaped(p)
  {
    hide KnownRegime;
    if WellShaped(p) {
      forall x | x in p.supporting
        ensures Length(x.id, 1, 64) && Length(x.statement, 1, 240) && 1 <= x.strength <= 100
      {
        var i :| 0 <= i < |p.supporting| && p.supporting[i] == x;
      }
    }
  }

  lemma ContextExactly(t: Text, limits: Limits, p: Payload, c: Context)
    ensures EarlyFailure(t, limits, p, c).None?
            <==> SchemaValid(p) && limits.minRisk <= p.risk <= limits.maxRisk && AboutContext(t, limits, p, c)
  {
    hide SchemaValid;
  }

  lemma ConsistentExactly(limits: Limits, p: Payload, c: Context)
    requires limits.minRisk <= p.risk <= limits.maxRisk
    ensures LateFailure(p, c).None? <==> Consistent(limits, p, c)
  {
  }

  /** A lower-case letter and up to 63 lower-case letters, digits or underscores, with nothing to strip. */
  ghost predicate ProperId(t: Text, id: string) {
    && t.strip(id) == id && 0 < |id| < 65 && id[0] in "abcdefghijklmnopqrstuvwxyz"
    && forall k | 0 <= k < |id| :: id[k] in "abcdefghijklmnopqrstuvwxyz0123456789_"
  }

  /** The evidence conditions between pairs of items. */
  ghost predicate ProperEvidence(t: Text, supporting: seq<Support>, conflicting: seq<Conflict>) {
    && (forall i | 0 <= i < |supporting| ::
          ProperId(t, supporting[i].id) && t.strip(supporting[i].statement) != "")
    && (forall i | 0 <= i < |conflicting| ::
          ProperId(t, conflicting[i].id) && t.strip(conflicting[i].statement) != "")
    && (forall i, j | 0 <= i < j < |supporting| ::
          && supporting[i].id != supporting[j].id
          && t.fold(t.strip(supporting[i].statement)) != t.fold(t.strip(supporting[j].statement)))
    && (forall i, j | 0 <= i < j < |conflicting| ::
          && conflicting[i].id != conflicting[j].id
          && t.fold(t.strip(conflicting[i].statement)) != t.fold(t.strip(conflicting[j].statement)))
    && (forall i, j | 0 <= i < |supporting| && 0 <= j < |conflicting| ::
          && supporting[i].id != conflicting[j].id
          && t.fold(t.strip(supporting[i].statement)) != t.fold(t.strip(conflicting[j].statement)))
  }

  lemma LetterExactly(c: char)
    ensures c in "abcdefghijklmnopqrstuvwxyz" <==> 'a' <= c <= 'z'
  {
    var letters := "abcdefghijklmnopqrstuvwxyz";
    assert forall i | 0 <= i < |letters| :: letters[i] == ('a' as int + i) as char;
    if 'a' <= c <= 'z' {
      assert letters[c as int - 'a' as int] == c;
    }
  }

  lemma IdCharExactly(c: char)
    ensures c in "abcdefghijklmnopqrstuvwxyz0123456789_" <==> 'a' <= c <= 'z' || '0' <= c <= '9' || c == '_'
  {
    var digits := "0123456789";
    LetterExactly(c);
    assert "abcdefghijklmnopqrstuvwxyz0123456789_" == "abcdefghijklmnopqrstuvwxyz" + digits + "_";
    assert forall i | 0 <= i < |digits| :: digits[i] == ('0' as int + i) as char;
    if '0' <= c <= '9' {
      assert digits[c as int - '0' as int] == c;
    }
  }

  lemma ProperIdExactly(t: Text, id: string)
    ensures IdAccepted(t, id) <==> ProperId(t, id)
  {
    forall c: char ensures c in "abcdefghijklmnopqrstuvwxyz" <==> 'a' <= c <= 'z' {
      LetterExactly(c);
    }
    forall c: char
      ensures c in "abcdefghijklmnopqrstuvwxyz0123456789_"
              <==> 'a' <= c <= 'z' || '0' <= c <= '9' || c == '_'
    {
      IdCharExactly(c);
    }
  }

  lemma IdsExactly(t: Text, supporting: seq<Support>, conflicting: seq<Conflict>)
    ensures var ids := Map(SupportId(), supporting) + Map(ConflictId(), conflicting);
      (forall id | id in ids :: IdAccepted(t, id))
      <==> (forall i | 0 <= i < |supporting| :: ProperId(t, supporting[i].id))
           && forall i | 0 <= i < |conflicting| :: ProperId(t, conflicting[i].id)
  {
    var a, b := Map(SupportId(), supporting), Map(ConflictId(), conflicting);
    hide IdAccepted, ProperId;
    forall id ensures IdAccepted(t, id) <==> ProperId(t, id) {
      ProperIdExactly(t, id);
    }
    assert forall i | 0 <= i < |supporting| :: a[i] in a + b;
    assert forall i | 0 <= i < |conflicting| :: b[i] in a + b;
  }

  lemma TextsExactly(t: Text, supporting: seq<Support>, conflicting: seq<Conflict>)
    ensures "" !in Map(SupportText(t), supporting) + Map(ConflictText(t), conflicting)
            <==> (forall i | 0 <= i < |supporting| :: t.strip(supporting[i].statement) != "")
                 && forall i | 0 <= i < |conflicting| :: t.strip(conflicting[i].statement) != ""
  {
    var a, b := Map(SupportText(t), supporting), Map(ConflictText(t), conflicting);
    assert forall i | 0 <= i < |supporting| :: a[i] in a + b;
    assert forall i | 0 <= i < |conflicting| :: b[i] in a + b;
  }

  lemma DistinctConcat(a: seq<string>, b: seq<string>)
    ensures Distinct(a + b)
            <==> Distinct(a) && Distinct(b) && forall i, j | 0 <= i < |a| && 0 <= j < |b| :: a[i] != b[j]
  {
    var all := a + b;
    DistinctMeans(all);
    DistinctMeans(a);
    DistinctMeans(b);
    hide Distinct;
    if Distinct(all) {
      DistinctPrefix(a, b);
      forall i, j | 0 <= i < |a| && 0 <= j < |b| ensures a[i] != b[j] {
        assert a[i] in a && b[j] in b;
      }
    } else {
      var i, j :| 0 <= i < j < |all| && all[i] == all[j];
      assert i < |a| <= j ==> a[i] == b[j - |a|];
      assert j < |a| ==> a[i] == a[j];
      assert |a| <= i ==> b[i - |a|] == b[j - |a|];
    }
  }

  lemma DisjointExactly(a: seq<string>, b: seq<string>)
    ensures SetOf(a) * SetOf(b) == {} <==> forall i, j | 0 <= i < |a| && 0 <= j < |b| :: a[i] != b[j]
  {
    if SetOf(a) * SetOf(b) != {} {
      var x :| x in SetOf(a) * SetOf(b);
      var i :| 0 <= i < |a| && a[i] == x;
      var j :| 0 <= j < |b| && b[j] == x;
    }
    if i, j :| 0 <= i < |a| && 0 <= j < |b| && a[i] == b[j] {
      assert a[i] in SetOf(a) * SetOf(b);
    }
  }

  /** The set comparisons of the checks say what they are meant to say about the items. */
  lemma WellFormedExactly(t: Text, supporting: seq<Support>, conflicting: seq<Conflict>)
    ensures EvidenceWellFormed(t, supporting, conflicting) <==> ProperEvidence(t, supporting, conflicting)
  {
    var a, b := Map(SupportId(), supporting), Map(ConflictId(), conflicting);
    var f := Map(t.fold, Map(SupportText(t), supporting));
    var g := Map(t.fold, Map(ConflictText(t), conflicting));
    IdsExactly(t, supporting, conflicting);
    TextsExactly(t, supporting, conflicting);
    DistinctConcat(a, b);
    DistinctMeans(a);
    DistinctMeans(b);
    DistinctMeans(f);
    DistinctMeans(g);
    DisjointExactly(f, g);
    hide IdAccepted, ProperId, Distinct, SetOf, Map;
  }

  lemma ConsistentNeedsRisk(limits: Limits, p: Payload, c: Context)
    ensures Consistent(limits, p, c) ==> limits.minRisk <= p.risk <= limits.maxRisk
  {
  }

  lemma EarlyIsFallback(t: Text, limits: Limits, p: Payload, c: Context)
    ensures EarlyFailure(t, limits, p, c).Some? ==> EarlyFailure(t, limits, p, c).value.Fallback?
  {
    hide SchemaValid;
  }

  lemma LateIsFallback(p: Payload, c: Context)
    ensures LateFailure(p, c).Some? ==> LateFailure(p, c).value.Fallback?
  {
  }

  lemma ValidateExactly(t: Text, limits: Limits, p: Payload, c: Context)
    ensures Validate(t, limits, Some(p), c).Accepted?
            <==> && EarlyFailure(t, limits, p, c).None?
                 && EvidenceFailure(t, p.supporting, p.conflicting, p.ranking).None?
                 && LateFailure(p, c).None?
  {
    EarlyIsFallback(t, limits, p, c);
    LateIsFallback(p, c);
    hide EarlyFailure, LateFailure, EvidenceFailure, Statements, Sort, Map, NonBlank, Dedupe;
  }

  /** Acceptance, exactly: shape, context, evidence with its ranking, and consistency of the decision with itself. */
  lemma AcceptedExactly(t: Text, limits: Limits, p: Payload, c: Context)
    ensures Validate(t, limits, Some(p), c).Accepted?
            <==> && WellShaped(p)
                 && AboutContext(t, limits, p, c)
                 && ProperEvidence(t, p.supporting, p.conflicting)
                 && Permuted(p.ranking, Canonical(p.supporting))
                 && Consistent(limits, p, c)
  {
    hide *;
    SchemaExactly(p);
    ContextExactly(t, limits, p, c);
    EvidenceAcceptedExactly(t, p.supporting, p.conflicting, p.ranking);
    WellFormedExactly(t, p.supporting, p.conflicting);
    if limits.minRisk <= p.risk <= limits.maxRisk {
      ConsistentExactly(limits, p, c);
    }
    ConsistentNeedsRisk(limits, p, c);
    ValidateExactly(t, limits, p, c);
  }

  // ---- what the conditions mean, item by item --------------------------

  lemma SameIdSameItem(xs: seq<Support>, x: Support, y: Support)
    requires Distinct(Map(SupportId(), xs)) && x in xs && y in xs && x.id == y.id
    ensures x == y
  {
    DistinctMeans(Map(SupportId(), xs));
    var i :| 0 <= i < |xs| && xs[i] == x;
    var j :| 0 <= j < |xs| && xs[j] == y;
    assert Map(SupportId(), xs)[i] == Map(SupportId(), xs)[j];
  }

  /** In the canonical ranking rank k is the k-th item by descending strength and, on ties, ascending identifier. */
  lemma CanonicalMeans(supporting: seq<Support>, i: nat, j: nat, a: Support, b: Support)
    requires Distinct(Map(SupportId(), supporting)) && a in supporting && b in supporting
    requires i < j < |Canonical(supporting)|
    requires a.id == Canonical(supporting)[i].id && b.id == Canonical(supporting)[j].id
    ensures Canonical(supporting)[i].rank == i + 1
    ensures a.strength > b.strength || (a.strength == b.strength && LexLess(a.id, b.id))
  {
    var sorted := Sort(supporting, ByStrength());
    SortByStrengthStrictly(supporting);
    SortIsPermutation(supporting, ByStrength());
    PermutedBasics(sorted, supporting);
    hide Sort;
    SameIdSameItem(supporting, a, sorted[i]);
    SameIdSameItem(supporting, b, sorted[j]);
    assert ByStrength()(sorted[i], sorted[j]);
  }

  // ---- what a code means -----------------------------------------------

  ghost predicate RepeatedText(t: Text, xs: seq<string>) {
    exists i, j :: 0 <= i < j < |xs| && t.fold(xs[i]) == t.fold(xs[j])
  }

  ghost predicate Repeats(xs: seq<string>) { exists i, j :: 0 <= i < j < |xs| && xs[i] == xs[j] }

  /** The defect that each code of the item checks names. */
  ghost predicate NamesFactor(t: Text, supporting: seq<Support>, conflicting: seq<Conflict>, code: string) {
    var ids := Map(SupportId(), supporting) + Map(ConflictId(), conflicting);
    var a, b := Map(SupportText(t), supporting), Map(ConflictText(t), conflicting);
    if code == "EVIDENCE_ID_INVALID" then exists id :: id in ids && !ProperId(t, id)
    else if code == "EVIDENCE_ID_DUPLICATE" then Repeats(ids)
    else if code == "EVIDENCE_STATEMENT_INVALID" then "" in a + b
    else if code == "EVIDENCE_STATEMENT_DUPLICATE" then RepeatedText(t, a) || RepeatedText(t, b)
    else code == "EVIDENCE_CLASSIFICATION_CONFLICT"
         && exists i, j :: 0 <= i < |a| && 0 <= j < |b| && t.fold(a[i]) == t.fold(b[j])
  }

  /** The defect that each code of the ranking checks names. */
  ghost predicate NamesRanking(
      supporting: seq<Support>, conflicting: seq<Conflict>, ranking: seq<Ranked>, code: string)
  {
    var ids, conflictIds := Map(SupportId(), supporting), Map(ConflictId(), conflicting);
    var ranked := Map(RankedId(), ranking);
    if code == "EVIDENCE_RANK_DUPLICATE" then
      exists i, j :: 0 <= i < j < |ranking| && ranking[i].rank == ranking[j].rank
    else if code == "EVIDENCE_RANK_REFERENCE_DUPLICATE" then Repeats(ranked)
    else if code == "EVIDENCE_RANK_CONFLICTING_REFERENCE" then exists id :: id in ranked && id in conflictIds
    else if code == "EVIDENCE_RANK_REFERENCE_MISSING" then exists id :: id in ranked && id !in ids
    else if code == "EVIDENCE_RANKING_INCOMPLETE" then exists id :: id in ids && id !in ranked
    else if code == "EVIDENCE_RANK_OUT_OF_RANGE" then
      exists i :: 0 <= i < |ranking| && !(1 <= ranking[i].rank <= |supporting|)
    else code == "EVIDENCE_RANK_ORDER_INVALID" && !Permuted(ranking, Canonical(supporting))
  }

  lemma RepeatsExactly(xs: seq<string>)
    ensures !Distinct(xs) <==> Repeats(xs)
  {
    DistinctMeans(xs);
  }

  lemma RepeatedTextExactly(t: Text, xs: seq<string>)
    ensures !Distinct(Map(t.fold, xs)) <==> RepeatedText(t, xs)
  {
    DistinctMeans(Map(t.fold, xs));
  }

  /** A code of the item checks is returned only where the defect that it names is there. */
  lemma FactorCodeIsRight(t: Text, supporting: seq<Support>, conflicting: seq<Conflict>)
    requires FactorFailure(t, supporting, conflicting).Some?
    ensures NamesFactor(t, supporting, conflicting, FactorFailure(t, supporting, conflicting).value)
  {
    var ids := Map(SupportId(), supporting) + Map(ConflictId(), conflicting);
    var a, b := Map(SupportText(t), supporting), Map(ConflictText(t), conflicting);
    forall id ensures IdAccepted(t, id) <==> ProperId(t, id) {
      ProperIdExactly(t, id);
    }
    RepeatsExactly(ids);
    RepeatedTextExactly(t, a);
    RepeatedTextExactly(t, b);
    DisjointExactly(Map(t.fold, a), Map(t.fold, b));
    hide IdAccepted, ProperId, Distinct, SetOf, Repeats, RepeatedText;
  }

  lemma SubsetOfSameSize(a: set<int>, b: set<int>)
    requires a <= b && |a| == |b|
    ensures a == b
  {
    assert |b - a| == |b| - |a|;
    assert b == a + (b - a);
  }

  /** Distinct ranks, as many as there are items, that are not 1..n contain one outside that range. */
  lemma RankOutsideRange(supporting: seq<Support>, ranking: seq<Ranked>)
    requires Distinct(Map(Rank(), ranking)) && Distinct(Map(RankedId(), ranking))
    requires Distinct(Map(SupportId(), supporting))
    requires SetOf(Map(RankedId(), ranking)) == SetOf(Map(SupportId(), supporting))
    requires SetOf(Map(Rank(), ranking)) != SetOf(UpTo(|supporting|))
    ensures exists i :: 0 <= i < |ranking| && !(1 <= ranking[i].rank <= |supporting|)
  {
    var n, ranks := |supporting|, Map(Rank(), ranking);
    UpToIsDistinct(n);
    if forall i | 0 <= i < |ranking| :: 1 <= ranking[i].rank <= n {
      forall k | k in SetOf(ranks) ensures k in SetOf(UpTo(n)) {
        var i :| 0 <= i < |ranks| && ranks[i] == k;
        assert UpTo(n)[k - 1] == k;
      }
      SubsetOfSameSize(SetOf(ranks), SetOf(UpTo(n)));
    }
  }

  lemma SetsDiffer(ranked: seq<string>, ids: seq<string>)
    requires SetOf(ranked) != SetOf(ids) && forall id | id in ranked :: id in ids
    ensures exists id :: id in ids && id !in ranked
  {
    var a, b := SetOf(ranked), SetOf(ids);
    assert a <= b;
    assert b - a != {} by {
      assert b == a + (b - a);
    }
    var id :| id in b - a;
  }

  lemma RepeatedRank(ranking: seq<Ranked>)
    requires !Distinct(Map(Rank(), ranking))
    ensures exists i, j :: 0 <= i < j < |ranking| && ranking[i].rank == ranking[j].rank
  {
    var ranks := Map(Rank(), ranking);
    DistinctMeans(ranks);
    var i, j :| 0 <= i < j < |ranks| && ranks[i] == ranks[j];
    assert ranking[i].rank == ranking[j].rank;
  }

  /** The first four ranking checks. */
  lemma ReferenceCodeIsRight(supporting: seq<Support>, conflicting: seq<Conflict>, ranking: seq<Ranked>)
    requires var ids, ranked := Map(SupportId(), supporting), Map(RankedId(), ranking);
      || !Distinct(Map(Rank(), ranking)) || !Distinct(ranked)
      || (exists id :: id in ranked && id in Map(ConflictId(), conflicting)) || exists id :: id in ranked && id !in ids
    ensures var failure := RankingFailure(supporting, conflicting, ranking);
      failure.Some? && NamesRanking(supporting, conflicting, ranking, failure.value)
  {
    RepeatsExactly(Map(RankedId(), ranking));
    if !Distinct(Map(Rank(), ranking)) {
      RepeatedRank(ranking);
    }
    hide Distinct, Repeats, Canonical, Permuted, Sort, UpTo, SetOf, Map;
  }

  /** The last three, once every reference is to a supporting item and none is repeated. */
  lemma OrderCodeIsRight(supporting: seq<Support>, conflicting: seq<Conflict>, ranking: seq<Ranked>)
    requires Distinct(Map(SupportId(), supporting) + Map(ConflictId(), conflicting))
    requires Distinct(Map(Rank(), ranking)) && Distinct(Map(RankedId(), ranking))
    requires forall id | id in Map(RankedId(), ranking) :: id in Map(SupportId(), supporting)
    requires RankingFailure(supporting, conflicting, ranking).Some?
    ensures NamesRanking(supporting, conflicting, ranking, RankingFailure(supporting, conflicting, ranking).value)
  {
    hide Distinct, Repeats, Canonical, Permuted, Sort, UpTo, SetOf, Map;
    var ids, ranked, ranks := Map(SupportId(), supporting), Map(RankedId(), ranking), Map(Rank(), ranking);
    DistinctPrefix(ids, Map(ConflictId(), conflicting));
    if Permuted(ranking, Canonical(supporting)) {
      CanonicalIsAccepted(supporting, conflicting, ranking);
    }
    if SetOf(ranked) != SetOf(ids) {
      SetsDiffer(ranked, ids);
    } else if SetOf(ranks) != SetOf(UpTo(|supporting|)) {
      RankOutsideRange(supporting, ranking);
    }
  }

  /** And so for a code of the ranking checks, once the items have passed. */
  lemma RankingCodeIsRight(
      t: Text, supporting: seq<Support>, conflicting: seq<Conflict>, ranking: seq<Ranked>)
    requires EvidenceWellFormed(t, supporting, conflicting) && RankingFailure(supporting, conflicting, ranking).Some?
    ensures NamesRanking(supporting, conflicting, ranking, RankingFailure(supporting, conflicting, ranking).value)
  {
    var ids, ranked := Map(SupportId(), supporting), Map(RankedId(), ranking);
    hide NamesRanking, RankingFailure, Distinct, Map;
    if
      || !Distinct(Map(Rank(), ranking)) || !Distinct(ranked)
      || (exists id :: id in ranked && id in Map(ConflictId(), conflicting)) || exists id :: id in ranked && id !in ids
    {
      ReferenceCodeIsRight(supporting, conflicting, ranking);
    } else {
      OrderCodeIsRight(supporting, conflicting, ranking);
    }
  }

  // ---- what an accepted decision reports -------------------------------

  function BySupportId(): (Support, Support) -> bool { (a: Support, b: Support) => LexLess(a.id, b.id) }

  lemma SupportIdOrderIsStrict()
    ensures StrictWeak(BySupportId())
  {
    IdOrderIsStrict();
    forall a: Support, b: Support | BySupportId()(a, b) ensures !BySupportId()(b, a) {
      assert ById()(a.id, b.id);
    }
    forall a: Support, b: Support, c: Support | !BySupportId()(b, a) && !BySupportId()(c, b)
      ensures !BySupportId()(c, a)
    {
      assert !ById()(b.id, a.id) && !ById()(c.id, b.id);
    }
  }

  /** The items by ascending identifier: an arrangement of them, and the one that a statement list follows. */
  lemma ListedByIdentifier(t: Text, items: seq<Support>) returns (sorted: seq<Support>)
    requires Distinct(Map(SupportId(), items))
    ensures Permuted(sorted, items)
    ensures forall i, j | 0 <= i < j < |sorted| :: LexLess(sorted[i].id, sorted[j].id)
    ensures var list := Statements(t, items, Sort(Map(SupportId(), items), ById()));
      |list| == |sorted| && forall i | 0 <= i < |sorted| :: list[i] == Clip(t.strip(sorted[i].statement), 240)
  {
    var ids := Map(SupportId(), items);
    sorted := Sort(items, BySupportId());
    SupportIdOrderIsStrict();
    SortIsPermutation(items, BySupportId());
    SortSorts(items, BySupportId());
    MappedBasics(SupportId(), sorted, items);
    PermutedBasics(sorted, items);
    var sortedIds := Map(SupportId(), sorted);
    DistinctMeans(sortedIds);
    forall i, j | 0 <= i < j < |sorted| ensures LexLess(sorted[i].id, sorted[j].id) {
      assert sortedIds[i] != sortedIds[j] && !BySupportId()(sorted[j], sorted[i]);
      LexTotal(sorted[i].id, sorted[j].id);
    }
    SortByIdStrictly(ids);
    SortIsPermutation(ids, ById());
    IdOrderIsStrict();
    assert StrictlySorted(sortedIds, ById());
    StrictlySortedIsUnique(sortedIds, Sort(ids, ById()), ById());
    hide Sort, Distinct, StrictWeak, StrictlySorted, Sorted, Permuted;
    forall i | 0 <= i < |sorted| ensures StatementOf(items, sorted[i].id) == sorted[i].statement {
      assert sorted[i] in sorted;
      StatementIsTheOne(items, sorted[i]);
    }
  }

  /** Supporting and conflicting statements are reported by ascending identifier, each item once. */
  lemma ReportedByIdentifier(t: Text, limits: Limits, p: Payload, c: Context)
      returns (support: seq<Support>, conflict: seq<Support>)
    requires Validate(t, limits, Some(p), c).Accepted?
    ensures Permuted(support, p.supporting) && Permuted(conflict, Map(AsSupport(), p.conflicting))
    ensures forall i, j | 0 <= i < j < |support| :: LexLess(support[i].id, support[j].id)
    ensures forall i, j | 0 <= i < j < |conflict| :: LexLess(conflict[i].id, conflict[j].id)
    ensures var d := Validate(t, limits, Some(p), c);
      && |d.supporting| == |support| && |d.conflicting| == |conflict|
      && (forall i | 0 <= i < |support| :: d.supporting[i] == Clip(t.strip(support[i].statement), 240))
      && (forall i | 0 <= i < |conflict| :: d.conflicting[i] == Clip(t.strip(conflict[i].statement), 240))
  {
    var ids, conflictIds := Map(SupportId(), p.supporting), Map(ConflictId(), p.conflicting);
    var conflicts := Map(AsSupport(), p.conflicting);
    assert Map(SupportId(), conflicts) == conflictIds;
    ValidateExactly(t, limits, p, c);
    EvidenceAcceptedExactly(t, p.supporting, p.conflicting, p.ranking);
    DistinctPrefix(ids, conflictIds);
    hide EarlyFailure, LateFailure, EvidenceFailure, Statements, Sort, Map, NonBlank, Dedupe, EvidenceWellFormed;
    hide Distinct, Permuted, Canonical;
    support := ListedByIdentifier(t, p.supporting);
    conflict := ListedByIdentifier(t, conflicts);
  }

  function Visible(t: Text): string -> bool { (x: string) => t.strip(x) != "" }

  /** The schema's length limit makes the clipping idle: exactly the non-blank conditions are kept, in order. */
  lemma {:induction false} NonBlankKeepsVisible(t: Text, xs: seq<string>)
    requires forall i | 0 <= i < |xs| :: |xs[i]| <= 240
    ensures NonBlank(t, xs) == Where(xs, Visible(t))
  {
    if xs != [] {
      NonBlankKeepsVisible(t, xs[..|xs| - 1]);
    }
  }

  /** First occurrences, in order: no repetition, the same members, and a longer list only adds at the end. */
  lemma {:induction false} DedupeMeans(xs: seq<string>, n: nat)
    requires n <= |xs|
    ensures forall i, j | 0 <= i < j < |Dedupe(xs)| :: Dedupe(xs)[i] != Dedupe(xs)[j]
    ensures forall x :: x in Dedupe(xs) <==> x in xs
    ensures Dedupe(xs[..n]) <= Dedupe(xs)
  {
    if xs == [] {
      assert xs[..n] == xs;
    } else {
      var init := xs[..|xs| - 1];
      assert xs == init + [xs[|xs| - 1]];
      DedupeMeans(init, if n < |xs| then n else n - 1);
      if n < |xs| {
        assert init[..n] == xs[..n];
      } else {
        assert xs[..n] == xs;
      }
    }
  }

  lemma ShapeLengths(p: Payload)
    requires WellShaped(p)
    ensures |p.regime| <= 80 && |p.explanation| <= 1000 && |p.uncertaintyExplanation| <= 600
    ensures forall i | 0 <= i < |p.invalidations| :: |p.invalidations[i]| <= 240
  {
    hide KnownRegime;
    assert forall i | 0 <= i < |p.invalidations| :: Sized(p.invalidations[i], 0, 240);
  }

  lemma ClipIsIdle(s: string, n: nat)
    requires |s| <= n
    ensures Clip(s, n) == s
  {
  }

  /** The remaining fields of an accepted decision are those of the payload; only ABSTAIN overrides two of them. */
  lemma ReportedFields(t: Text, limits: Limits, p: Payload, c: Context)
    requires Validate(t, limits, Some(p), c).Accepted?
    ensures var d := Validate(t, limits, Some(p), c);
      && d.regime == p.regime && d.direction == p.direction && d.action == p.action
      && d.confidence == p.confidence && d.uncertainty == p.uncertainty
      && d.opportunityQuality == p.opportunityQuality
      && d.explanation == p.explanation && d.uncertaintyExplanation == p.uncertaintyExplanation
      && d.risk == (if p.action == ABSTAIN then 0.0 else p.risk)
      && d.abstention == (p.abstention || p.action == ABSTAIN)
      && d.invalidations == Where(p.invalidations, Visible(t))
      && (forall i, j | 0 <= i < j < |d.regimes| :: d.regimes[i] != d.regimes[j])
      && (forall x :: x in d.regimes <==> x in p.regimes)
  {
    hide EarlyFailure, LateFailure, EvidenceFailure, Statements, Sort, Map, NonBlank, Dedupe, Where, Clip;
    hide AboutContext, Consistent, ProperEvidence, Canonical, Permuted, WellShaped;
    AcceptedExactly(t, limits, p, c);
    ShapeLengths(p);
    ClipIsIdle(p.regime, 80);
    ClipIsIdle(p.explanation, 1000);
    ClipIsIdle(p.uncertaintyExplanation, 600);
    DedupeMeans(p.regimes, 0);
    NonBlankKeepsVisible(t, p.invalidations);
    EarlyIsFallback(t, limits, p, c);
    LateIsFallback(p, c);
  }
}
