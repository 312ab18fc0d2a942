// AIResponseValidator.validate of services/ai_trading.py, on payloads whose
// JSON types already match the response schema. Text handling that the
// standard library supplies (strip, casefold, upper) is a parameter.
module EvidenceRanking {
  import opened Common
  import opened Ordering
  import opened Permutations

  datatype Support = Support(id: string, statement: string, strength: int)

  datatype Conflict = Conflict(id: string, statement: string)

  datatype Ranked = Ranked(id: string, rank: int)

  datatype Action = REJECT | WAIT | OBSERVE | ACCEPT_REDUCED | ACCEPT_STANDARD | ABSTAIN

  datatype Payload = Payload(
    regime: string, direction: string, confidence: real, uncertainty: real, action: Action, risk: real,
    abstention: bool, supporting: seq<Support>, conflicting: seq<Conflict>, invalidations: seq<string>,
    explanation: string, regimes: seq<string>, opportunityQuality: real, ranking: seq<Ranked>,
    uncertaintyExplanation: string, symbol: Option<string>, referencePrice: Option<real>)

  /** The facts of the immutable context that validate() reads; age is None when the timestamp does not parse. */
  datatype Context = Context(symbol: string, price: real, expectedDirection: string, age: Option<real>)

  datatype Text = Text(strip: string -> string, fold: string -> string, upper: string -> string)

  datatype Limits = Limits(minRisk: real, maxRisk: real, maxAge: real, maxFuture: real)

  datatype Decision =
    | Fallback(code: string, stage: string)
    | Accepted(regime: string, direction: string, confidence: real, uncertainty: real, action: Action, risk: real,
               abstention: bool, supporting: seq<string>, conflicting: seq<string>, invalidations: seq<string>,
               explanation: string, regimes: seq<string>, opportunityQuality: real, ranking: seq<string>,
               uncertaintyExplanation: string)

  const MARKET_REGIMES := ["TREND", "RANGE", "BREAKOUT", "COMPRESSION", "VOLATILITY", "LIQUIDATION_EVENT",
                           "NEWS_ANOMALY", "MOMENTUM_EXHAUSTION", "CERTIFICATION", "UNKNOWN"]

  // ---- the response schema ---------------------------------------------

  predicate Length(s: string, low: nat, high: nat) { low <= |s| <= high }

  predicate KnownRegime(regime: string) { regime in MARKET_REGIMES }

  predicate KnownDirection(direction: string) { direction in ["LONG", "SHORT", "NEUTRAL"] }

  predicate SchemaValid(p: Payload) {
    && Length(p.regime, 1, 80) && KnownDirection(p.direction)
    && 0.0 <= p.confidence <= 100.0 && 0.0 <= p.uncertainty <= 100.0 && 0.0 <= p.risk <= 1.0
    && |p.supporting| <= 20 && |p.conflicting| <= 20 && |p.ranking| <= 20
    && (forall x | x in p.supporting :: Length(x.id, 1, 64) && Length(x.statement, 1, 240) && 1 <= x.strength <= 100)
    && (forall x | x in p.conflicting :: Length(x.id, 1, 64) && Length(x.statement, 1, 240))
    && (forall x | x in p.ranking :: Length(x.id, 1, 64) && 1 <= x.rank <= 20)
    && |p.invalidations| <= 20 && (forall x | x in p.invalidations :: |x| <= 240)
    && Length(p.explanation, 1, 1000)
    && 1 <= |p.regimes| <= 4 && (forall x | x in p.regimes :: KnownRegime(x))
    && 0.0 <= p.opportunityQuality <= 100.0 && Length(p.uncertaintyExplanation, 1, 600)
    && (p.symbol.Some? ==> Length(p.symbol.value, 1, 40))
    && (p.referencePrice.Some? ==> p.referencePrice.value > 0.0)
  }

  // ---- evidence --------------------------------------------------------

  function SupportId(): Support -> string { (x: Support) => x.id }

  function ConflictId(): Conflict -> string { (x: Conflict) => x.id }

  function RankedId(): Ranked -> string { (x: Ranked) => x.id }

  function Rank(): Ranked -> int { (x: Ranked) => x.rank }

  function SupportText(t: Text): Support -> string { (x: Support) => t.strip(x.statement) }

  function ConflictText(t: Text): Conflict -> string { (x: Conflict) => t.strip(x.statement) }

  /** The pattern [a-z][a-z0-9_]{0,63}, matched in full. */
  predicate IdPattern(id: string) {
    && 1 <= |id| <= 64 && 'a' <= id[0] <= 'z'
    && forall i | 1 <= i < |id| :: 'a' <= id[i] <= 'z' || '0' <= id[i] <= '9' || id[i] == '_'
  }

  predicate IdAccepted(t: Text, id: string) { t.strip(id) == id && IdPattern(id) }

  function ByRank(): (Ranked, Ranked) -> bool { (a: Ranked, b: Ranked) => a.rank < b.rank }

  /** Descending strength, then ascending identifier. */
  function ByStrength(): (Support, Support) -> bool {
    (a: Support, b: Support) => a.strength > b.strength || (a.strength == b.strength && LexLess(a.id, b.id))
  }

  function ById(): (string, string) -> bool { (a: string, b: string) => LexLess(a, b) }

  function UpTo(n: nat): seq<int> { seq(n, i => i + 1) }

  /** The checks of the supporting and conflicting items themselves, in the order of the source. */
  function FactorFailure(t: Text, supporting: seq<Support>, conflicting: seq<Conflict>): Option<string> {
    var ids := Map(SupportId(), supporting) + Map(ConflictId(), conflicting);
    var supportTexts, conflictTexts := Map(SupportText(t), supporting), Map(ConflictText(t), conflicting);
    var foldedSupport, foldedConflict := Map(t.fold, supportTexts), Map(t.fold, conflictTexts);
    if exists id | id in ids :: !IdAccepted(t, id) then Some("EVIDENCE_ID_INVALID")
    else if !Distinct(ids) then Some("EVIDENCE_ID_DUPLICATE")
    else if "" in supportTexts + conflictTexts then Some("EVIDENCE_STATEMENT_INVALID")
    else if !Distinct(foldedSupport) || !Distinct(foldedConflict) then Some("EVIDENCE_STATEMENT_DUPLICATE")
    else if SetOf(foldedSupport) * SetOf(foldedConflict) != {} then Some("EVIDENCE_CLASSIFICATION_CONFLICT")
    else None
  }

  /** The checks of the ranking against the items, in the order of the source. */
  function RankingFailure(supporting: seq<Support>, conflicting: seq<Conflict>, ranking: seq<Ranked>): Option<string> {
    var supportIds, conflictIds := Map(SupportId(), supporting), Map(ConflictId(), conflicting);
    var rankedIds, ranks := Map(RankedId(), ranking), Map(Rank(), ranking);
    if !Distinct(ranks) then Some("EVIDENCE_RANK_DUPLICATE")
    else if !Distinct(rankedIds) then Some("EVIDENCE_RANK_REFERENCE_DUPLICATE")
    else if exists id | id in rankedIds :: id in conflictIds then Some("EVIDENCE_RANK_CONFLICTING_REFERENCE")
    else if exists id | id in rankedIds :: id !in supportIds then Some("EVIDENCE_RANK_REFERENCE_MISSING")
    else if SetOf(rankedIds) != SetOf(supportIds) then Some("EVIDENCE_RANKING_INCOMPLETE")
    else if SetOf(ranks) != SetOf(UpTo(|supporting|)) then Some("EVIDENCE_RANK_OUT_OF_RANGE")
    else if Map(RankedId(), Sort(ranking, ByRank())) != Map(SupportId(), Sort(supporting, ByStrength()))
      then Some("EVIDENCE_RANK_ORDER_INVALID")
    else None
  }

  function EvidenceFailure(
      t: Text, supporting: seq<Support>, conflicting: seq<Conflict>, ranking: seq<Ranked>): Option<string>
  {
    var factors := FactorFailure(t, supporting, conflicting);
    if factors.Some? then factors else RankingFailure(supporting, conflicting, ranking)
  }

  function Clip(s: string, n: nat): string { if |s| <= n then s else s[..n] }

  /** The statement a dict keyed by identifier would hold: the last one listed. */
  function StatementOf(supporting: seq<Support>, id: string): string {
    if supporting == [] then ""
    else if supporting[|supporting| - 1].id == id then supporting[|supporting| - 1].statement
    else StatementOf(supporting[..|supporting| - 1], id)
  }

  function AsSupport(): Conflict -> Support { (c: Conflict) => Support(c.id, c.statement, 0) }

  /** Clipped statements in the order of the given identifiers. */
  function Statements(t: Text, supporting: seq<Support>, ids: seq<string>): seq<string> {
    Map((id: string) => Clip(t.strip(StatementOf(supporting, id)), 240), ids)
  }

  // ---- the decision ----------------------------------------------------

  function ContextFailure(limits: Limits, c: Context): Option<Decision> {
    if c.age.None? then Some(Fallback("MARKET_TIMESTAMP_INVALID", "MARKET_TRUTH_VALIDATION"))
    else if c.age.value > limits.maxAge then Some(Fallback("STALE_CONTEXT", "MARKET_TRUTH_VALIDATION"))
    else if c.age.value < -limits.maxFuture then Some(Fallback("FUTURE_CONTEXT", "MARKET_TRUTH_VALIDATION"))
    else None
  }

  /** list(dict.fromkeys(xs)): first occurrences, in order. */
  function Dedupe(xs: seq<string>): seq<string> {
    if xs == [] then []
    else
      var last := xs[|xs| - 1];
      var init := Dedupe(xs[..|xs| - 1]);
      if last in init then init else init + [last]
  }

  function NonBlank(t: Text, xs: seq<string>): seq<string> {
    if xs == [] then []
    else NonBlank(t, xs[..|xs| - 1]) + (if t.strip(xs[|xs| - 1]) != "" then [Clip(xs[|xs| - 1], 240)] else [])
  }

  /** The checks before the evidence is read. */
  function EarlyFailure(t: Text, limits: Limits, p: Payload, c: Context): Option<Decision> {
    if !SchemaValid(p) then Some(Fallback("SCHEMA_VALIDATION_FAILED", "JSON_SCHEMA_VALIDATION"))
    else if !(limits.minRisk <= p.risk <= limits.maxRisk)
      then Some(Fallback("RISK_MULTIPLIER_INVALID", "DOMAIN_VALIDATION"))
    else if t.upper(if p.symbol.Some? then p.symbol.value else c.symbol) != c.symbol
      then Some(Fallback("UNKNOWN_SYMBOL", "MARKET_TRUTH_VALIDATION"))
    else if p.referencePrice.Some?
         && (c.price <= 0.0 || Abs(p.referencePrice.value - c.price) > RMax(0.000000001, c.price * 0.000001))
      then Some(Fallback("PRICE_MISMATCH", "MARKET_TRUTH_VALIDATION"))
    else ContextFailure(limits, c)
  }

  /** The checks after the evidence has been accepted. */
  function LateFailure(p: Payload, c: Context): Option<Decision> {
    var accepting := p.action in {ACCEPT_REDUCED, ACCEPT_STANDARD};
    if p.supporting == [] && accepting then Some(Fallback("ACTION_EVIDENCE_MISSING", "SEMANTIC_VALIDATION"))
    else if p.action == ABSTAIN && !p.abstention then Some(Fallback("ABSTENTION_CONFLICT", "SEMANTIC_VALIDATION"))
    else if accepting && p.abstention then Some(Fallback("ABSTENTION_CONFLICT", "SEMANTIC_VALIDATION"))
    else if p.direction == "NEUTRAL" && p.action == ACCEPT_STANDARD
      then Some(Fallback("DIRECTION_CONFLICT", "SEMANTIC_VALIDATION"))
    else if accepting && c.expectedDirection in ["LONG", "SHORT"] && p.direction != c.expectedDirection
      then Some(Fallback("DIRECTION_CONFLICT", "SEMANTIC_VALIDATION"))
    else if p.action == ACCEPT_STANDARD && p.risk != 1.0
      then Some(Fallback("RISK_MULTIPLIER_INVALID", "SEMANTIC_VALIDATION"))
    else if p.action == ACCEPT_REDUCED && !(0.0 < p.risk < 1.0)
      then Some(Fallback("RISK_MULTIPLIER_INVALID", "SEMANTIC_VALIDATION"))
    else if p.action == REJECT && p.risk != 0.0 then Some(Fallback("RISK_MULTIPLIER_INVALID", "SEMANTIC_VALIDATION"))
    else None
  }

  function Validate(t: Text, limits: Limits, payload: Option<Payload>, c: Context): Decision {
    if payload.None? then Fallback("NORMALIZED_PAYLOAD_MISSING", "STRUCTURED_EXTRACTION")
    else
      var p := payload.value;
      var early := EarlyFailure(t, limits, p, c);
      if early.Some? then early.value
      else
        var evidence := EvidenceFailure(t, p.supporting, p.conflicting, p.ranking);
        if evidence.Some? then Fallback(evidence.value, "SEMANTIC_VALIDATION")
        else
          var late := LateFailure(p, c);
          if late.Some? then late.value
          else
            var abstains := p.action == ABSTAIN;
            Accepted(Clip(p.regime, 80), p.direction, p.confidence, p.uncertainty, p.action,
                     if abstains then 0.0 else p.risk, abstains || p.abstention,
                     Statements(t, p.supporting, Sort(Map(SupportId(), p.supporting), ById())),
                     Statements(t, Map(AsSupport(), p.conflicting), Sort(Map(ConflictId(), p.conflicting), ById())),
                     NonBlank(t, p.invalidations), Clip(p.explanation, 1000), Dedupe(p.regimes), p.opportunityQuality,
                     Statements(t, p.supporting, Map(RankedId(), Sort(p.ranking, ByRank()))),
                     Clip(p.uncertaintyExplanation, 600))
  }
}
