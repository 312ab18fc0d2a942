// Where the bounds of BacktestBounds stop: __post_init__ accepts negative
// allocations and the optimistic policy may close beyond the stop. Each bound
// is proved to hold exactly under a condition on the configuration, for the
// trades that run() reports and for single simulations.
module BacktestLimits {
  import opened Common
  import opened Backtest
  import opened BacktestBounds
  import opened BacktestRelations
  import opened BacktestRun

  /** Every simulation of an ordered frame ends between its own excursions. */
  ghost predicate ExcursionBounded(cfg: ValidConfig) {
    forall frame: seq<Candle>, i: nat, s: Signal | OrderedFrame(frame) && s.Geometry() && s.Risk() != 0.0 ::
      InsideExcursions(Simulated(cfg, frame, i, s))
  }

  /** So does every trade of every report, whatever the market and the strategy. */
  ghost predicate ReportsBounded(cfg: ValidConfig) {
    forall frame, strategy, t | MarketFrame(frame) && t in TradesOf(RunReport(cfg, frame, strategy)) ::
      InsideExcursions(t)
  }

  /** No simulation of an ordered frame loses more than its risk. */
  ghost predicate LossFloored(cfg: ValidConfig) {
    forall frame: seq<Candle>, i: nat, s: Signal | OrderedFrame(frame) && s.Geometry() && s.Risk() != 0.0 ::
      Simulated(cfg, frame, i, s).grossR >= -1.0
  }

  /** No reported trade does. */
  ghost predicate ReportsFloored(cfg: ValidConfig) {
    forall frame, strategy, t | MarketFrame(frame) && t in TradesOf(RunReport(cfg, frame, strategy)) ::
      t.grossR >= -1.0
  }

  /** Conservative simulations are dominated on every ordered frame. */
  ghost predicate Dominated(cfg: ValidConfig) {
    forall frame: seq<Candle>, i: nat, s: Signal | OrderedFrame(frame) && s.Geometry() && s.Risk() != 0.0 ::
      Simulated(cfg.(policy := CONSERVATIVE), frame, i, s).grossR
      <= Simulated(cfg.(policy := OPTIMISTIC), frame, i, s).grossR
  }

  /** Of two reports on the same market and strategy, the conservative one has no better trade for the same signal. */
  ghost predicate ReportsDominated(cfg: ValidConfig) {
    forall frame, strategy, t, u |
      && MarketFrame(frame)
      && t in TradesOf(RunReport(cfg.(policy := CONSERVATIVE), frame, strategy))
      && u in TradesOf(RunReport(cfg.(policy := OPTIMISTIC), frame, strategy))
      && t.signalIndex == u.signalIndex ::
      t.grossR <= u.grossR
  }

  /** The first target closes the whole position. */
  predicate FirstTargetCloses(cfg: ValidConfig) { cfg.tpAllocations[0] >= 1.0 - CUT_OFF }

  predicate Executes(cfg: ValidConfig) { cfg.executableCategories != [] }

  // ---- witnesses -------------------------------------------------------
  // A long with its stop one unit below the entry, signalled on the last warm-up bar of a positive-price frame
  // and entered on the bar after it.

  function Category(cfg: ValidConfig): string { if Executes(cfg) then cfg.executableCategories[0] else "NONE" }

  /** The targets are given by their distance from the entry. */
  function Wish(cfg: ValidConfig, entry: real, d1: real, d2: real, d3: real): RawSignal {
    RawSignal(Some(LONG), Number(entry), Number(entry - 1.0), Number(entry + d1), Number(entry + d2),
              Number(entry + d3), Number(RMax(0.0, cfg.minimumReadiness)), Category(cfg), "TREND")
  }

  const QUIET := Candle(2.0, 2.0, 2.0)

  function Padded(cfg: ValidConfig, rows: seq<Candle>): seq<Candle> { seq(cfg.warmupBars, _ => QUIET) + rows }

  /** run() accepts the frame, and its strategy may return the signal; with no executable category none is executed. */
  ghost predicate Receivable(cfg: ValidConfig, frame: seq<Candle>, raw: RawSignal) {
    && MarketFrame(frame) && |frame| > cfg.warmupBars
    && raw.Complete() && raw.AsSignal().Geometry() && raw.AsSignal().Risk() != 0.0
    && (Executes(cfg) ==> NormalizeSignal(cfg, raw).Executable?)
  }

  function FirstTrade(cfg: ValidConfig, frame: seq<Candle>, raw: RawSignal): Trade
    requires raw.Complete() && raw.AsSignal().Risk() != 0.0
  { Simulated(cfg, frame, cfg.warmupBars - 1, raw.AsSignal()) }

  lemma WishIsReceivable(cfg: ValidConfig, rows: seq<Candle>, entry: real, d1: real, d2: real, d3: real)
    requires rows != [] && OrderedFrame(rows) && forall i | 0 <= i < |rows| :: rows[i].low > 0.0
    requires 0.0 < d1 <= d2 <= d3
    ensures Receivable(cfg, Padded(cfg, rows), Wish(cfg, entry, d1, d2, d3))
    ensures Wish(cfg, entry, d1, d2, d3).AsSignal().Risk() == 1.0
  {
  }

  /** A trade entered on the bar after the signal, seen bar by bar. */
  lemma EntersAtOnce(cfg: ValidConfig, rows: seq<Candle>, raw: RawSignal)
    requires rows != [] && raw.Complete() && raw.AsSignal().Risk() != 0.0
    requires EntryTouched(rows[0], raw.AsSignal().entry)
    ensures var frame, s, n := Padded(cfg, rows), raw.AsSignal(), cfg.warmupBars;
      var o := Walk(cfg, s, frame, n, Min(|frame| - 1, n + cfg.maxHoldingBars), Opened(s));
      var t := FirstTrade(cfg, frame, raw);
      t.grossR == o.last.realized && t.maeR == o.last.mae && t.mfeR == o.last.mfe
  {
    hide Walk, CostsR;
    assert Padded(cfg, rows)[cfg.warmupBars] == rows[0];
  }

  /** One target is hit on a bar that stays above the entry: the position after it. */
  lemma TargetBar(cfg: ValidConfig, s: Signal, row: Candle, p: Position)
    requires s.direction == LONG && s.stop == s.entry - 1.0 && s.Geometry()
    requires p.hits < 3 && p.mae == 0.0 && row.low >= s.entry && row.low > p.effectiveStop
    requires row.high >= s.Target(p.hits)
    ensures s.Risk() == 1.0
    ensures var w := Allocation(cfg, p);
      match BarStep(cfg, s, row, p)
      case Closed(q, _, _) => q.realized == p.realized + w * (s.Target(p.hits) - s.entry) && q.mae == 0.0
      case Continue(q) => q.realized == p.realized + w * (s.Target(p.hits) - s.entry) && q.mae == 0.0
                          && q.remaining == p.remaining - w && q.hits == p.hits + 1
                          && q.effectiveStop <= RMax(p.effectiveStop, s.entry)
    ensures BarStep(cfg, s, row, p).Closed? <==> p.hits == 2 || p.remaining - Allocation(cfg, p) <= CUT_OFF
  {
    DivIs(Adverse(row, s), s.Risk(), 0.0);
    var w := Allocation(cfg, p);
    DivIs(w * s.Pnl(s.Target(p.hits)), s.Risk(), w * (s.Target(p.hits) - s.entry));
  }

  /** A target far enough out that a negative allocation taken there loses three units on top of itself. */
  lemma FarTarget(a: real) returns (distance: real)
    requires a < 0.0
    ensures distance >= 1.0 && a * distance == a - 3.0
  {
    distance := 1.0 + 3.0 / -a;
    assert a * (3.0 / -a) == -3.0;
    assert a * distance == a + a * (3.0 / -a);
  }

  lemma NegativeFirst(cfg: ValidConfig) returns (frame: seq<Candle>, raw: RawSignal)
    requires cfg.tpAllocations[0] < 0.0
    ensures Receivable(cfg, frame, raw)
    ensures var t := FirstTrade(cfg, frame, raw); t.grossR < -1.0 && t.maeR == 0.0
  {
    hide BarStep, WithExcursion, CostsR, IsClose, Receivable, NormalizeSignal;
    var n: nat := cfg.warmupBars;
    var d := FarTarget(cfg.tpAllocations[0]);
    raw := Wish(cfg, 2.0, d, d, d);
    var s, row := raw.AsSignal(), Candle(2.0, 2.0 + d, 2.0);
    frame := Padded(cfg, [row]);
    WishIsReceivable(cfg, [row], 2.0, d, d, d);
    EntersAtOnce(cfg, [row], raw);
    hide FirstTrade;
    TargetBar(cfg, s, row, Opened(s));
    var q := BarStep(cfg, s, row, Opened(s)).next;
    DivIs(q.remaining * s.Pnl(2.0), s.Risk(), 0.0);
    assert Walk(cfg, s, frame, n, n, Opened(s)) == CloseOnTimeout(s, row, q, n);
  }

  lemma NegativeSecond(cfg: ValidConfig) returns (frame: seq<Candle>, raw: RawSignal)
    requires 0.0 <= cfg.tpAllocations[0] < 1.0 - CUT_OFF && cfg.tpAllocations[1] < 0.0
    ensures Receivable(cfg, frame, raw)
    ensures var t := FirstTrade(cfg, frame, raw); t.grossR < -1.0 && t.maeR == 0.0
  {
    hide BarStep, WithExcursion, CostsR, IsClose, Receivable, NormalizeSignal;
    var n: nat := cfg.warmupBars;
    var d := FarTarget(cfg.tpAllocations[1]);
    raw := Wish(cfg, 2.0, 1.0, d, d);
    var s, first, second := raw.AsSignal(), Candle(2.0, 3.0, 3.0), Candle(3.0, 2.0 + d, 3.0);
    frame := Padded(cfg, [first, second]);
    WishIsReceivable(cfg, [first, second], 2.0, 1.0, d, d);
    EntersAtOnce(cfg, [first, second], raw);
    hide FirstTrade;
    TargetBar(cfg, s, first, Opened(s));
    var q := BarStep(cfg, s, first, Opened(s)).next;
    TargetBar(cfg, s, second, q);
    var r := BarStep(cfg, s, second, q).next;
    DivIs(r.remaining * s.Pnl(3.0), s.Risk(), r.remaining);
    assert Walk(cfg, s, frame, n + 1, n + 1, q) == CloseOnTimeout(s, second, r, n + 1);
    assert Walk(cfg, s, frame, n, n + 1, Opened(s)) == Walk(cfg, s, frame, n + 1, n + 1, q);
  }

  lemma NegativeThird(cfg: ValidConfig) returns (frame: seq<Candle>, raw: RawSignal)
    requires 0.0 <= cfg.tpAllocations[0] < 1.0 - CUT_OFF && 0.0 <= cfg.tpAllocations[1]
    requires cfg.tpAllocations[0] + cfg.tpAllocations[1] < 1.0 - CUT_OFF && cfg.tpAllocations[2] < 0.0
    requires cfg.maxHoldingBars >= 2
    ensures Receivable(cfg, frame, raw)
    ensures var t := FirstTrade(cfg, frame, raw); t.grossR < -1.0 && t.maeR == 0.0
  {
    hide Take, CloseOnTimeout, BarStep, WithExcursion, CostsR, IsClose, Receivable, NormalizeSignal;
    var n: nat := cfg.warmupBars;
    var d := FarTarget(cfg.tpAllocations[2]);
    raw := Wish(cfg, 2.0, 1.0, 1.0, d);
    var s, first, second := raw.AsSignal(), Candle(2.0, 3.0, 3.0), Candle(3.0, 3.0, 3.0);
    var third := Candle(3.0, 2.0 + d, 3.0);
    frame := Padded(cfg, [first, second, third]);
    WishIsReceivable(cfg, [first, second, third], 2.0, 1.0, 1.0, d);
    EntersAtOnce(cfg, [first, second, third], raw);
    hide FirstTrade;
    TargetBar(cfg, s, first, Opened(s));
    var q := BarStep(cfg, s, first, Opened(s)).next;
    TargetBar(cfg, s, second, q);
    var r := BarStep(cfg, s, second, q).next;
    TargetBar(cfg, s, third, r);
    assert Walk(cfg, s, frame, n, n + 2, Opened(s)) == Walk(cfg, s, frame, n + 1, n + 2, q);
    assert Walk(cfg, s, frame, n + 1, n + 2, q) == Walk(cfg, s, frame, n + 2, n + 2, r);
  }

  lemma NegativeReachable(cfg: ValidConfig) returns (frame: seq<Candle>, raw: RawSignal)
    requires !ReachableNonNegative(cfg)
    ensures Receivable(cfg, frame, raw)
    ensures var t := FirstTrade(cfg, frame, raw); t.grossR < -1.0 && t.maeR == 0.0
  {
    if cfg.tpAllocations[0] < 0.0 {
      frame, raw := NegativeFirst(cfg);
    } else if cfg.tpAllocations[1] < 0.0 {
      frame, raw := NegativeSecond(cfg);
    } else {
      frame, raw := NegativeThird(cfg);
    }
  }

  /** How far the crash has to go so that closing what the first target left costs more than the risk. */
  lemma CrashDepth(a: real) returns (drop: real)
    requires a < 1.0 - CUT_OFF
    ensures drop >= 1.0 && a - (1.0 - a) * drop < -1.0
  {
    var rest := 1.0 - a;
    drop := (Abs(a) + 2.0) / rest;
    assert rest * drop == Abs(a) + 2.0;
    DivMonotone(rest, Abs(a) + 2.0, rest);
    DivIs(rest, rest, 1.0);
  }

  /** Entry at 2 + drop; the bar reaches the target and closes at 2, `drop` below the entry. */
  function CrashWish(cfg: ValidConfig, drop: real): RawSignal { Wish(cfg, 2.0 + drop, 1.0, 1.0, 1.0) }

  function CrashRow(drop: real): Candle { Candle(2.0, 3.0 + drop, 2.0) }

  /** The crash bar under the optimistic policy: the target is taken, the rest is closed at the bar's low. */
  lemma CrashBar(cfg: ValidConfig, frame: seq<Candle>, n: nat, drop: real)
    requires cfg.policy == OPTIMISTIC && !FirstTargetCloses(cfg) && drop >= 1.0
    requires n < |frame| && frame[n] == CrashRow(drop)
    ensures var s, a := CrashWish(cfg, drop).AsSignal(), cfg.tpAllocations[0];
      && s.Risk() == 1.0
      && Walk(cfg, s, frame, n, n, Opened(s)).last.realized == a - (1.0 - a) * drop
  {
    var s, row, a := CrashWish(cfg, drop).AsSignal(), CrashRow(drop), cfg.tpAllocations[0];
    var q := TakeTarget(cfg, s, WithExcursion(row, s, Opened(s)));
    DivIs(a * s.Pnl(s.tp1), s.Risk(), a);
    assert BarStep(cfg, s, row, Opened(s)) == Continue(q);
    DivIs(q.remaining * s.Pnl(row.close), s.Risk(), -(q.remaining * drop));
    assert Walk(cfg, s, frame, n, n, Opened(s)) == CloseOnTimeout(s, row, q, n);
  }

  /** The same bar under the conservative policy costs exactly the risk. */
  lemma CrashBarCautious(cfg: ValidConfig, frame: seq<Candle>, n: nat, drop: real)
    requires cfg.policy == CONSERVATIVE && drop >= 1.0 && n < |frame| && frame[n] == CrashRow(drop)
    ensures var s := CrashWish(cfg, drop).AsSignal();
      s.Risk() == 1.0 && Walk(cfg, s, frame, n, n, Opened(s)).last.realized == -1.0
  {
    var s := CrashWish(cfg, drop).AsSignal();
    DivIs(1.0 * s.Pnl(s.stop), s.Risk(), -1.0);
    assert BarStep(cfg, s, frame[n], Opened(s)).Closed?;
  }

  /** An optimistic trade that takes its first target on a bar that crashes through the stop and ends the frame. */
  lemma AmbiguousClose(cfg: ValidConfig) returns (frame: seq<Candle>, raw: RawSignal)
    requires cfg.policy == OPTIMISTIC && !FirstTargetCloses(cfg)
    ensures Receivable(cfg, frame, raw)
    ensures FirstTrade(cfg, frame, raw).grossR < -1.0
    ensures FirstTrade(cfg.(policy := CONSERVATIVE), frame, raw).grossR == -1.0
  {
    hide Walk, CostsR, BarStep, IsClose, Receivable, NormalizeSignal;
    var n: nat := cfg.warmupBars;
    var drop := CrashDepth(cfg.tpAllocations[0]);
    raw := CrashWish(cfg, drop);
    frame := Padded(cfg, [CrashRow(drop)]);
    var safe: ValidConfig := cfg.(policy := CONSERVATIVE);
    WishIsReceivable(cfg, [CrashRow(drop)], 2.0 + drop, 1.0, 1.0, 1.0);
    EntersAtOnce(cfg, [CrashRow(drop)], raw);
    EntersAtOnce(safe, [CrashRow(drop)], raw);
    CrashBar(cfg, frame, n, drop);
    CrashBarCautious(safe, frame, n, drop);
    hide FirstTrade;
  }

  /** What happens to the signal on the first bar after warm-up is in the report. */
  lemma WitnessIsReported(cfg: ValidConfig, frame: seq<Candle>, raw: RawSignal)
    requires Receivable(cfg, frame, raw) && Executes(cfg)
    ensures FirstTrade(cfg, frame, raw) in TradesOf(RunReport(cfg, frame, Once(cfg.warmupBars, raw)))
    ensures FirstTrade(cfg, frame, raw).signalIndex == cfg.warmupBars - 1
  {
    hide NormalizeSignal, Simulated, RunReport, MarketFrame;
    FirstSignalIsReported(cfg, frame, raw);
    SimulatedIsWellTimed(cfg, frame, cfg.warmupBars - 1, raw.AsSignal());
  }

  // ---- the exact conditions --------------------------------------------

  /** A reported trade is the simulation of some valid signal, and there is none without an executable category. */
  lemma ReportedIsSimulated(cfg: ValidConfig, frame: seq<Candle>, strategy: Strategy, t: Trade) returns (s: Signal)
    requires t in TradesOf(RunReport(cfg, frame, strategy))
    ensures Executes(cfg) && s.Geometry() && s.Risk() != 0.0 && t == Simulated(cfg, frame, t.signalIndex, s)
    ensures t.signalIndex < |frame| && strategy(frame[..t.signalIndex + 1]).Some?
    ensures var raw := strategy(frame[..t.signalIndex + 1]).value; raw.Complete() && s == raw.AsSignal()
  {
    ReportedTradesComeFromSignals(cfg, frame, strategy);
    assert ComesFrom(cfg, frame, strategy, t);
    hide Simulated, RunReport;
    s := strategy(frame[..t.signalIndex + 1]).value.AsSignal();
  }

  /**
   * -mae <= gross R <= mfe for every simulation, under either policy, exactly when no reachable allocation is
   * negative; and for every trade that run() reports exactly when, besides, it executes anything at all.
   */
  lemma ExcursionBoundedExactly(cfg: ValidConfig)
    ensures ExcursionBounded(cfg) <==> ReachableNonNegative(cfg)
    ensures ReportsBounded(cfg) <==> ReachableNonNegative(cfg) || !Executes(cfg)
  {
    hide RunReport, Simulated, ReachableNonNegative;
    if ReachableNonNegative(cfg) {
      forall frame: seq<Candle>, i: nat, s: Signal | OrderedFrame(frame) && s.Geometry() && s.Risk() != 0.0
        ensures InsideExcursions(Simulated(cfg, frame, i, s))
      {
        TradeInsideExcursions(cfg, frame, i, s);
      }
    } else {
      var frame, raw := NegativeReachable(cfg);
      assert !InsideExcursions(Simulated(cfg, frame, cfg.warmupBars - 1, raw.AsSignal()));
      if Executes(cfg) {
        WitnessIsReported(cfg, frame, raw);
        assert !InsideExcursions(FirstTrade(cfg, frame, raw));
      }
    }
    forall frame, strategy, t | MarketFrame(frame) && t in TradesOf(RunReport(cfg, frame, strategy))
      ensures Executes(cfg) && (ExcursionBounded(cfg) ==> InsideExcursions(t))
    {
      var s := ReportedIsSimulated(cfg, frame, strategy, t);
    }
  }

  lemma {:induction false} FirstTargetEndsUnambiguously(
      cfg: ValidConfig, s: Signal, frame: seq<Candle>, i: nat, end: nat, p: Position)
    requires s.Risk() != 0.0 && i <= end + 1 && end < |frame|
    requires FirstTargetCloses(cfg) && p.hits == 0 && p.remaining == 1.0
    ensures !EndsAmbiguous(cfg, s, frame, i, end, p)
    decreases end + 1 - i
  {
    if i < end && BarStep(cfg, s, frame[i], p).Continue? {
      FirstTargetEndsUnambiguously(cfg, s, frame, i + 1, end, BarStep(cfg, s, frame[i], p).next);
    }
  }

  /** The loss floor needs, besides, that nothing can close beyond the stop. */
  predicate FloorHolds(cfg: ValidConfig) {
    ReachableNonNegative(cfg) && (cfg.policy == CONSERVATIVE || FirstTargetCloses(cfg))
  }

  lemma FloorSuffices(cfg: ValidConfig, frame: seq<Candle>, i: nat, s: Signal)
    requires FloorHolds(cfg) && OrderedFrame(frame) && s.Geometry() && s.Risk() != 0.0
    ensures Simulated(cfg, frame, i, s).grossR >= -1.0
  {
    var e := EntryBar(cfg, frame, i, s);
    if e.Some? {
      var end := LastBar(cfg, frame, e.value);
      if cfg.policy == CONSERVATIVE {
        ConservativeNeverAmbiguous(cfg, s, frame, e.value, end, Opened(s));
      } else {
        FirstTargetEndsUnambiguously(cfg, s, frame, e.value, end, Opened(s));
      }
    }
    Levels(s);
    TradeAboveFloor(cfg, frame, i, s);
  }

  /**
   * Losses never exceed the risk exactly when no reachable allocation is negative and, under the optimistic policy,
   * the first target already closes the position; for the trades of all reports, or nothing is executed at all.
   */
  lemma LossFlooredExactly(cfg: ValidConfig)
    ensures LossFloored(cfg)
            <==> ReachableNonNegative(cfg) && (cfg.policy == CONSERVATIVE || FirstTargetCloses(cfg))
    ensures ReportsFloored(cfg)
            <==> (ReachableNonNegative(cfg) && (cfg.policy == CONSERVATIVE || FirstTargetCloses(cfg)))
                 || !Executes(cfg)
  {
    hide RunReport, Simulated, ReachableNonNegative;
    if FloorHolds(cfg) {
      forall frame: seq<Candle>, i: nat, s: Signal | OrderedFrame(frame) && s.Geometry() && s.Risk() != 0.0
        ensures Simulated(cfg, frame, i, s).grossR >= -1.0
      {
        FloorSuffices(cfg, frame, i, s);
      }
    } else {
      var frame, raw;
      if !ReachableNonNegative(cfg) {
        frame, raw := NegativeReachable(cfg);
      } else {
        frame, raw := AmbiguousClose(cfg);
      }
      assert Simulated(cfg, frame, cfg.warmupBars - 1, raw.AsSignal()).grossR < -1.0;
      if Executes(cfg) {
        WitnessIsReported(cfg, frame, raw);
        assert FirstTrade(cfg, frame, raw).grossR < -1.0;
      }
    }
    forall frame, strategy, t | MarketFrame(frame) && t in TradesOf(RunReport(cfg, frame, strategy))
      ensures Executes(cfg) && (LossFloored(cfg) ==> t.grossR >= -1.0)
    {
      var s := ReportedIsSimulated(cfg, frame, strategy, t);
    }
  }

  lemma FirstTargetDominates(cfg: ValidConfig, frame: seq<Candle>, i: nat, s: Signal)
    requires FirstTargetCloses(cfg) && OrderedFrame(frame) && s.Geometry() && s.Risk() != 0.0
    ensures Simulated(cfg.(policy := CONSERVATIVE), frame, i, s).grossR
            <= Simulated(cfg.(policy := OPTIMISTIC), frame, i, s).grossR
  {
    var hopeful: ValidConfig := cfg.(policy := OPTIMISTIC);
    var e := EntryBar(cfg, frame, i, s);
    if e.Some? {
      FirstTargetEndsUnambiguously(hopeful, s, frame, e.value, LastBar(cfg, frame, e.value), Opened(s));
    }
    Levels(s);
    PolicyDominance(cfg, frame, i, s);
  }

  /**
   * Without a condition on the frame, dominance holds exactly when the first target closes the position; for all
   * trades on the same signal in a conservative and an optimistic report, or nothing is executed at all.
   */
  lemma DominatedExactly(cfg: ValidConfig)
    ensures Dominated(cfg) <==> FirstTargetCloses(cfg)
    ensures ReportsDominated(cfg) <==> FirstTargetCloses(cfg) || !Executes(cfg)
  {
    hide RunReport, Simulated;
    var cautious: ValidConfig := cfg.(policy := CONSERVATIVE);
    var hopeful: ValidConfig := cfg.(policy := OPTIMISTIC);
    if FirstTargetCloses(cfg) {
      forall frame: seq<Candle>, i: nat, s: Signal | OrderedFrame(frame) && s.Geometry() && s.Risk() != 0.0
        ensures Simulated(cautious, frame, i, s).grossR <= Simulated(hopeful, frame, i, s).grossR
      {
        FirstTargetDominates(cfg, frame, i, s);
      }
    } else {
      var frame, raw := AmbiguousClose(hopeful);
      assert hopeful.(policy := CONSERVATIVE) == cautious;
      assert FirstTrade(cautious, frame, raw).grossR > FirstTrade(hopeful, frame, raw).grossR;
      if Executes(cfg) {
        WitnessIsReported(cautious, frame, raw);
        WitnessIsReported(hopeful, frame, raw);
      }
    }
    forall frame, strategy, t, u |
      && MarketFrame(frame) && t in TradesOf(RunReport(cautious, frame, strategy))
      && u in TradesOf(RunReport(hopeful, frame, strategy)) && t.signalIndex == u.signalIndex
      ensures Executes(cfg) && (Dominated(cfg) ==> t.grossR <= u.grossR)
    {
      var s := ReportedIsSimulated(cautious, frame, strategy, t);
      var r := ReportedIsSimulated(hopeful, frame, strategy, u);
    }
  }
}
