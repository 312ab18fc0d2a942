// run() of core/backtest_engine.py: the scan of a whole frame, its counters and
// the one-trade-at-a-time gate.
module BacktestRun {
  import opened Common
  import opened Backtest
  import opened BacktestRelations

  /** A strategy is given the candles up to and including the signal bar and nothing else. */
  type Strategy = seq<Candle> -> Option<RawSignal>

  datatype RunState = RunState(trades: seq<Trade>, seen: nat, rejected: nat, expired: nat, nextAvailable: int)

  datatype Report = NotEnoughCandles | Report(trades: seq<Trade>, seen: nat, rejected: nat, expired: nat)

  function AddTrade(cfg: Config, st: RunState, t: Trade): RunState {
    st.(seen := st.seen + 1, trades := st.trades + [t],
        expired := st.expired + (if t.status == EXPIRED then 1 else 0),
        nextAvailable := if cfg.oneTradeAtATime && t.exitIndex.Some? then t.exitIndex.value + 1 else st.nextAvailable)
  }

  /** One iteration of the scan. */
  function ScanBar(cfg: ValidConfig, frame: seq<Candle>, strategy: Strategy, i: nat, st: RunState): RunState
    requires i < |frame|
  {
    if cfg.oneTradeAtATime && i < st.nextAvailable then st
    else match strategy(frame[..i + 1])
      case None => st
      case Some(raw) =>
        match NormalizeSignal(cfg, raw)
        case Executable(s) => AddTrade(cfg, st, Simulated(cfg, frame, i, s))
        case _ => st.(seen := st.seen + 1, rejected := st.rejected + 1)
  }

  /** The state after the signal bars before k. */
  function ScanUpTo(cfg: ValidConfig, frame: seq<Candle>, strategy: Strategy, k: nat): RunState
    requires cfg.warmupBars - 1 <= k <= |frame|
    decreases k
  {
    if k == cfg.warmupBars - 1 then RunState([], 0, 0, 0, cfg.warmupBars - 1)
    else ScanBar(cfg, frame, strategy, k - 1, ScanUpTo(cfg, frame, strategy, k - 1))
  }

  function RunReport(cfg: ValidConfig, frame: seq<Candle>, strategy: Strategy): Report {
    if |frame| <= cfg.warmupBars then NotEnoughCandles
    else
      var st := ScanUpTo(cfg, frame, strategy, |frame| - 1);
      Report(st.trades, st.seen, st.rejected, st.expired)
  }

  method Run(cfg: ValidConfig, candles: seq<Candle>, strategy: Strategy) returns (r: Report)
    ensures r == RunReport(cfg, candles, strategy)
  {
    hide Simulated, NormalizeSignal;
    if |candles| <= cfg.warmupBars {
      return NotEnoughCandles;
    }
    var trades: seq<Trade> := [];
    var seen, rejected, expired := 0, 0, 0;
    var nextAvailable := cfg.warmupBars - 1;
    for i := cfg.warmupBars - 1 to |candles| - 1
      invariant seen >= 0 && rejected >= 0 && expired >= 0
      invariant ScanUpTo(cfg, candles, strategy, i) == RunState(trades, seen, rejected, expired, nextAvailable)
    {
      if cfg.oneTradeAtATime && i < nextAvailable {
        continue;
      }
      var raw := strategy(candles[..i + 1]);
      if raw.None? {
        continue;
      }
      seen := seen + 1;
      var signal := NormalizeSignal(cfg, raw.value);
      if !signal.Executable? {
        rejected := rejected + 1;
        continue;
      }
      var trade := Simulate(cfg, candles, i, signal.signal);
      trades := trades + [trade];
      if trade.status == EXPIRED {
        expired := expired + 1;
      }
      if cfg.oneTradeAtATime && trade.exitIndex.Some? {
        nextAvailable := trade.exitIndex.value + 1;
      }
    }
    r := Report(trades, seen, rejected, expired);
  }

  // ---- accounting ------------------------------------------------------

  function NeverEntered(trades: seq<Trade>): nat {
    if trades == [] then 0
    else NeverEntered(trades[..|trades| - 1]) + (if trades[|trades| - 1].entryIndex.None? then 1 else 0)
  }

  /** A reported trade keeps its bars in order and is expired exactly when it was never entered. */
  ghost predicate WellTimed(t: Trade) {
    && (t.entryIndex.None? <==> t.exitIndex.None?)
    && (t.entryIndex.None? <==> t.status == EXPIRED)
    && (t.entryIndex.Some? ==> t.signalIndex < t.entryIndex.value <= t.exitIndex.value)
  }

  ghost predicate Accounted(cfg: Config, k: nat, st: RunState) {
    && st.seen == st.rejected + |st.trades|
    && st.expired == NeverEntered(st.trades)
    && (forall j | 0 <= j < |st.trades| :: WellTimed(st.trades[j]) && st.trades[j].signalIndex < k)
    && (forall j, l | 0 <= j < l < |st.trades| :: st.trades[j].signalIndex < st.trades[l].signalIndex)
  }

  /** The executed trades of a one-at-a-time run occupy disjoint, ascending stretches of bars. */
  ghost predicate Sequential(trades: seq<Trade>) {
    forall j, l | 0 <= j < l < |trades| && trades[j].exitIndex.Some? && trades[l].entryIndex.Some? ::
      trades[j].exitIndex.value < trades[l].entryIndex.value
  }

  ghost predicate Gated(st: RunState) {
    && Sequential(st.trades)
    && forall j | 0 <= j < |st.trades| && st.trades[j].exitIndex.Some? ::
         st.trades[j].exitIndex.value < st.nextAvailable
  }

  lemma {:induction false} WalkExitsInWindow(cfg: Config, s: Signal, frame: seq<Candle>, i: nat, end: nat, p: Position)
    requires |cfg.tpAllocations| == 3 && s.Risk() != 0.0 && i <= end + 1 && end < |frame|
    ensures var o := Walk(cfg, s, frame, i, end, p); Min(i, end) <= o.exitIndex <= end && o.status != EXPIRED
    decreases end + 1 - i
  {
    if i <= end && BarStep(cfg, s, frame[i], p).Continue? {
      WalkExitsInWindow(cfg, s, frame, i + 1, end, BarStep(cfg, s, frame[i], p).next);
    }
  }

  lemma SimulatedIsWellTimed(cfg: ValidConfig, frame: seq<Candle>, i: nat, s: Signal)
    requires s.Risk() != 0.0
    ensures var t := Simulated(cfg, frame, i, s); WellTimed(t) && t.signalIndex == i
  {
    hide CostsR, Walk, EntryTouched;
    var e := EntryBar(cfg, frame, i, s);
    if e.Some? {
      WalkExitsInWindow(cfg, s, frame, e.value, LastBar(cfg, frame, e.value), Opened(s));
    }
  }

  lemma AddTradeAccounts(cfg: Config, i: nat, st: RunState, t: Trade)
    requires Accounted(cfg, i, st) && WellTimed(t) && t.signalIndex == i
    ensures Accounted(cfg, i + 1, AddTrade(cfg, st, t))
    ensures cfg.oneTradeAtATime && Gated(st) && i >= st.nextAvailable ==> Gated(AddTrade(cfg, st, t))
  {
    assert (st.trades + [t])[..|st.trades|] == st.trades;
  }

  lemma SkipAccounts(cfg: Config, i: nat, st: RunState)
    requires Accounted(cfg, i, st)
    ensures Accounted(cfg, i + 1, st)
    ensures var r := st.(seen := st.seen + 1, rejected := st.rejected + 1);
      Accounted(cfg, i + 1, r) && (Gated(st) ==> Gated(r))
  {
  }

  lemma BarAccounts(cfg: ValidConfig, frame: seq<Candle>, strategy: Strategy, i: nat, st: RunState)
    requires i < |frame| && Accounted(cfg, i, st) && (cfg.oneTradeAtATime ==> Gated(st))
    ensures Accounted(cfg, i + 1, ScanBar(cfg, frame, strategy, i, st))
    ensures cfg.oneTradeAtATime ==> Gated(ScanBar(cfg, frame, strategy, i, st))
  {
    hide Simulated, NormalizeSignal, Accounted, Gated, AddTrade;
    SkipAccounts(cfg, i, st);
    var raw := strategy(frame[..i + 1]);
    if raw.Some? && NormalizeSignal(cfg, raw.value).Executable? {
      var s := NormalizeSignal(cfg, raw.value).signal;
      SimulatedIsWellTimed(cfg, frame, i, s);
      AddTradeAccounts(cfg, i, st, Simulated(cfg, frame, i, s));
    }
  }

  lemma NothingAccounts(cfg: Config, k: nat, st: RunState)
    requires st.trades == [] && st.seen == st.rejected == st.expired == 0
    ensures Accounted(cfg, k, st) && Gated(st)
  {
  }

  lemma {:induction false} ScanAccounts(cfg: ValidConfig, frame: seq<Candle>, strategy: Strategy, k: nat)
    requires cfg.warmupBars - 1 <= k <= |frame|
    ensures Accounted(cfg, k, ScanUpTo(cfg, frame, strategy, k))
    ensures cfg.oneTradeAtATime ==> Gated(ScanUpTo(cfg, frame, strategy, k))
    decreases k
  {
    hide ScanBar, Accounted, Gated;
    if k == cfg.warmupBars - 1 {
      NothingAccounts(cfg, k, ScanUpTo(cfg, frame, strategy, k));
    } else {
      ScanAccounts(cfg, frame, strategy, k - 1);
      BarAccounts(cfg, frame, strategy, k - 1, ScanUpTo(cfg, frame, strategy, k - 1));
    }
  }

  /** Every report balances: signals, rejections and trades; expiries and entries; disjoint holding periods. */
  lemma RunBalances(cfg: ValidConfig, frame: seq<Candle>, strategy: Strategy)
    requires |frame| > cfg.warmupBars
    ensures var r := RunReport(cfg, frame, strategy);
      && r.seen == r.rejected + |r.trades|
      && r.expired == NeverEntered(r.trades)
      && (forall j | 0 <= j < |r.trades| :: WellTimed(r.trades[j]) && r.trades[j].signalIndex < |frame| - 1)
      && (forall j, l | 0 <= j < l < |r.trades| :: r.trades[j].signalIndex < r.trades[l].signalIndex)
      && (cfg.oneTradeAtATime ==> Sequential(r.trades))
  {
    ScanAccounts(cfg, frame, strategy, |frame| - 1);
  }

  // ---- no look-ahead ---------------------------------------------------

  lemma {:induction false} ScanIsCausal(
      cfg: ValidConfig, f: seq<Candle>, g: seq<Candle>, strategy: Strategy, n: nat, k: nat)
    requires n <= |f| && n <= |g| && f[..n] == g[..n]
    requires cfg.warmupBars - 1 <= k && k + cfg.entryExpiryBars + cfg.maxHoldingBars <= n
    ensures ScanUpTo(cfg, f, strategy, k) == ScanUpTo(cfg, g, strategy, k)
    decreases k
  {
    hide Simulated, NormalizeSignal, AddTrade;
    if k > cfg.warmupBars - 1 {
      var i := k - 1;
      ScanIsCausal(cfg, f, g, strategy, n, i);
      assert f[..i + 1] == f[..n][..i + 1] == g[..i + 1];
      var raw := strategy(f[..i + 1]);
      if raw.Some? && NormalizeSignal(cfg, raw.value).Executable? {
        TradeIsCausal(cfg, f, g, n, i, NormalizeSignal(cfg, raw.value).signal);
      }
    }
  }

  lemma BarAppends(cfg: ValidConfig, frame: seq<Candle>, strategy: Strategy, i: nat, st: RunState)
    requires i < |frame|
    ensures var trades := ScanBar(cfg, frame, strategy, i, st).trades;
      st.trades <= trades && forall l | |st.trades| <= l < |trades| :: trades[l].signalIndex == i
  {
    hide Simulated, NormalizeSignal;
    var raw := strategy(frame[..i + 1]);
    if raw.Some? && NormalizeSignal(cfg, raw.value).Executable? {
      SimulatedIsWellTimed(cfg, frame, i, NormalizeSignal(cfg, raw.value).signal);
    }
  }

  /** Further scanning only appends trades with later signals. */
  lemma {:induction false} ScanAppends(cfg: ValidConfig, frame: seq<Candle>, strategy: Strategy, j: nat, k: nat)
    requires cfg.warmupBars - 1 <= j <= k <= |frame|
    ensures var early, late := ScanUpTo(cfg, frame, strategy, j).trades, ScanUpTo(cfg, frame, strategy, k).trades;
      early <= late && forall l | |early| <= l < |late| :: late[l].signalIndex >= j
    decreases k
  {
    hide ScanBar;
    if j < k {
      ScanAppends(cfg, frame, strategy, j, k - 1);
      BarAppends(cfg, frame, strategy, k - 1, ScanUpTo(cfg, frame, strategy, k - 1));
    }
  }

  /** The trades whose signal, entry expiry and holding period all lie before bar n. */
  function DecidedBefore(cfg: Config, n: nat, trades: seq<Trade>): seq<Trade> {
    if trades == [] then []
    else
      var last := trades[|trades| - 1];
      DecidedBefore(cfg, n, trades[..|trades| - 1])
      + (if last.signalIndex + cfg.entryExpiryBars + cfg.maxHoldingBars < n then [last] else [])
  }

  lemma {:induction false} DecidedIsPrefix(cfg: Config, n: nat, early: seq<Trade>, late: seq<Trade>)
    requires early <= late
    requires forall l | 0 <= l < |early| :: early[l].signalIndex + cfg.entryExpiryBars + cfg.maxHoldingBars < n
    requires forall l | |early| <= l < |late| :: late[l].signalIndex + cfg.entryExpiryBars + cfg.maxHoldingBars >= n
    ensures DecidedBefore(cfg, n, late) == early
    decreases |late|
  {
    if |late| > |early| {
      DecidedIsPrefix(cfg, n, early, late[..|late| - 1]);
    } else if late != [] {
      DecidedIsPrefix(cfg, n, early[..|early| - 1], late[..|late| - 1]);
      assert late == early;
    }
  }

  lemma DecidedUpToHorizon(cfg: ValidConfig, frame: seq<Candle>, strategy: Strategy, n: nat, k: nat)
    requires n <= |frame| && |frame| > cfg.warmupBars
    requires k == Max(cfg.warmupBars - 1, n - cfg.entryExpiryBars - cfg.maxHoldingBars)
    ensures k <= |frame| - 1
    ensures DecidedBefore(cfg, n, RunReport(cfg, frame, strategy).trades) == ScanUpTo(cfg, frame, strategy, k).trades
  {
    ScanAppends(cfg, frame, strategy, k, |frame| - 1);
    ScanAccounts(cfg, frame, strategy, k);
    DecidedIsPrefix(cfg, n, ScanUpTo(cfg, frame, strategy, k).trades, RunReport(cfg, frame, strategy).trades);
  }

  /**
   * No look-ahead over a whole run: two frames that agree on their first n bars yield the same trades, in the same
   * order, for every signal that is decided before bar n, whatever follows.
   */
  lemma RunIsCausal(cfg: ValidConfig, f: seq<Candle>, g: seq<Candle>, strategy: Strategy, n: nat)
    requires n <= |f| && n <= |g| && f[..n] == g[..n]
    requires |f| > cfg.warmupBars && |g| > cfg.warmupBars
    ensures DecidedBefore(cfg, n, RunReport(cfg, f, strategy).trades)
            == DecidedBefore(cfg, n, RunReport(cfg, g, strategy).trades)
  {
    var k: nat := Max(cfg.warmupBars - 1, n - cfg.entryExpiryBars - cfg.maxHoldingBars);
    DecidedUpToHorizon(cfg, f, strategy, n, k);
    DecidedUpToHorizon(cfg, g, strategy, n, k);
    if k > cfg.warmupBars - 1 {
      ScanIsCausal(cfg, f, g, strategy, n, k);
    }
  }

  // ---- where reported trades come from ---------------------------------

  /** The strategy's signal on this bar was accepted, and the trade is its simulation. */
  ghost predicate ComesFrom(cfg: ValidConfig, frame: seq<Candle>, strategy: Strategy, t: Trade) {
    && t.signalIndex < |frame|
    && strategy(frame[..t.signalIndex + 1]).Some?
    && var n := NormalizeSignal(cfg, strategy(frame[..t.signalIndex + 1]).value);
       n.Executable? && t == Simulated(cfg, frame, t.signalIndex, n.signal)
  }

  lemma BarComesFrom(cfg: ValidConfig, frame: seq<Candle>, strategy: Strategy, i: nat, st: RunState)
    requires i < |frame| && forall t | t in st.trades :: ComesFrom(cfg, frame, strategy, t)
    ensures forall t | t in ScanBar(cfg, frame, strategy, i, st).trades :: ComesFrom(cfg, frame, strategy, t)
  {
    hide NormalizeSignal, Simulated;
    var raw := strategy(frame[..i + 1]);
    if raw.Some? && NormalizeSignal(cfg, raw.value).Executable? {
      SimulatedIsWellTimed(cfg, frame, i, NormalizeSignal(cfg, raw.value).signal);
    }
  }

  lemma {:induction false} ScanComesFrom(cfg: ValidConfig, frame: seq<Candle>, strategy: Strategy, k: nat)
    requires cfg.warmupBars - 1 <= k <= |frame|
    ensures forall t | t in ScanUpTo(cfg, frame, strategy, k).trades :: ComesFrom(cfg, frame, strategy, t)
    decreases k
  {
    hide ScanBar, ComesFrom;
    if k > cfg.warmupBars - 1 {
      ScanComesFrom(cfg, frame, strategy, k - 1);
      BarComesFrom(cfg, frame, strategy, k - 1, ScanUpTo(cfg, frame, strategy, k - 1));
    }
  }

  function TradesOf(r: Report): seq<Trade> { if r.Report? then r.trades else [] }

  /** Every reported trade is the simulation of a signal that passed normalization on the bar it names. */
  lemma ReportedTradesComeFromSignals(cfg: ValidConfig, frame: seq<Candle>, strategy: Strategy)
    ensures forall t | t in TradesOf(RunReport(cfg, frame, strategy)) :: ComesFrom(cfg, frame, strategy, t)
  {
    hide ComesFrom;
    if |frame| > cfg.warmupBars {
      ScanComesFrom(cfg, frame, strategy, |frame| - 1);
    }
  }

  /** The strategy that gives one signal, when it has seen n candles. */
  function Once(n: nat, raw: RawSignal): Strategy {
    (seen: seq<Candle>) => if |seen| == n then Some(raw) else None
  }

  /** A valid signal on the first bar after warm-up is always simulated and reported. */
  lemma FirstSignalIsReported(cfg: ValidConfig, frame: seq<Candle>, raw: RawSignal)
    requires |frame| > cfg.warmupBars && NormalizeSignal(cfg, raw).Executable?
    ensures Simulated(cfg, frame, cfg.warmupBars - 1, NormalizeSignal(cfg, raw).signal)
            in TradesOf(RunReport(cfg, frame, Once(cfg.warmupBars, raw)))
  {
    hide NormalizeSignal, Simulated;
    var strategy, first: nat := Once(cfg.warmupBars, raw), cfg.warmupBars - 1;
    var t := Simulated(cfg, frame, first, NormalizeSignal(cfg, raw).signal);
    assert strategy(frame[..first + 1]) == Some(raw);
    assert ScanUpTo(cfg, frame, strategy, first + 1).trades == [t];
    ScanAppends(cfg, frame, strategy, first + 1, |frame| - 1);
    assert ScanUpTo(cfg, frame, strategy, |frame| - 1).trades[0] == t;
  }

  // ---- which signals are traded ----------------------------------------

  /** The strategy gave a signal on bar i. */
  predicate Signalled(frame: seq<Candle>, strategy: Strategy, i: nat) {
    i < |frame| && strategy(frame[..i + 1]).Some?
  }

  /** That signal passes normalization. */
  predicate SignalExecutable(cfg: ValidConfig, frame: seq<Candle>, strategy: Strategy, i: nat) {
    Signalled(frame, strategy, i) && NormalizeSignal(cfg, strategy(frame[..i + 1]).value).Executable?
  }

  /** Bar i may trade: trades may overlap, or every earlier one has exited before it. */
  ghost predicate Ungated(cfg: ValidConfig, trades: seq<Trade>, i: nat) {
    !cfg.oneTradeAtATime
    || forall t | t in trades && t.signalIndex < i && t.exitIndex.Some? :: t.exitIndex.value < i
  }

  ghost predicate TradedAt(trades: seq<Trade>, i: nat) { exists t | t in trades :: t.signalIndex == i }

  /** The bars before k whose signal was looked at and turned down. */
  ghost function RejectedBars(
      cfg: ValidConfig, frame: seq<Candle>, strategy: Strategy, trades: seq<Trade>, k: nat): set<nat>
  {
    set i: nat | cfg.warmupBars - 1 <= i < k && Ungated(cfg, trades, i)
                 && Signalled(frame, strategy, i) && !SignalExecutable(cfg, frame, strategy, i)
  }

  ghost predicate Complete(cfg: ValidConfig, frame: seq<Candle>, strategy: Strategy, k: nat, st: RunState) {
    && (forall t | t in st.trades :: t.signalIndex < k)
    && (forall i: nat | cfg.warmupBars - 1 <= i < k ::
          TradedAt(st.trades, i) <==> SignalExecutable(cfg, frame, strategy, i) && Ungated(cfg, st.trades, i))
    && st.rejected == |RejectedBars(cfg, frame, strategy, st.trades, k)|
  }

  /** next_available_index says which of the coming bars may trade. */
  ghost predicate GateTells(cfg: ValidConfig, k: nat, st: RunState) {
    cfg.oneTradeAtATime ==> forall i: nat | i >= k :: i >= st.nextAvailable <==> Ungated(cfg, st.trades, i)
  }

  lemma LaterTradesDoNotGate(cfg: ValidConfig, trades: seq<Trade>, t: Trade, i: nat)
    requires t.signalIndex >= i
    ensures Ungated(cfg, trades + [t], i) <==> Ungated(cfg, trades, i)
  {
    assert forall u | u in trades + [t] :: u in trades || u == t;
    assert forall u | u in trades :: u in trades + [t];
  }

  lemma AddTradeGates(cfg: ValidConfig, k: nat, st: RunState, t: Trade)
    requires GateTells(cfg, k, st) && WellTimed(t) && t.signalIndex == k
    requires cfg.oneTradeAtATime ==> Ungated(cfg, st.trades, k)
    ensures GateTells(cfg, k + 1, AddTrade(cfg, st, t))
  {
    var after := AddTrade(cfg, st, t);
    if cfg.oneTradeAtATime {
      forall i: nat | i >= k + 1 ensures i >= after.nextAvailable <==> Ungated(cfg, after.trades, i) {
        assert t in after.trades && forall u | u in after.trades :: u in st.trades || u == t;
        assert forall u | u in st.trades :: u in after.trades;
        assert Ungated(cfg, st.trades, i) <==> i >= st.nextAvailable;
        assert k >= st.nextAvailable;
      }
    }
  }

  lemma RejectedBarsStep(
      cfg: ValidConfig, frame: seq<Candle>, strategy: Strategy, before: seq<Trade>, after: seq<Trade>, k: nat)
    requires k >= cfg.warmupBars - 1
    requires forall i: nat | i <= k :: Ungated(cfg, after, i) <==> Ungated(cfg, before, i)
    ensures var turned := Ungated(cfg, before, k) && Signalled(frame, strategy, k)
                          && !SignalExecutable(cfg, frame, strategy, k);
      |RejectedBars(cfg, frame, strategy, after, k + 1)|
      == |RejectedBars(cfg, frame, strategy, before, k)| + (if turned then 1 else 0)
  {
    hide Ungated, Signalled, SignalExecutable;
    var earlier, now := RejectedBars(cfg, frame, strategy, before, k), RejectedBars(cfg, frame, strategy, after, k + 1);
    if Ungated(cfg, before, k) && Signalled(frame, strategy, k) && !SignalExecutable(cfg, frame, strategy, k) {
      assert now == earlier + {k};
    } else {
      assert now == earlier;
    }
  }

  lemma ScanStartsAfterWarmup(cfg: ValidConfig, frame: seq<Candle>, strategy: Strategy, k: nat)
    requires cfg.warmupBars - 1 <= k <= |frame|
    ensures forall t | t in ScanUpTo(cfg, frame, strategy, k).trades :: t.signalIndex >= cfg.warmupBars - 1
  {
    var early := ScanUpTo(cfg, frame, strategy, cfg.warmupBars - 1).trades;
    var late := ScanUpTo(cfg, frame, strategy, k).trades;
    ScanAppends(cfg, frame, strategy, cfg.warmupBars - 1, k);
    assert early == [];
    forall t | t in late ensures t.signalIndex >= cfg.warmupBars - 1 {
      var l :| 0 <= l < |late| && late[l] == t;
    }
  }

  /** A bar that trades is entered in the record, and no earlier bar's entry changes. */
  lemma TradedBarCompletes(
      cfg: ValidConfig, frame: seq<Candle>, strategy: Strategy, i: nat, st: RunState, t: Trade)
    requires i >= cfg.warmupBars - 1 && Complete(cfg, frame, strategy, i, st) && GateTells(cfg, i, st)
    requires WellTimed(t) && t.signalIndex == i
    requires SignalExecutable(cfg, frame, strategy, i) && Ungated(cfg, st.trades, i)
    ensures Complete(cfg, frame, strategy, i + 1, AddTrade(cfg, st, t))
    ensures GateTells(cfg, i + 1, AddTrade(cfg, st, t))
  {
    var trades := st.trades + [t];
    AddTradeGates(cfg, i, st, t);
    forall j: nat | j <= i ensures Ungated(cfg, trades, j) <==> Ungated(cfg, st.trades, j) {
      LaterTradesDoNotGate(cfg, st.trades, t, j);
    }
    RejectedBarsStep(cfg, frame, strategy, st.trades, trades, i);
    hide Ungated, SignalExecutable, Signalled, RejectedBars, GateTells;
    assert t in trades && forall u | u in trades :: u in st.trades || u == t;
    assert forall u | u in st.trades :: u in trades;
    forall j: nat | cfg.warmupBars - 1 <= j < i + 1
      ensures TradedAt(trades, j) <==> SignalExecutable(cfg, frame, strategy, j) && Ungated(cfg, trades, j)
    {
      assert j < i ==> (TradedAt(trades, j) <==> TradedAt(st.trades, j));
    }
  }

  /** A bar that does not trade, looked at or not. */
  lemma QuietBarCompletes(
      cfg: ValidConfig, frame: seq<Candle>, strategy: Strategy, i: nat, st: RunState, turned: bool)
    requires i >= cfg.warmupBars - 1 && Complete(cfg, frame, strategy, i, st) && GateTells(cfg, i, st)
    requires !(SignalExecutable(cfg, frame, strategy, i) && Ungated(cfg, st.trades, i))
    requires turned <==> Ungated(cfg, st.trades, i) && Signalled(frame, strategy, i)
    ensures var r := if turned then st.(seen := st.seen + 1, rejected := st.rejected + 1) else st;
      Complete(cfg, frame, strategy, i + 1, r) && GateTells(cfg, i + 1, r)
  {
    RejectedBarsStep(cfg, frame, strategy, st.trades, st.trades, i);
    hide Ungated, RejectedBars;
    assert forall t | t in st.trades :: t.signalIndex != i;
  }

  lemma BarCompletes(cfg: ValidConfig, frame: seq<Candle>, strategy: Strategy, i: nat, st: RunState)
    requires cfg.warmupBars - 1 <= i < |frame| && Complete(cfg, frame, strategy, i, st) && GateTells(cfg, i, st)
    ensures Complete(cfg, frame, strategy, i + 1, ScanBar(cfg, frame, strategy, i, st))
    ensures GateTells(cfg, i + 1, ScanBar(cfg, frame, strategy, i, st))
  {
    hide Complete, NormalizeSignal, Simulated, AddTrade;
    assert Ungated(cfg, st.trades, i) <==> !(cfg.oneTradeAtATime && i < st.nextAvailable);
    hide Ungated, GateTells;
    if SignalExecutable(cfg, frame, strategy, i) && Ungated(cfg, st.trades, i) {
      var s := NormalizeSignal(cfg, strategy(frame[..i + 1]).value).signal;
      SimulatedIsWellTimed(cfg, frame, i, s);
      TradedBarCompletes(cfg, frame, strategy, i, st, Simulated(cfg, frame, i, s));
    } else {
      QuietBarCompletes(
        cfg, frame, strategy, i, st, Ungated(cfg, st.trades, i) && Signalled(frame, strategy, i));
    }
  }

  lemma NothingIsComplete(cfg: ValidConfig, frame: seq<Candle>, strategy: Strategy, st: RunState)
    requires st == RunState([], 0, 0, 0, cfg.warmupBars - 1)
    ensures Complete(cfg, frame, strategy, cfg.warmupBars - 1, st) && GateTells(cfg, cfg.warmupBars - 1, st)
  {
    assert RejectedBars(cfg, frame, strategy, [], cfg.warmupBars - 1) == {};
  }

  lemma {:induction false} ScanCompletes(cfg: ValidConfig, frame: seq<Candle>, strategy: Strategy, k: nat)
    requires cfg.warmupBars - 1 <= k <= |frame|
    ensures Complete(cfg, frame, strategy, k, ScanUpTo(cfg, frame, strategy, k))
    ensures GateTells(cfg, k, ScanUpTo(cfg, frame, strategy, k))
    decreases k
  {
    hide ScanBar, Complete, GateTells;
    if k == cfg.warmupBars - 1 {
      NothingIsComplete(cfg, frame, strategy, ScanUpTo(cfg, frame, strategy, k));
    } else {
      ScanCompletes(cfg, frame, strategy, k - 1);
      BarCompletes(cfg, frame, strategy, k - 1, ScanUpTo(cfg, frame, strategy, k - 1));
    }
  }

  /**
   * A report is complete: a bar between warm-up and the last has a trade exactly when its signal is executable and,
   * with one trade at a time, every reported trade of an earlier signal has exited before it; and the rejected
   * signals are those of the bars that could have traded but whose signal is not executable.
   */
  lemma ReportIsComplete(cfg: ValidConfig, frame: seq<Candle>, strategy: Strategy)
    ensures RunReport(cfg, frame, strategy).Report? <==> |frame| > cfg.warmupBars
    ensures |frame| > cfg.warmupBars ==>
      var r := RunReport(cfg, frame, strategy);
      && (forall i: nat | cfg.warmupBars - 1 <= i < |frame| - 1 ::
            TradedAt(r.trades, i) <==> SignalExecutable(cfg, frame, strategy, i) && Ungated(cfg, r.trades, i))
      && (forall t | t in r.trades :: cfg.warmupBars - 1 <= t.signalIndex < |frame| - 1)
      && r.rejected == |RejectedBars(cfg, frame, strategy, r.trades, |frame| - 1)|
  {
    hide Ungated, SignalExecutable, RejectedBars;
    if |frame| > cfg.warmupBars {
      ScanCompletes(cfg, frame, strategy, |frame| - 1);
      ScanStartsAfterWarmup(cfg, frame, strategy, |frame| - 1);
    }
  }
}
