// What the figures and labels of one simulated trade say about its bars and
// exits: result, costs, excursions, waiting and holding times, and the way out.
module BacktestTrades {
  import opened Common
  import opened Folds
  import opened Backtest
  import opened BacktestBounds

  // ---- signals ---------------------------------------------------------

  /** The prices of a raw signal are there and in the order of its direction. */
  predicate InOrder(raw: RawSignal) {
    && raw.direction.Some? && raw.entry.Number? && raw.stop.Number?
    && raw.tp1.Number? && raw.tp2.Number? && raw.tp3.Number? && !raw.readiness.Bad?
    && (raw.direction.value == LONG ==>
          raw.stop.value < raw.entry.value < raw.tp1.value <= raw.tp2.value <= raw.tp3.value)
    && (raw.direction.value == SHORT ==>
          raw.stop.value > raw.entry.value > raw.tp1.value >= raw.tp2.value >= raw.tp3.value)
  }

  /** A signal is executed exactly when its prices are in order, it is ready and its category is on the list. */
  lemma ExecutedSignals(cfg: ValidConfig, raw: RawSignal)
    ensures NormalizeSignal(cfg, raw).Executable? <==>
              && InOrder(raw)
              && cfg.minimumReadiness <= (if raw.readiness.Number? then raw.readiness.value else 0.0)
              && raw.category in cfg.executableCategories
    ensures NormalizeSignal(cfg, raw).Executable? ==>
              var s := NormalizeSignal(cfg, raw).signal;
              && s.direction == raw.direction.value && s.entry == raw.entry.value && s.stop == raw.stop.value
              && s.tp1 == raw.tp1.value && s.tp2 == raw.tp2.value && s.tp3 == raw.tp3.value
              && s.category == raw.category && s.regime == raw.regime
    ensures NormalizeSignal(cfg, raw).Malformed? <==> !InOrder(raw)
  {
  }

  // ---- sums over the exits ---------------------------------------------

  /** Price times allocation of exit k. */
  function ExitValue(exits: seq<Exit>): nat -> real {
    (k: nat) => if k < |exits| then exits[k].price * exits[k].allocation else 0.0
  }

  /** What an exit earns in price units: the move from the entry in the direction of the trade, times its allocation. */
  function Gain(s: Signal, x: Exit): real {
    if s.direction == LONG then (x.price - s.entry) * x.allocation else (s.entry - x.price) * x.allocation
  }

  function ExitGain(s: Signal, exits: seq<Exit>): nat -> real {
    (k: nat) => if k < |exits| then Gain(s, exits[k]) else 0.0
  }

  lemma {:induction false} NotionalIsSum(exits: seq<Exit>)
    ensures Notional(exits) == Sum(|exits|, ExitValue(exits))
  {
    if exits != [] {
      var init := exits[..|exits| - 1];
      NotionalIsSum(init);
      SumDependsOnTerms(|init|, ExitValue(init), ExitValue(exits));
    }
  }

  lemma ResultTimesRisk(s: Signal, price: real, w: real)
    requires s.Risk() != 0.0
    ensures ResultR(s, price, w) * s.Risk() == w * s.Pnl(price)
  {
    var a, r := w * s.Pnl(price), s.Risk();
    assert a / r * r == a;
  }

  lemma GainIsResult(s: Signal, x: Exit)
    requires s.Risk() != 0.0
    ensures ResultR(s, x.price, x.allocation) * s.Risk() == Gain(s, x)
  {
    ResultTimesRisk(s, x.price, x.allocation);
  }

  lemma Distribute(a: real, b: real, r: real)
    ensures (a + b) * r == a * r + b * r
  {
  }

  lemma {:induction false} ExitsTotalIsSum(s: Signal, exits: seq<Exit>)
    requires s.Risk() != 0.0
    ensures TotalR(s, exits) * s.Risk() == Sum(|exits|, ExitGain(s, exits))
  {
    if exits != [] {
      var init, last := exits[..|exits| - 1], exits[|exits| - 1];
      ExitsTotalIsSum(s, init);
      assert forall k: nat | k < |init| :: init[k] == exits[k];
      hide Gain, ResultR;
      SumDependsOnTerms(|init|, ExitGain(s, init), ExitGain(s, exits));
      GainIsResult(s, last);
      Distribute(TotalR(s, init), ResultR(s, last.price, last.allocation), s.Risk());
    }
  }

  // ---- result and costs ------------------------------------------------

  lemma CostTimesRisk(x: real, risk: real)
    requires risk != 0.0
    ensures x / risk * risk == x
  {
  }

  lemma CostsInPrices(cfg: Config, entry: real, exits: seq<Exit>, traded: real, risk: real, bars: int)
    requires risk != 0.0 && traded == entry + Notional(exits)
    ensures var c := CostsR(cfg, entry, exits, risk, bars);
      && c.fees * risk == cfg.feeRate * traded
      && c.slippage * risk == cfg.slippageRate * traded
      && c.funding * risk == cfg.fundingRatePerBar * entry * bars as real
  {
    hide Notional;
    CostTimesRisk(cfg.feeRate * (entry + Notional(exits)), risk);
    CostTimesRisk(cfg.slippageRate * (entry + Notional(exits)), risk);
    CostTimesRisk(cfg.fundingRatePerBar * entry * bars as real, risk);
  }

  /** The gross result, in price units, is what the exits earned. */
  ghost predicate Earned(s: Signal, t: Trade, exits: seq<Exit>) {
    t.grossR * s.Risk() == Sum(|exits|, ExitGain(s, exits))
  }

  /** Fees and slippage are paid on the entry and on every exit, funding on the entry for every bar held. */
  ghost predicate Charged(cfg: ValidConfig, s: Signal, t: Trade, exits: seq<Exit>) {
    var traded := s.entry + Sum(|exits|, ExitValue(exits));
    && t.costs.fees * s.Risk() == cfg.feeRate * traded
    && t.costs.slippage * s.Risk() == cfg.slippageRate * traded
    && t.costs.funding * s.Risk() == cfg.fundingRatePerBar * s.entry * t.barsHeld as real
  }

  lemma ExecutedIsEarned(cfg: ValidConfig, s: Signal, i: nat, e: nat, o: Outcome)
    requires s.Risk() != 0.0 && TotalR(s, o.last.exits) == o.last.realized
    ensures Earned(s, ExecutedTrade(cfg, i, s, e, o), o.last.exits)
  {
    hide TotalR, Sum, CostsR;
    ExitsTotalIsSum(s, o.last.exits);
  }

  lemma ExecutedIsCharged(cfg: ValidConfig, s: Signal, i: nat, e: nat, o: Outcome)
    requires s.Risk() != 0.0
    ensures Charged(cfg, s, ExecutedTrade(cfg, i, s, e, o), o.last.exits)
  {
    hide Notional, Sum, CostsR;
    NotionalIsSum(o.last.exits);
    var traded := s.entry + Sum(|o.last.exits|, ExitValue(o.last.exits));
    CostsInPrices(cfg, s.entry, o.last.exits, traded, s.Risk(), o.exitIndex - e + 1);
  }

  /**
   * The net result is what the three costs leave of the gross result; an expired trade has neither; an executed one
   * is balanced over its exits.
   */
  lemma TradeBalances(cfg: ValidConfig, frame: seq<Candle>, i: nat, s: Signal)
    requires s.Risk() != 0.0
    ensures var t := Simulated(cfg, frame, i, s);
      && t.netR + t.costs.fees + t.costs.slippage + t.costs.funding == t.grossR
      && (t.entryIndex.None? ==> t.grossR == t.costs.fees == t.costs.slippage == t.costs.funding == 0.0)
      && (t.entryIndex.Some? ==>
            && t.entryIndex.value < |frame|
            && var exits := Execute(cfg, frame, s, t.entryIndex.value).last.exits;
               Earned(s, t, exits) && Charged(cfg, s, t, exits))
  {
    hide Execute, Earned, Charged, CostsR;
    var e := EntryBar(cfg, frame, i, s);
    if e.Some? {
      TradeConserves(cfg, frame, s, e.value);
      ExecutedIsEarned(cfg, s, i, e.value, Execute(cfg, frame, s, e.value));
      ExecutedIsCharged(cfg, s, i, e.value, Execute(cfg, frame, s, e.value));
    }
  }

  // ---- costs only take away --------------------------------------------

  ghost predicate Priced(exits: seq<Exit>) {
    forall k | 0 <= k < |exits| :: exits[k].price > 0.0 && exits[k].allocation >= 0.0
  }

  lemma TakePriced(s: Signal, p: Position, price: real, w: real)
    requires s.Risk() != 0.0 && Priced(p.exits) && price > 0.0 && w >= 0.0
    ensures Priced(Take(s, p, price, w).exits)
  {
  }

  lemma BarPriced(cfg: ValidConfig, s: Signal, row: Candle, p: Position)
    requires ReachableNonNegative(cfg) && s.Geometry() && s.Risk() > 0.0 && s.entry > 0.0 && row.low > 0.0
    requires row.Ordered() && Open(cfg, s, p) && p.hits <= cfg.maxHoldingBars && Priced(p.exits)
    ensures match BarStep(cfg, s, row, p)
            case Continue(q) => Priced(q.exits)
            case Closed(q, _, _) => Priced(q.exits)
  {
    ReachedAllocation(cfg, s, p);
    var x := WithExcursion(row, s, p);
    if StopTouched(row, s, x) {
      TakePriced(s, x, x.effectiveStop, x.remaining);
    }
    if TargetTouched(row, s, x) {
      TakePriced(s, x, s.Target(x.hits), Allocation(cfg, x));
    }
    hide AdverseR, FavorableR, ResultR, Priced;
  }

  lemma {:induction false} WalkPriced(
      cfg: ValidConfig, s: Signal, frame: seq<Candle>, first: nat, i: nat, end: nat, p: Position)
    requires ReachableNonNegative(cfg) && s.Geometry() && s.Risk() > 0.0 && s.entry > 0.0 && MarketFrame(frame)
    requires first <= i <= end + 1 && end < |frame| && end - first <= cfg.maxHoldingBars
    requires Open(cfg, s, p) && p.hits <= i - first && Priced(p.exits)
    ensures Priced(Walk(cfg, s, frame, i, end, p).last.exits)
    decreases end + 1 - i
  {
    hide ReachableNonNegative;
    if i > end {
      TakePriced(s, p, frame[end].close, p.remaining);
    } else {
      BarStaysOpen(cfg, s, frame[i], p);
      BarPriced(cfg, s, frame[i], p);
      match BarStep(cfg, s, frame[i], p)
      case Closed(_, _, _) =>
      case Continue(q) => WalkPriced(cfg, s, frame, first, i + 1, end, q);
    }
  }

  lemma {:induction false} SumOfPriced(n: nat, exits: seq<Exit>)
    requires n <= |exits| && Priced(exits)
    ensures Sum(n, ExitValue(exits)) >= 0.0
  {
    if n > 0 {
      SumOfPriced(n - 1, exits);
    }
  }

  lemma NegativeTimes(a: real, r: real)
    requires a < 0.0 && r > 0.0
    ensures a * r < 0.0
  {
  }

  lemma SignOfCost(cost: real, risk: real, rate: real, base: real)
    requires risk > 0.0 && cost * risk == rate * base && rate >= 0.0 && base >= 0.0
    ensures cost >= 0.0 && (rate > 0.0 && base > 0.0 ==> cost > 0.0)
  {
    if cost < 0.0 {
      NegativeTimes(cost, risk);
    }
  }

  lemma ChargesAreNonNegative(cfg: ValidConfig, s: Signal, t: Trade, exits: seq<Exit>)
    requires s.Risk() > 0.0 && s.entry > 0.0 && cfg.fundingRatePerBar >= 0.0 && t.barsHeld >= 0
    requires Charged(cfg, s, t, exits) && Priced(exits)
    ensures t.costs.fees >= 0.0 && t.costs.slippage >= 0.0 && t.costs.funding >= 0.0
    ensures cfg.feeRate > 0.0 ==> t.costs.fees > 0.0
  {
    SumOfPriced(|exits|, exits);
    hide Sum, Priced;
    var traded := s.entry + Sum(|exits|, ExitValue(exits));
    SignOfCost(t.costs.fees, s.Risk(), cfg.feeRate, traded);
    SignOfCost(t.costs.slippage, s.Risk(), cfg.slippageRate, traded);
    var bars := t.barsHeld as real;
    assert cfg.fundingRatePerBar * s.entry >= 0.0;
    SignOfCost(t.costs.funding, s.Risk(), cfg.fundingRatePerBar * s.entry, bars);
  }

  lemma {:induction false} WalkStaysInWindow(
      cfg: Config, s: Signal, frame: seq<Candle>, i: nat, end: nat, p: Position)
    requires |cfg.tpAllocations| == 3 && s.Risk() != 0.0 && i <= end + 1 && end < |frame|
    ensures Min(i, end) <= Walk(cfg, s, frame, i, end, p).exitIndex <= end
    decreases end + 1 - i
  {
    if i <= end && BarStep(cfg, s, frame[i], p).Continue? {
      WalkStaysInWindow(cfg, s, frame, i + 1, end, BarStep(cfg, s, frame[i], p).next);
    }
  }

  /** On a market, with a funding rate that is not negative, costs never improve a result, and fees always worsen it. */
  lemma CostsOnlyTakeAway(cfg: ValidConfig, frame: seq<Candle>, i: nat, s: Signal)
    requires ReachableNonNegative(cfg) && cfg.fundingRatePerBar >= 0.0 && MarketFrame(frame) && s.Geometry()
    requires s.entry > 0.0
    ensures s.Risk() > 0.0
    ensures var t := Simulated(cfg, frame, i, s);
      t.netR <= t.grossR && (t.entryIndex.Some? && cfg.feeRate > 0.0 ==> t.netR < t.grossR)
  {
    Levels(s);
    TradeBalances(cfg, frame, i, s);
    var e := EntryBar(cfg, frame, i, s);
    if e.Some? {
      var end := LastBar(cfg, frame, e.value);
      WalkPriced(cfg, s, frame, e.value, e.value, end, Opened(s));
      WalkStaysInWindow(cfg, s, frame, e.value, end, Opened(s));
      hide Walk, Charged, Earned, Priced, CostsR, ReachableNonNegative;
      ChargesAreNonNegative(
        cfg, s, Simulated(cfg, frame, i, s), Execute(cfg, frame, s, e.value).last.exits);
    }
  }

  // ---- excursions ------------------------------------------------------

  /** How far a bar went against the trade, and in its favour; negative if it did not go there at all. */
  function Against(s: Signal): Candle -> real {
    (row: Candle) => if s.direction == LONG then s.entry - row.low else row.high - s.entry
  }

  function InFavour(s: Signal): Candle -> real {
    (row: Candle) => if s.direction == LONG then row.high - s.entry else s.entry - row.low
  }

  /** x is the largest of zero and the distances of the bars in [from, to). */
  ghost predicate IsPeak(frame: seq<Candle>, distance: Candle -> real, from: nat, to: nat, x: real)
    requires to <= |frame|
  {
    && x >= 0.0
    && (forall k | from <= k < to :: distance(frame[k]) <= x)
    && (x == 0.0 || exists k | from <= k < to :: distance(frame[k]) == x)
  }

  lemma PeakStep(frame: seq<Candle>, distance: Candle -> real, from: nat, to: nat, x: real)
    requires from <= to < |frame| && IsPeak(frame, distance, from, to, x)
    ensures IsPeak(frame, distance, from, to + 1, RMax(x, distance(frame[to])))
  {
    if distance(frame[to]) <= x && x != 0.0 {
      var k :| from <= k < to && distance(frame[k]) == x;
    }
  }

  lemma LargerOfScaled(a: real, d: real, r: real)
    requires r > 0.0 && a >= 0.0
    ensures RMax(a, RMax(0.0, d) / r) * r == RMax(a * r, d)
  {
    var q := RMax(0.0, d) / r;
    assert q * r == RMax(0.0, d);
    if a >= q {
      ScaleMonotone(r, q, a);
    } else {
      ScaleMonotone(r, a, q);
    }
    assert a * r >= 0.0;
  }

  /** An excursion in units of price. */
  function InPrices(s: Signal, r: real): real { r * s.Risk() }

  lemma AdverseStep(s: Signal, row: Candle, a: real)
    requires s.Risk() > 0.0 && a >= 0.0
    ensures var m := RMax(a, AdverseR(row, s));
      m >= 0.0 && InPrices(s, m) == RMax(InPrices(s, a), Against(s)(row))
  {
    LargerOfScaled(a, Against(s)(row), s.Risk());
    assert Adverse(row, s) == RMax(0.0, Against(s)(row));
  }

  lemma FavorableStep(s: Signal, row: Candle, a: real)
    requires s.Risk() > 0.0 && a >= 0.0
    ensures var m := RMax(a, FavorableR(row, s));
      m >= 0.0 && InPrices(s, m) == RMax(InPrices(s, a), InFavour(s)(row))
  {
    LargerOfScaled(a, InFavour(s)(row), s.Risk());
    assert Favorable(row, s) == RMax(0.0, InFavour(s)(row));
  }

  lemma ExcursionStep(s: Signal, row: Candle, p: Position)
    requires s.Risk() > 0.0 && p.mae >= 0.0 && p.mfe >= 0.0
    ensures var x := WithExcursion(row, s, p);
      && x.mae >= 0.0 && InPrices(s, x.mae) == RMax(InPrices(s, p.mae), Against(s)(row))
      && x.mfe >= 0.0 && InPrices(s, x.mfe) == RMax(InPrices(s, p.mfe), InFavour(s)(row))
  {
    hide AdverseR, FavorableR, Against, InFavour, RMax, InPrices;
    AdverseStep(s, row, p.mae);
    FavorableStep(s, row, p.mfe);
  }

  ghost predicate Peaks(s: Signal, frame: seq<Candle>, from: nat, to: nat, p: Position)
    requires to <= |frame|
  {
    && p.mae >= 0.0 && p.mfe >= 0.0
    && IsPeak(frame, Against(s), from, to, InPrices(s, p.mae))
    && IsPeak(frame, InFavour(s), from, to, InPrices(s, p.mfe))
  }

  lemma BarKeepsExcursions(cfg: ValidConfig, s: Signal, row: Candle, p: Position)
    requires s.Risk() != 0.0
    ensures var x := WithExcursion(row, s, p);
      match BarStep(cfg, s, row, p)
      case Continue(q) => q.mae == x.mae && q.mfe == x.mfe
      case Closed(q, _, _) => q.mae == x.mae && q.mfe == x.mfe
  {
    hide AdverseR, FavorableR, ResultR, IsClose, Hit;
  }

  lemma BarPeaks(cfg: ValidConfig, s: Signal, frame: seq<Candle>, from: nat, i: nat, p: Position)
    requires s.Risk() > 0.0 && from <= i < |frame| && Peaks(s, frame, from, i, p)
    ensures match BarStep(cfg, s, frame[i], p)
            case Continue(q) => Peaks(s, frame, from, i + 1, q)
            case Closed(q, _, _) => Peaks(s, frame, from, i + 1, q)
  {
    hide IsPeak, BarStep, WithExcursion, InPrices, RMax;
    PeakStep(frame, Against(s), from, i, InPrices(s, p.mae));
    PeakStep(frame, InFavour(s), from, i, InPrices(s, p.mfe));
    ExcursionStep(s, frame[i], p);
    BarKeepsExcursions(cfg, s, frame[i], p);
  }

  lemma {:induction false} WalkPeaks(
      cfg: ValidConfig, s: Signal, frame: seq<Candle>, from: nat, i: nat, end: nat, p: Position)
    requires s.Risk() > 0.0 && from <= i <= end + 1 && end < |frame| && Peaks(s, frame, from, i, p)
    ensures var o := Walk(cfg, s, frame, i, end, p);
      o.exitIndex <= end && Peaks(s, frame, from, o.exitIndex + 1, o.last)
    decreases end + 1 - i
  {
    hide IsPeak, BarStep, InPrices;
    if i <= end {
      BarPeaks(cfg, s, frame, from, i, p);
      match BarStep(cfg, s, frame[i], p)
      case Closed(_, _, _) =>
      case Continue(q) => WalkPeaks(cfg, s, frame, from, i + 1, end, q);
    }
  }

  lemma NoPeakYet(s: Signal, frame: seq<Candle>, from: nat)
    requires from <= |frame|
    ensures Peaks(s, frame, from, from, Opened(s))
  {
    assert InPrices(s, 0.0) == 0.0;
  }

  /** The reported excursions are the largest moves against and for the trade over exactly the bars it was held. */
  lemma ExcursionsAreExact(cfg: ValidConfig, frame: seq<Candle>, i: nat, s: Signal)
    requires s.Risk() > 0.0
    ensures var t := Simulated(cfg, frame, i, s);
      t.entryIndex.Some? ==>
        && t.exitIndex.Some? && t.exitIndex.value < |frame|
        && IsPeak(frame, Against(s), t.entryIndex.value, t.exitIndex.value + 1, InPrices(s, t.maeR))
        && IsPeak(frame, InFavour(s), t.entryIndex.value, t.exitIndex.value + 1, InPrices(s, t.mfeR))
  {
    hide CostsR, IsPeak, Walk, InPrices;
    var e := EntryBar(cfg, frame, i, s);
    if e.Some? {
      NoPeakYet(s, frame, e.value);
      WalkPeaks(cfg, s, frame, e.value, e.value, LastBar(cfg, frame, e.value), Opened(s));
    }
  }

  // ---- the way out -----------------------------------------------------

  /** The bar traded at the price or worse; at the price or better. */
  predicate ReachedDown(s: Signal, row: Candle, price: real) {
    if s.direction == LONG then row.low <= price else row.high >= price
  }

  predicate ReachedUp(s: Signal, row: Candle, price: real) {
    if s.direction == LONG then row.high >= price else row.low <= price
  }

  /** The stop in force: the signal's, or the entry once a target was taken and the configuration moves it. */
  function StopInForce(cfg: ValidConfig, s: Signal, targets: nat): real {
    if targets > 0 && cfg.moveToBreakeven then s.entry else s.stop
  }

  /** What each label says about the exit bar, the exit price and the number of targets taken. */
  ghost predicate WayOut(cfg: ValidConfig, s: Signal, frame: seq<Candle>, end: nat, o: Outcome)
    requires end < |frame|
  {
    && o.exitIndex <= end
    && match o.status
       case STOP | BREAKEVEN =>
         && o.last.hits <= 2 && o.price == StopInForce(cfg, s, o.last.hits)
         && ReachedDown(s, frame[o.exitIndex], o.price)
         && (o.status == BREAKEVEN <==> Abs(o.price - s.entry) <= 0.00000001 + 0.00001 * Abs(s.entry))
       case TP3 =>
         && 1 <= o.last.hits <= 3
         && o.price == (if o.last.hits == 1 then s.tp1 else if o.last.hits == 2 then s.tp2 else s.tp3)
         && ReachedUp(s, frame[o.exitIndex], o.price)
       case TIMEOUT | TP1_TIMEOUT | TP2_TIMEOUT =>
         && o.exitIndex == end && o.price == frame[end].close
         && o.last.hits == (if o.status == TIMEOUT then 0 else if o.status == TP1_TIMEOUT then 1 else 2)
       case EXPIRED => false
  }

  /** A bar that does not end the trade: conservatively it kept off the stop and, with no target taken, off TP1. */
  ghost predicate Survived(cfg: ValidConfig, s: Signal, row: Candle, targets: nat) {
    && (cfg.policy == CONSERVATIVE ==> !ReachedDown(s, row, s.stop))
    && (targets == 0 ==> !ReachedUp(s, row, s.tp1))
  }

  lemma BarWayOut(cfg: ValidConfig, s: Signal, frame: seq<Candle>, i: nat, end: nat, p: Position)
    requires s.Geometry() && s.Risk() > 0.0 && i <= end < |frame| && Open(cfg, s, p)
    ensures match BarStep(cfg, s, frame[i], p)
            case Continue(q) => p.hits <= q.hits <= 2 && Survived(cfg, s, frame[i], q.hits)
            case Closed(q, status, price) =>
              p.hits <= q.hits && WayOut(cfg, s, frame, end, Outcome(q, status, price, i))
  {
    hide AdverseR, FavorableR, ResultR;
    BarStaysOpen(cfg, s, frame[i], p);
  }

  lemma {:induction false} WalkWayOut(
      cfg: ValidConfig, s: Signal, frame: seq<Candle>, i: nat, end: nat, p: Position)
    requires s.Geometry() && s.Risk() > 0.0 && i <= end + 1 && end < |frame| && Open(cfg, s, p)
    ensures var o := Walk(cfg, s, frame, i, end, p);
      && WayOut(cfg, s, frame, end, o) && p.hits <= o.last.hits
      && forall j | i <= j < o.exitIndex :: Survived(cfg, s, frame[j], o.last.hits)
    decreases end + 1 - i
  {
    if i <= end {
      hide WayOut;
      BarStaysOpen(cfg, s, frame[i], p);
      BarWayOut(cfg, s, frame, i, end, p);
      match BarStep(cfg, s, frame[i], p)
      case Closed(_, _, _) =>
      case Continue(q) => WalkWayOut(cfg, s, frame, i + 1, end, q);
    }
  }

  /**
   * An executed trade exits as its label says, no bar before the exit ended it, and it is reported with its own
   * signal, price, waiting time and holding time; an expired one with the length of the entry window and nothing else.
   */
  lemma TradeIsExplained(cfg: ValidConfig, frame: seq<Candle>, i: nat, s: Signal)
    requires s.Geometry() && s.Risk() > 0.0
    ensures var t := Simulated(cfg, frame, i, s);
      && t.signalIndex == i && t.signal == s
      && (t.entryIndex.None? ==>
            && t.status == EXPIRED && t.exitIndex == None && t.exitPrice == None && t.mfeR == t.maeR == 0.0
            && t.barsWaited == Min(|frame| - 1, i + cfg.entryExpiryBars) - i && t.barsHeld == 0)
      && (t.entryIndex.Some? ==>
            && i < t.entryIndex.value < |frame|
            && var e, end := t.entryIndex.value, Min(|frame| - 1, t.entryIndex.value + cfg.maxHoldingBars);
               var o := Execute(cfg, frame, s, e);
            && WayOut(cfg, s, frame, end, o)
            && (forall j | e <= j < o.exitIndex :: Survived(cfg, s, frame[j], o.last.hits))
            && t.status == o.status && t.exitIndex == Some(o.exitIndex) && t.exitPrice == Some(o.price)
            && t.barsWaited == e - i && t.barsHeld == o.exitIndex - e + 1)
  {
    hide CostsR, WayOut, Survived, Walk;
    var e := EntryBar(cfg, frame, i, s);
    if e.Some? {
      WalkWayOut(cfg, s, frame, e.value, LastBar(cfg, frame, e.value), Opened(s));
    }
  }

  // ---- what the tolerance leaves ---------------------------------------

  /** The allocations of an accepted configuration miss 1 by at most about a hundred-thousandth. */
  lemma AllocationsNearlySumToOne(cfg: ValidConfig)
    ensures Abs(cfg.tpAllocations[0] + cfg.tpAllocations[1] + cfg.tpAllocations[2] - 1.0) <= 0.00001001
  {
  }

  /** So whatever closes a trade, no more than that is left unexited. */
  lemma NearlyAllIsExited(cfg: ValidConfig, frame: seq<Candle>, s: Signal, entryIndex: nat)
    requires entryIndex < |frame| && s.Risk() != 0.0
    ensures var o := Execute(cfg, frame, s, entryIndex);
      0.0 <= o.last.remaining <= (if o.status == TP3 then 0.00001001 else 0.0)
  {
    TradeConserves(cfg, frame, s, entryIndex);
    AllocationsNearlySumToOne(cfg);
    assert Planned(cfg, 2) == cfg.tpAllocations[0] + cfg.tpAllocations[1] by {
      assert Planned(cfg, 1) == cfg.tpAllocations[0];
    }
    assert Planned(cfg, 3) == cfg.tpAllocations[0] + cfg.tpAllocations[1] + cfg.tpAllocations[2];
    hide Execute, TotalR, Exited, TargetsInOrder;
  }
}
