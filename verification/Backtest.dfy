// The OHLC trade simulator of core/backtest_engine.py: configuration check,
// signal normalization, the bar walk of one trade and its costs.
// Prices are exact reals; rounding of the reported figures is not modelled.
module Backtest {
  import opened Common

  datatype IntrabarPolicy = CONSERVATIVE | OPTIMISTIC

  datatype Direction = LONG | SHORT

  datatype Status = EXPIRED | STOP | BREAKEVEN | TP3 | TIMEOUT | TP1_TIMEOUT | TP2_TIMEOUT

  datatype Candle = Candle(low: real, high: real, close: real) {
    ghost predicate Ordered() { low <= close <= high }
  }

  ghost predicate OrderedFrame(frame: seq<Candle>) {
    forall i | 0 <= i < |frame| :: frame[i].Ordered()
  }

  /** Candles a market can produce: positive prices, and the close inside the range. */
  ghost predicate MarketFrame(frame: seq<Candle>) {
    OrderedFrame(frame) && forall i | 0 <= i < |frame| :: frame[i].low > 0.0
  }

  /** numpy.isclose with its default tolerances. */
  predicate IsClose(a: real, b: real) {
    Abs(a - b) <= 0.00000001 + 0.00001 * Abs(b)
  }

  /** The remaining position below which a trade counts as fully closed. */
  const CUT_OFF := 0.000000000001

  datatype Config = Config(
    warmupBars: int, entryExpiryBars: int, maxHoldingBars: int,
    feeRate: real, slippageRate: real, fundingRatePerBar: real,
    tpAllocations: seq<real>, moveToBreakeven: bool, policy: IntrabarPolicy,
    executableCategories: seq<string>, minimumReadiness: real, oneTradeAtATime: bool)
  {
    /** What __post_init__ lets through; note that it does not look at the sign of an allocation. */
    predicate Accepted() {
      && warmupBars >= 20
      && entryExpiryBars >= 1 && maxHoldingBars >= 1
      && feeRate >= 0.0 && slippageRate >= 0.0
      && |tpAllocations| == 3
      && IsClose(tpAllocations[0] + tpAllocations[1] + tpAllocations[2], 1.0)
    }
  }

  const DEFAULTS := Config(250, 24, 120, 0.0005, 0.0003, 0.0, [0.40, 0.35, 0.25], true,
                           CONSERVATIVE, ["READY_NOW"], 70.0, true)

  type ValidConfig = c: Config | c.Accepted() witness DEFAULTS

  // ---- signals ---------------------------------------------------------

  datatype Signal = Signal(
    direction: Direction, entry: real, stop: real, tp1: real, tp2: real, tp3: real,
    readiness: real, category: string, regime: string)
  {
    predicate Geometry() {
      match direction
      case LONG => stop < entry < tp1 <= tp2 <= tp3
      case SHORT => stop > entry > tp1 >= tp2 >= tp3
    }

    function Risk(): real { Abs(entry - stop) }

    function Target(n: nat): real
      requires n < 3
    { if n == 0 then tp1 else if n == 1 then tp2 else tp3 }

    /** Profit of one unit closed at `price`. */
    function Pnl(price: real): real {
      if direction == LONG then price - entry else entry - price
    }
  }

  /** A field of the mapping that a strategy hands back. Bad is a value that is not a finite number. */
  datatype Field = Missing | Bad | Number(value: real)

  /** What a strategy hands back; an absent or unknown direction is None. */
  datatype RawSignal = RawSignal(
    direction: Option<Direction>, entry: Field, stop: Field, tp1: Field, tp2: Field, tp3: Field,
    readiness: Field, category: string, regime: string)
  {
    predicate Complete() {
      && direction.Some? && entry.Number? && stop.Number? && tp1.Number? && tp2.Number? && tp3.Number?
      && !readiness.Bad?
    }

    /** A missing readiness is zero; every other field has to be there. */
    function AsSignal(): Signal
      requires Complete()
    {
      Signal(direction.value, entry.value, stop.value, tp1.value, tp2.value, tp3.value,
             if readiness.Missing? then 0.0 else readiness.value, category, regime)
    }
  }

  datatype Normalized = Executable(signal: Signal) | Rejected(reason: string) | Malformed

  /**
   * _normalize_signal: Malformed stands for the exceptions that run() catches. They come first, whatever the
   * readiness and the category are.
   */
  function NormalizeSignal(cfg: Config, raw: RawSignal): (n: Normalized)
    ensures n.Malformed? <==> !raw.Complete() || !raw.AsSignal().Geometry()
    ensures n.Executable? <==>
              && raw.Complete() && raw.AsSignal().Geometry()
              && raw.AsSignal().readiness >= cfg.minimumReadiness && raw.category in cfg.executableCategories
    ensures n.Executable? ==> n.signal == raw.AsSignal() && n.signal.Risk() > 0.0
  {
    if !raw.Complete() then Malformed
    else
      var s := raw.AsSignal();
      if s.Risk() <= 0.0 then Malformed
      else if !s.Geometry() then Malformed
      else if s.readiness < cfg.minimumReadiness then Rejected("readiness_below_threshold")
      else if s.category !in cfg.executableCategories then Rejected("category_not_executable")
      else Executable(s)
  }

  // ---- one bar ---------------------------------------------------------

  predicate EntryTouched(row: Candle, entry: real) { row.low <= entry <= row.high }

  function Adverse(row: Candle, s: Signal): real {
    if s.direction == LONG then RMax(0.0, s.entry - row.low) else RMax(0.0, row.high - s.entry)
  }

  function Favorable(row: Candle, s: Signal): real {
    if s.direction == LONG then RMax(0.0, row.high - s.entry) else RMax(0.0, s.entry - row.low)
  }

  /** Excursions and results are measured in units of the initial risk. */
  function AdverseR(row: Candle, s: Signal): real
    requires s.Risk() != 0.0
  { Adverse(row, s) / s.Risk() }

  function FavorableR(row: Candle, s: Signal): real
    requires s.Risk() != 0.0
  { Favorable(row, s) / s.Risk() }

  /** The result of closing `allocation` at `price`. */
  function ResultR(s: Signal, price: real, allocation: real): real
    requires s.Risk() != 0.0
  { allocation * s.Pnl(price) / s.Risk() }

  predicate Hit(row: Candle, direction: Direction, price: real, target: bool) {
    if direction == LONG then
      if target then row.high >= price else row.low <= price
    else
      if target then row.low <= price else row.high >= price
  }

  datatype Exit = Exit(price: real, allocation: real)

  /** The variables _simulate carries from bar to bar; `hits` counts the targets reached so far. */
  datatype Position = Position(
    realized: real, remaining: real, hits: nat, effectiveStop: real,
    mfe: real, mae: real, exits: seq<Exit>)

  datatype BarResult = Continue(next: Position) | Closed(last: Position, status: Status, price: real)

  function Opened(s: Signal): Position { Position(0.0, 1.0, 0, s.stop, 0.0, 0.0, []) }

  predicate StopTouched(row: Candle, s: Signal, p: Position) {
    Hit(row, s.direction, p.effectiveStop, false)
  }

  predicate TargetTouched(row: Candle, s: Signal, p: Position) {
    p.hits < 3 && Hit(row, s.direction, s.Target(p.hits), true)
  }

  function WithExcursion(row: Candle, s: Signal, p: Position): Position
    requires s.Risk() != 0.0
  {
    p.(mae := RMax(p.mae, AdverseR(row, s)), mfe := RMax(p.mfe, FavorableR(row, s)))
  }

  /** Closing `allocation` at `price`. */
  function Take(s: Signal, p: Position, price: real, allocation: real): Position
    requires s.Risk() != 0.0
  {
    p.(realized := p.realized + ResultR(s, price, allocation),
       remaining := p.remaining - allocation,
       exits := p.exits + [Exit(price, allocation)])
  }

  function Allocation(cfg: Config, p: Position): real
    requires |cfg.tpAllocations| == 3 && p.hits < 3
  { RMin(cfg.tpAllocations[p.hits], p.remaining) }

  function TakeTarget(cfg: Config, s: Signal, p: Position): Position
    requires |cfg.tpAllocations| == 3 && p.hits < 3 && s.Risk() != 0.0
  {
    Take(s, p, s.Target(p.hits), Allocation(cfg, p))
      .(hits := p.hits + 1,
        effectiveStop := if p.hits == 0 && cfg.moveToBreakeven then s.entry else p.effectiveStop)
  }

  /** One iteration of the bar loop. An ambiguous bar is resolved by the intrabar policy. */
  function BarStep(cfg: Config, s: Signal, row: Candle, before: Position): BarResult
    requires |cfg.tpAllocations| == 3 && s.Risk() != 0.0
  {
    var p := WithExcursion(row, s, before);
    var stop, target := StopTouched(row, s, p), TargetTouched(row, s, p);
    if stop && (!target || cfg.policy == CONSERVATIVE) then
      Closed(Take(s, p, p.effectiveStop, p.remaining),
             if IsClose(p.effectiveStop, s.entry) then BREAKEVEN else STOP, p.effectiveStop)
    else if target then
      var q := TakeTarget(cfg, s, p);
      if p.hits == 2 || q.remaining <= CUT_OFF then Closed(q, TP3, s.Target(p.hits)) else Continue(q)
    else Continue(p)
  }

  // ---- the walk --------------------------------------------------------

  datatype Outcome = Outcome(last: Position, status: Status, price: real, exitIndex: nat)

  /** The position is still open after the last bar and is closed at that bar's close. */
  function CloseOnTimeout(s: Signal, row: Candle, p: Position, index: nat): Outcome
    requires s.Risk() != 0.0
  {
    Outcome(Take(s, p, row.close, p.remaining),
            if p.hits >= 2 then TP2_TIMEOUT else if p.hits >= 1 then TP1_TIMEOUT else TIMEOUT,
            row.close, index)
  }

  /** Bars i..end of a trade that stands at p when bar i opens. */
  function Walk(cfg: Config, s: Signal, frame: seq<Candle>, i: nat, end: nat, p: Position): Outcome
    requires |cfg.tpAllocations| == 3 && s.Risk() != 0.0
    requires i <= end + 1 && end < |frame|
    decreases end + 1 - i
  {
    if i > end then CloseOnTimeout(s, frame[end], p, end)
    else match BarStep(cfg, s, frame[i], p)
      case Closed(q, status, price) => Outcome(q, status, price, i)
      case Continue(q) => Walk(cfg, s, frame, i + 1, end, q)
  }

  /** The first bar in [i, limit) whose range contains the entry price. */
  function FirstTouch(frame: seq<Candle>, entry: real, i: nat, limit: nat): (r: Option<nat>)
    requires limit <= |frame|
    ensures r.Some? ==> i <= r.value < limit && EntryTouched(frame[r.value], entry)
    ensures forall k | i <= k < (if r.Some? then r.value else limit) :: !EntryTouched(frame[k], entry)
    decreases limit - i
  {
    if i >= limit then None
    else if EntryTouched(frame[i], entry) then Some(i)
    else FirstTouch(frame, entry, i + 1, limit)
  }

  function LastEntryBar(cfg: Config, frame: seq<Candle>, signalIndex: nat): int {
    Min(|frame| - 1, signalIndex + cfg.entryExpiryBars)
  }

  function EntryBar(cfg: ValidConfig, frame: seq<Candle>, signalIndex: nat, s: Signal): (r: Option<nat>)
    ensures r.Some? ==> signalIndex < r.value < |frame| && r.value <= signalIndex + cfg.entryExpiryBars
    ensures r.Some? ==> EntryTouched(frame[r.value], s.entry)
    ensures forall k |
              signalIndex < k < |frame| && k <= signalIndex + cfg.entryExpiryBars && (r.Some? ==> k < r.value) ::
              !EntryTouched(frame[k], s.entry)
  {
    FirstTouch(frame, s.entry, signalIndex + 1, Max(0, LastEntryBar(cfg, frame, signalIndex) + 1))
  }

  function LastBar(cfg: ValidConfig, frame: seq<Candle>, entryIndex: nat): nat
    requires entryIndex < |frame|
  { Min(|frame| - 1, entryIndex + cfg.maxHoldingBars) }

  /** What happens to a position entered at bar `entryIndex`. */
  function Execute(cfg: ValidConfig, frame: seq<Candle>, s: Signal, entryIndex: nat): Outcome
    requires entryIndex < |frame| && s.Risk() != 0.0
  { Walk(cfg, s, frame, entryIndex, LastBar(cfg, frame, entryIndex), Opened(s)) }

  // ---- costs and the reported trade ------------------------------------

  /** Sum of price times allocation over the exits. */
  function Notional(exits: seq<Exit>): real {
    if exits == [] then 0.0
    else Notional(exits[..|exits| - 1]) + exits[|exits| - 1].price * exits[|exits| - 1].allocation
  }

  datatype Costs = Costs(fees: real, slippage: real, funding: real)

  /** Both legs pay fees and slippage on their notional; funding is paid on the entry notional per bar. */
  function CostsR(cfg: Config, entry: real, exits: seq<Exit>, risk: real, bars: int): Costs
    requires risk != 0.0
  {
    Costs(cfg.feeRate * (entry + Notional(exits)) / risk,
          cfg.slippageRate * (entry + Notional(exits)) / risk,
          cfg.fundingRatePerBar * entry * bars as real / risk)
  }

  datatype Trade = Trade(
    signalIndex: nat, entryIndex: Option<nat>, exitIndex: Option<nat>, signal: Signal, status: Status,
    exitPrice: Option<real>, grossR: real, netR: real, costs: Costs, mfeR: real, maeR: real,
    barsWaited: int, barsHeld: int)

  function ExpiredTrade(signalIndex: nat, s: Signal, waited: int): Trade {
    Trade(signalIndex, None, None, s, EXPIRED, None, 0.0, 0.0, Costs(0.0, 0.0, 0.0), 0.0, 0.0, waited, 0)
  }

  function ExecutedTrade(cfg: Config, signalIndex: nat, s: Signal, entryIndex: nat, o: Outcome): Trade
    requires s.Risk() != 0.0
  {
    var held := o.exitIndex - entryIndex + 1;
    var costs := CostsR(cfg, s.entry, o.last.exits, s.Risk(), held);
    Trade(signalIndex, Some(entryIndex), Some(o.exitIndex), s, o.status, Some(o.price), o.last.realized,
          o.last.realized - costs.fees - costs.slippage - costs.funding, costs,
          o.last.mfe, o.last.mae, entryIndex - signalIndex, held)
  }

  /** _simulate as a function; the method Simulate below computes it the way the source does. */
  function Simulated(cfg: ValidConfig, frame: seq<Candle>, signalIndex: nat, s: Signal): Trade
    requires s.Risk() != 0.0
  {
    match EntryBar(cfg, frame, signalIndex, s)
    case None => ExpiredTrade(signalIndex, s, LastEntryBar(cfg, frame, signalIndex) - signalIndex)
    case Some(e) => ExecutedTrade(cfg, signalIndex, s, e, Execute(cfg, frame, s, e))
  }

  method ComputeCosts(cfg: Config, entry: real, exits: seq<Exit>, risk: real, bars: int) returns (c: Costs)
    requires risk != 0.0
    ensures c == CostsR(cfg, entry, exits, risk, bars)
  {
    var feeCost, slipCost := cfg.feeRate * entry, cfg.slippageRate * entry;
    for i := 0 to |exits|
      invariant feeCost == cfg.feeRate * (entry + Notional(exits[..i]))
      invariant slipCost == cfg.slippageRate * (entry + Notional(exits[..i]))
    {
      assert exits[..i + 1][..i] == exits[..i];
      feeCost := feeCost + cfg.feeRate * exits[i].price * exits[i].allocation;
      slipCost := slipCost + cfg.slippageRate * exits[i].price * exits[i].allocation;
    }
    assert exits[..|exits|] == exits;
    var fundingCost := cfg.fundingRatePerBar * entry * bars as real;
    c := Costs(feeCost / risk, slipCost / risk, fundingCost / risk);
  }

  /** hit_targets as the source stores it: the first n flags are set and no other. */
  ghost predicate PrefixClosed(hit: seq<bool>, n: nat) {
    |hit| == 3 && n <= 3 && forall k | 0 <= k < 3 :: hit[k] == (k < n)
  }

  /** next_target_idx, with 3 for None. */
  function FirstUnhit(hit: seq<bool>): nat
    requires |hit| == 3
  { if !hit[0] then 0 else if !hit[1] then 1 else if !hit[2] then 2 else 3 }

  method FindEntry(cfg: ValidConfig, candles: seq<Candle>, signalIndex: nat, s: Signal) returns (e: Option<nat>)
    ensures e == EntryBar(cfg, candles, signalIndex, s)
  {
    var lastEntryBar := Min(|candles| - 1, signalIndex + cfg.entryExpiryBars);
    var idx: nat := signalIndex + 1;
    ghost var limit := Max(0, lastEntryBar + 1);
    while idx < lastEntryBar + 1
      invariant FirstTouch(candles, s.entry, signalIndex + 1, limit) == FirstTouch(candles, s.entry, idx, limit)
    {
      if EntryTouched(candles[idx], s.entry) {
        return Some(idx);
      }
      idx := idx + 1;
    }
    e := None;
  }

  /** The bar loop of _simulate, over its own mutable variables. */
  method RunBars(cfg: ValidConfig, candles: seq<Candle>, s: Signal, entered: nat) returns (o: Outcome)
    requires entered < |candles| && s.Risk() != 0.0
    ensures o == Execute(cfg, candles, s, entered)
  {
    var realized, remaining := 0.0, 1.0;
    var hitTargets := [false, false, false];
    var effectiveStop := s.stop;
    var mfe, mae := 0.0, 0.0;
    var exits: seq<Exit> := [];
    var endIndex: nat := Min(|candles| - 1, entered + cfg.maxHoldingBars);
    ghost var hits: nat := 0;
    var idx: nat := entered;
    while idx < endIndex + 1
      invariant entered <= idx <= endIndex + 1 && endIndex == LastBar(cfg, candles, entered)
      invariant PrefixClosed(hitTargets, hits)
      invariant Execute(cfg, candles, s, entered) ==
                Walk(cfg, s, candles, idx, endIndex,
                     Position(realized, remaining, hits, effectiveStop, mfe, mae, exits))
    {
      var row := candles[idx];
      ghost var before := Position(realized, remaining, hits, effectiveStop, mfe, mae, exits);
      mae := RMax(mae, AdverseR(row, s));
      mfe := RMax(mfe, FavorableR(row, s));
      ghost var p := WithExcursion(row, s, before);
      assert p == Position(realized, remaining, hits, effectiveStop, mfe, mae, exits);
      var stopHit := Hit(row, s.direction, effectiveStop, false);
      var next := FirstUnhit(hitTargets);
      assert next == hits;
      var targetHit := next < 3 && Hit(row, s.direction, s.Target(next), true);
      if stopHit && targetHit && cfg.policy == CONSERVATIVE {
        targetHit := false;
      } else if stopHit && targetHit {
        stopHit := false;
      }
      if stopHit {
        realized := realized + ResultR(s, effectiveStop, remaining);
        exits := exits + [Exit(effectiveStop, remaining)];
        var status := if IsClose(effectiveStop, s.entry) then BREAKEVEN else STOP;
        o := Outcome(Position(realized, 0.0, next, effectiveStop, mfe, mae, exits), status, effectiveStop, idx);
        assert BarStep(cfg, s, row, before) == Closed(o.last, status, effectiveStop);
        return;
      }
      if targetHit {
        var allocation := RMin(cfg.tpAllocations[next], remaining);
        var price := s.Target(next);
        realized := realized + ResultR(s, price, allocation);
        remaining := remaining - allocation;
        exits := exits + [Exit(price, allocation)];
        hitTargets := hitTargets[next := true];
        hits := hits + 1;
        if next == 0 && cfg.moveToBreakeven {
          effectiveStop := s.entry;
        }
        ghost var q := TakeTarget(cfg, s, p);
        assert q == Position(realized, remaining, hits, effectiveStop, mfe, mae, exits);
        if next == 2 || remaining <= CUT_OFF {
          return Outcome(Position(realized, remaining, next + 1, effectiveStop, mfe, mae, exits), TP3, price, idx);
        }
      }
      idx := idx + 1;
    }
    var closePrice := candles[endIndex].close;
    realized := realized + ResultR(s, closePrice, remaining);
    exits := exits + [Exit(closePrice, remaining)];
    var status := if hitTargets[1] then TP2_TIMEOUT else if hitTargets[0] then TP1_TIMEOUT else TIMEOUT;
    var reached := FirstUnhit(hitTargets);
    o := Outcome(Position(realized, 0.0, reached, effectiveStop, mfe, mae, exits), status, closePrice, endIndex);
  }

  method Simulate(cfg: ValidConfig, candles: seq<Candle>, signalIndex: nat, s: Signal) returns (trade: Trade)
    requires s.Risk() != 0.0
    ensures trade == Simulated(cfg, candles, signalIndex, s)
  {
    var found := FindEntry(cfg, candles, signalIndex, s);
    if found.None? {
      var lastEntryBar := Min(|candles| - 1, signalIndex + cfg.entryExpiryBars);
      return ExpiredTrade(signalIndex, s, lastEntryBar - signalIndex);
    }
    var entered := found.value;
    var o := RunBars(cfg, candles, s, entered);
    var barsHeld := o.exitIndex - entered + 1;
    var costs := ComputeCosts(cfg, s.entry, o.last.exits, s.Risk(), barsHeld);
    var net := o.last.realized - costs.fees - costs.slippage - costs.funding;
    trade := Trade(signalIndex, Some(entered), Some(o.exitIndex), s, o.status, Some(o.price), o.last.realized,
                   net, costs, o.last.mfe, o.last.mae, entered - signalIndex, barsHeld);
  }
}
