// What every simulated trade keeps: allocation conservation, and the exact
// condition on a configuration under which results stay between the recorded
// excursions and above the initial risk.
module BacktestBounds {
  import opened Common
  import opened Backtest

  function Exited(exits: seq<Exit>): real {
    if exits == [] then 0.0 else Exited(exits[..|exits| - 1]) + exits[|exits| - 1].allocation
  }

  function TotalR(s: Signal, exits: seq<Exit>): real
    requires s.Risk() != 0.0
  {
    if exits == [] then 0.0
    else TotalR(s, exits[..|exits| - 1]) + ResultR(s, exits[|exits| - 1].price, exits[|exits| - 1].allocation)
  }

  function Planned(cfg: ValidConfig, n: nat): real
    requires n <= 3
  { if n == 0 then 0.0 else Planned(cfg, n - 1) + cfg.tpAllocations[n - 1] }

  /** The ledger of exits agrees with the running totals. */
  ghost predicate Booked(s: Signal, p: Position)
    requires s.Risk() != 0.0
  {
    && Exited(p.exits) + p.remaining == 1.0
    && TotalR(s, p.exits) == p.realized
  }

  /** A position that is still open between two bars: no allocation was cut short and some size is left. */
  ghost predicate Open(cfg: ValidConfig, s: Signal, p: Position) {
    && p.hits <= 2
    && p.remaining == 1.0 - Planned(cfg, p.hits)
    && (forall k: nat | k <= p.hits :: 1.0 - Planned(cfg, k) > CUT_OFF)
    && p.effectiveStop == (if p.hits >= 1 && cfg.moveToBreakeven then s.entry else s.stop)
  }

  /** The part of the position that is never exited: none, except a residue when TP3 closes the trade. */
  ghost predicate Residue(cfg: ValidConfig, o: Outcome) {
    && o.last.hits <= 3
    && (o.status == TP3 ==> 0.0 <= o.last.remaining <= RMax(CUT_OFF, 1.0 - Planned(cfg, 3)))
    && (o.status != TP3 ==> o.last.remaining == 0.0)
  }

  /** The first exits are the targets in order; at most one more closes the trade. */
  ghost predicate TargetsInOrder(s: Signal, p: Position) {
    && p.hits <= 3 && |p.exits| >= p.hits
    && forall k: nat | k < p.hits :: p.exits[k].price == s.Target(k)
  }

  lemma TakeBooks(s: Signal, p: Position, price: real, w: real)
    requires s.Risk() != 0.0 && Booked(s, p)
    ensures Booked(s, Take(s, p, price, w))
  {
    assert (p.exits + [Exit(price, w)])[..|p.exits|] == p.exits;
  }

  lemma {:induction false} WalkBooks(cfg: Config, s: Signal, frame: seq<Candle>, i: nat, end: nat, p: Position)
    requires |cfg.tpAllocations| == 3 && s.Risk() != 0.0 && i <= end + 1 && end < |frame|
    requires Booked(s, p)
    ensures Booked(s, Walk(cfg, s, frame, i, end, p).last)
    decreases end + 1 - i
  {
    if i > end {
      TakeBooks(s, p, frame[end].close, p.remaining);
    } else {
      var x := WithExcursion(frame[i], s, p);
      TakeBooks(s, x, x.effectiveStop, x.remaining);
      if x.hits < 3 {
        TakeBooks(s, x, s.Target(x.hits), Allocation(cfg, x));
      }
      match BarStep(cfg, s, frame[i], p)
      case Closed(_, _, _) =>
      case Continue(q) => WalkBooks(cfg, s, frame, i + 1, end, q);
    }
  }

  lemma BarStaysOpen(cfg: ValidConfig, s: Signal, row: Candle, p: Position)
    requires s.Risk() != 0.0 && Open(cfg, s, p)
    ensures match BarStep(cfg, s, row, p)
            case Continue(q) => Open(cfg, s, q) && q.hits <= p.hits + 1
            case Closed(q, status, price) => Residue(cfg, Outcome(q, status, price, 0))
  {
    assert Planned(cfg, p.hits + 1) == Planned(cfg, p.hits) + cfg.tpAllocations[p.hits];
  }

  lemma {:induction false} WalkResidue(cfg: ValidConfig, s: Signal, frame: seq<Candle>, i: nat, end: nat, p: Position)
    requires s.Risk() != 0.0 && i <= end + 1 && end < |frame| && Open(cfg, s, p)
    ensures Residue(cfg, Walk(cfg, s, frame, i, end, p))
    decreases end + 1 - i
  {
    if i <= end {
      BarStaysOpen(cfg, s, frame[i], p);
      match BarStep(cfg, s, frame[i], p)
      case Closed(_, _, _) =>
      case Continue(q) => WalkResidue(cfg, s, frame, i + 1, end, q);
    }
  }

  lemma {:induction false} WalkTakesTargetsInOrder(
      cfg: Config, s: Signal, frame: seq<Candle>, i: nat, end: nat, p: Position)
    requires |cfg.tpAllocations| == 3 && s.Risk() != 0.0 && i <= end + 1 && end < |frame|
    requires TargetsInOrder(s, p) && |p.exits| == p.hits
    ensures var o := Walk(cfg, s, frame, i, end, p);
      && TargetsInOrder(s, o.last)
      && |o.last.exits| == o.last.hits + (if o.status == TP3 then 0 else 1)
      && |o.last.exits| > 0 && o.last.exits[|o.last.exits| - 1].price == o.price
    decreases end + 1 - i
  {
    if i <= end {
      match BarStep(cfg, s, frame[i], p)
      case Closed(_, _, _) =>
      case Continue(q) => WalkTakesTargetsInOrder(cfg, s, frame, i + 1, end, q);
    }
  }

  /**
   * Allocation conservation for every frame and signal: what was exited and what is left over make one, the
   * reported result is the sum of the exits' results, and the targets were exited in order.
   */
  lemma TradeConserves(cfg: ValidConfig, frame: seq<Candle>, s: Signal, entryIndex: nat)
    requires entryIndex < |frame| && s.Risk() != 0.0
    ensures var o := Execute(cfg, frame, s, entryIndex);
      && Exited(o.last.exits) + o.last.remaining == 1.0
      && TotalR(s, o.last.exits) == o.last.realized
      && Residue(cfg, o)
      && TargetsInOrder(s, o.last)
      && |o.last.exits| == o.last.hits + (if o.status == TP3 then 0 else 1)
      && |o.last.exits| > 0 && o.last.exits[|o.last.exits| - 1].price == o.price
  {
    var end := LastBar(cfg, frame, entryIndex);
    WalkBooks(cfg, s, frame, entryIndex, end, Opened(s));
    WalkResidue(cfg, s, frame, entryIndex, end, Opened(s));
    WalkTakesTargetsInOrder(cfg, s, frame, entryIndex, end, Opened(s));
  }

  // ---- unit results ----------------------------------------------------

  function UnitR(s: Signal, price: real): real
    requires s.Risk() != 0.0
  { s.Pnl(price) / s.Risk() }

  lemma QuotientIs(a: real, b: real, q: real)
    requires b != 0.0 && q * b == a
    ensures a / b == q
  {
    assert (a / b - q) * b == 0.0;
  }

  lemma ScaledQuotient(w: real, a: real, b: real)
    requires b != 0.0
    ensures w * a / b == w * (a / b)
  {
    var q := a / b;
    assert q * b == a;
    assert (w * q) * b == w * a by {
      assert (w * q) * b == w * (q * b);
    }
    QuotientIs(w * a, b, w * q);
  }

  lemma ResultIsUnitTimesSize(s: Signal, price: real, w: real)
    requires s.Risk() != 0.0
    ensures ResultR(s, price, w) == w * UnitR(s, price)
  {
    hide Signal.Pnl, Signal.Risk;
    ScaledQuotient(w, s.Pnl(price), s.Risk());
  }

  lemma DivMonotone(a: real, b: real, r: real)
    requires r > 0.0 && a <= b
    ensures a / r <= b / r
  {
    assert b / r - a / r == (b - a) / r;
  }

  lemma DivIs(a: real, r: real, q: real)
    requires r > 0.0 && q * r == a
    ensures a / r == q
  {
  }

  /** The levels a geometrically valid signal trades at, in units of risk. */
  lemma Levels(s: Signal)
    requires s.Geometry()
    ensures s.Risk() > 0.0
    ensures UnitR(s, s.stop) == -1.0 && UnitR(s, s.entry) == 0.0
    ensures forall n: nat | n < 3 :: UnitR(s, s.Target(n)) > 0.0
  {
    DivIs(s.Pnl(s.stop), s.Risk(), -1.0);
    DivIs(s.Pnl(s.entry), s.Risk(), 0.0);
    forall n: nat | n < 3 ensures UnitR(s, s.Target(n)) > 0.0 {
      assert s.Pnl(s.Target(n)) > 0.0;
    }
  }

  lemma ExcursionsNonNegative(s: Signal, row: Candle)
    requires s.Risk() > 0.0
    ensures AdverseR(row, s) >= 0.0 && FavorableR(row, s) >= 0.0
  {
    DivMonotone(0.0, Adverse(row, s), s.Risk());
    DivMonotone(0.0, Favorable(row, s), s.Risk());
  }

  /** A touched stop was reached inside the bar, so the adverse excursion covers it. */
  lemma StopInsideBar(s: Signal, row: Candle, price: real)
    requires s.Risk() > 0.0 && Hit(row, s.direction, price, false)
    ensures -AdverseR(row, s) <= UnitR(s, price)
  {
    var a, r := Adverse(row, s), s.Risk();
    DivIs(-a, r, -(a / r));
    DivMonotone(-a, s.Pnl(price), r);
  }

  /** A touched target was reached inside the bar, so the favourable excursion covers it. */
  lemma TargetInsideBar(s: Signal, row: Candle, price: real)
    requires s.Risk() > 0.0 && Hit(row, s.direction, price, true)
    ensures UnitR(s, price) <= FavorableR(row, s)
  {
    DivMonotone(s.Pnl(price), Favorable(row, s), s.Risk());
  }

  lemma CloseInsideBar(s: Signal, row: Candle)
    requires s.Risk() > 0.0 && row.Ordered()
    ensures -AdverseR(row, s) <= UnitR(s, row.close) <= FavorableR(row, s)
  {
    StopInsideBar(s, row, row.close);
    TargetInsideBar(s, row, row.close);
  }

  // ---- which allocations a trade can reach -----------------------------

  /**
   * No target that a trade can reach has a negative allocation. The second target is out of reach when the
   * first closes the position; the third also when a trade lasts fewer than three bars.
   */
  predicate ReachableNonNegative(cfg: ValidConfig) {
    var a := cfg.tpAllocations;
    && a[0] >= 0.0
    && (a[0] >= 1.0 - CUT_OFF
        || (a[1] >= 0.0 && (a[0] + a[1] >= 1.0 - CUT_OFF || cfg.maxHoldingBars < 2 || a[2] >= 0.0)))
  }

  lemma ReachedAllocation(cfg: ValidConfig, s: Signal, p: Position)
    requires ReachableNonNegative(cfg) && s.Risk() != 0.0 && Open(cfg, s, p)
    requires p.hits <= cfg.maxHoldingBars
    ensures 0.0 <= Allocation(cfg, p) <= p.remaining
  {
    assert 1.0 - Planned(cfg, p.hits) > CUT_OFF;
    assert p.hits >= 1 ==> 1.0 - Planned(cfg, 1) > CUT_OFF;
  }

  // ---- excursions bound the result -------------------------------------

  ghost predicate Within(p: Position) {
    && 0.0 <= p.mae && 0.0 <= p.mfe && 0.0 <= p.remaining <= 1.0
    && (1.0 - p.remaining) * -p.mae <= p.realized <= (1.0 - p.remaining) * p.mfe
  }

  lemma ScaleMonotone(w: real, a: real, b: real)
    requires 0.0 <= w && a <= b
    ensures w * a <= w * b
  {
  }

  lemma ExcursionWidens(s: Signal, row: Candle, p: Position)
    requires s.Risk() != 0.0 && Within(p)
    ensures Within(WithExcursion(row, s, p))
  {
    var x := WithExcursion(row, s, p);
    ScaleMonotone(1.0 - p.remaining, -x.mae, -p.mae);
    ScaleMonotone(1.0 - p.remaining, p.mfe, x.mfe);
  }

  /** Closing a part `w` at a unit result between two levels keeps the realized result between them. */
  lemma WeightedBracket(closed: real, w: real, u: real, low: real, high: real, realized: real)
    requires 0.0 <= w && low <= u <= high && closed * low <= realized <= closed * high
    ensures (closed + w) * low <= realized + w * u <= (closed + w) * high
  {
    ScaleMonotone(w, low, u);
    ScaleMonotone(w, u, high);
    assert (closed + w) * low == closed * low + w * low;
    assert (closed + w) * high == closed * high + w * high;
  }

  lemma TakeStaysWithin(s: Signal, p: Position, price: real, w: real)
    requires s.Risk() != 0.0 && Within(p) && 0.0 <= w <= p.remaining
    requires -p.mae <= UnitR(s, price) <= p.mfe
    ensures Within(Take(s, p, price, w))
  {
    hide UnitR, ResultR;
    ResultIsUnitTimesSize(s, price, w);
    WeightedBracket(1.0 - p.remaining, w, UnitR(s, price), -p.mae, p.mfe, p.realized);
    assert 1.0 - (p.remaining - w) == 1.0 - p.remaining + w;
  }

  /** The excursions of a bar are folded into the position before the bar is resolved. */
  lemma ExcursionCovers(s: Signal, row: Candle, p: Position)
    requires s.Risk() > 0.0
    ensures var x := WithExcursion(row, s, p);
      x.mae >= AdverseR(row, s) >= 0.0 && x.mfe >= FavorableR(row, s) >= 0.0
  {
    ExcursionsNonNegative(s, row);
  }

  lemma StopStaysWithin(s: Signal, row: Candle, x: Position)
    requires s.Geometry() && s.Risk() > 0.0 && Within(x) && x.effectiveStop in {s.stop, s.entry}
    requires x.mae >= AdverseR(row, s) && StopTouched(row, s, x)
    ensures Within(Take(s, x, x.effectiveStop, x.remaining))
  {
    Levels(s);
    StopInsideBar(s, row, x.effectiveStop);
    TakeStaysWithin(s, x, x.effectiveStop, x.remaining);
  }

  lemma TargetStaysWithin(cfg: ValidConfig, s: Signal, row: Candle, x: Position)
    requires s.Geometry() && s.Risk() > 0.0 && Within(x)
    requires x.mfe >= FavorableR(row, s) && TargetTouched(row, s, x)
    requires 0.0 <= Allocation(cfg, x) <= x.remaining
    ensures Within(TakeTarget(cfg, s, x))
  {
    Levels(s);
    TargetInsideBar(s, row, s.Target(x.hits));
    TakeStaysWithin(s, x, s.Target(x.hits), Allocation(cfg, x));
  }

  lemma BarStaysWithin(cfg: ValidConfig, s: Signal, row: Candle, p: Position)
    requires ReachableNonNegative(cfg) && s.Geometry() && s.Risk() > 0.0 && row.Ordered()
    requires Open(cfg, s, p) && Within(p) && p.hits <= cfg.maxHoldingBars
    ensures match BarStep(cfg, s, row, p)
            case Continue(q) => Within(q) && -q.mae <= UnitR(s, row.close) <= q.mfe
            case Closed(q, _, _) => Within(q)
  {
    hide Within, UnitR, ResultR, AdverseR, FavorableR;
    var x := WithExcursion(row, s, p);
    ExcursionCovers(s, row, p);
    CloseInsideBar(s, row);
    ExcursionWidens(s, row, p);
    ReachedAllocation(cfg, s, p);
    if StopTouched(row, s, x) {
      StopStaysWithin(s, row, x);
    }
    if TargetTouched(row, s, x) {
      TargetStaysWithin(cfg, s, row, x);
    }
  }

  lemma {:induction false} WalkStaysWithin(
      cfg: ValidConfig, s: Signal, frame: seq<Candle>, first: nat, i: nat, end: nat, p: Position)
    requires ReachableNonNegative(cfg) && s.Geometry() && s.Risk() > 0.0 && OrderedFrame(frame)
    requires first <= i <= end + 1 && end < |frame| && end - first <= cfg.maxHoldingBars
    requires Open(cfg, s, p) && Within(p) && p.hits <= i - first
    requires i > end ==> -p.mae <= UnitR(s, frame[end].close) <= p.mfe
    ensures Within(Walk(cfg, s, frame, i, end, p).last)
    decreases end + 1 - i
  {
    if i > end {
      TakeStaysWithin(s, p, frame[end].close, p.remaining);
    } else {
      BarStaysOpen(cfg, s, frame[i], p);
      BarStaysWithin(cfg, s, frame[i], p);
      match BarStep(cfg, s, frame[i], p)
      case Closed(_, _, _) =>
      case Continue(q) => WalkStaysWithin(cfg, s, frame, first, i + 1, end, q);
    }
  }

  lemma WithinIsInside(p: Position)
    requires Within(p)
    ensures -p.mae <= p.realized <= p.mfe
  {
    ScaleMonotone(p.mae, 1.0 - p.remaining, 1.0);
    ScaleMonotone(p.mfe, 1.0 - p.remaining, 1.0);
    assert (1.0 - p.remaining) * p.mae == p.mae * (1.0 - p.remaining) <= p.mae;
    assert (1.0 - p.remaining) * p.mfe == p.mfe * (1.0 - p.remaining) <= p.mfe;
  }

  ghost predicate InsideExcursions(t: Trade) { -t.maeR <= t.grossR <= t.mfeR }

  lemma TradeInsideExcursions(cfg: ValidConfig, frame: seq<Candle>, i: nat, s: Signal)
    requires ReachableNonNegative(cfg) && OrderedFrame(frame) && s.Geometry()
    ensures s.Risk() > 0.0 && InsideExcursions(Simulated(cfg, frame, i, s))
  {
    Levels(s);
    var e := EntryBar(cfg, frame, i, s);
    if e.Some? {
      WalkStaysWithin(cfg, s, frame, e.value, e.value, LastBar(cfg, frame, e.value), Opened(s));
      WithinIsInside(Execute(cfg, frame, s, e.value).last);
    }
    hide Within, Walk, CostsR;
  }

  // ---- the loss floor --------------------------------------------------

  /** The walk runs out of bars on a bar that touched both the stop and the next target. */
  ghost predicate EndsAmbiguous(cfg: Config, s: Signal, frame: seq<Candle>, i: nat, end: nat, p: Position)
    requires |cfg.tpAllocations| == 3 && s.Risk() != 0.0
    requires i <= end + 1 && end < |frame|
    decreases end + 1 - i
  {
    i <= end &&
    match BarStep(cfg, s, frame[i], p)
    case Closed(_, _, _) => false
    case Continue(q) =>
      if i == end then StopTouched(frame[i], s, p) && TargetTouched(frame[i], s, p)
      else EndsAmbiguous(cfg, s, frame, i + 1, end, q)
  }

  /** What the position is worth if everything still open is closed at `floor`. */
  function Worth(p: Position, floor: real): real { p.realized + p.remaining * floor }

  lemma TakeAboveFloor(s: Signal, p: Position, price: real, w: real, floor: real)
    requires s.Risk() != 0.0 && 0.0 <= w && floor <= UnitR(s, price)
    ensures Worth(Take(s, p, price, w), floor) >= Worth(p, floor)
  {
    ResultIsUnitTimesSize(s, price, w);
    ScaleMonotone(w, floor, UnitR(s, price));
    assert (p.remaining - w) * floor == p.remaining * floor - w * floor;
  }

  lemma WorthIgnoresPlan(p: Position, q: Position, floor: real)
    requires p.realized == q.realized && p.remaining == q.remaining
    ensures Worth(p, floor) == Worth(q, floor)
  {
  }

  /** A stop that was not touched by a bar lies below everything the bar traded, the close included. */
  lemma UntouchedStop(s: Signal, row: Candle, p: Position)
    requires s.Risk() > 0.0 && row.Ordered() && !StopTouched(row, s, p)
    ensures UnitR(s, p.effectiveStop) <= UnitR(s, row.close)
  {
    DivMonotone(s.Pnl(p.effectiveStop), s.Pnl(row.close), s.Risk());
  }

  lemma BarAboveFloor(cfg: ValidConfig, s: Signal, row: Candle, p: Position, floor: real)
    requires ReachableNonNegative(cfg) && s.Geometry() && s.Risk() > 0.0 && row.Ordered()
    requires Open(cfg, s, p) && p.hits <= cfg.maxHoldingBars
    requires floor <= UnitR(s, p.effectiveStop) && floor <= 0.0
    ensures match BarStep(cfg, s, row, p)
            case Continue(q) => Worth(q, floor) >= Worth(p, floor) && floor <= UnitR(s, q.effectiveStop)
            case Closed(q, _, _) => Worth(q, floor) >= Worth(p, floor)
  {
    Levels(s);
    ReachedAllocation(cfg, s, p);
    var x := WithExcursion(row, s, p);
    TakeAboveFloor(s, x, x.effectiveStop, x.remaining, floor);
    TakeAboveFloor(s, x, s.Target(x.hits), Allocation(cfg, x), floor);
    WorthIgnoresPlan(x, p, floor);
    WorthIgnoresPlan(TakeTarget(cfg, s, x), Take(s, x, s.Target(x.hits), Allocation(cfg, x)), floor);
    hide Worth, UnitR, ResultR, AdverseR, FavorableR;
  }

  lemma CloseAboveFloor(s: Signal, p: Position, price: real, floor: real)
    requires s.Risk() != 0.0 && 0.0 <= p.remaining && floor <= UnitR(s, price)
    ensures Take(s, p, price, p.remaining).realized >= Worth(p, floor)
  {
    hide UnitR, ResultR;
    TakeAboveFloor(s, p, price, p.remaining, floor);
  }

  lemma RealizedAboveWorth(p: Position, floor: real)
    requires 0.0 <= p.remaining && floor <= 0.0
    ensures p.realized >= Worth(p, floor)
  {
    ScaleMonotone(p.remaining, floor, 0.0);
  }

  /** From any open position, nothing worse than its stop can still happen unless the walk ends ambiguously. */
  lemma {:induction false} WalkAboveFloor(
      cfg: ValidConfig, s: Signal, frame: seq<Candle>, first: nat, i: nat, end: nat, p: Position, floor: real)
    requires ReachableNonNegative(cfg) && s.Geometry() && s.Risk() > 0.0 && OrderedFrame(frame)
    requires first <= i <= end + 1 && end < |frame| && end - first <= cfg.maxHoldingBars
    requires Open(cfg, s, p) && p.hits <= i - first
    requires floor <= UnitR(s, p.effectiveStop) && floor <= 0.0
    requires i > end ==> floor <= UnitR(s, frame[end].close)
    requires !EndsAmbiguous(cfg, s, frame, i, end, p)
    ensures Walk(cfg, s, frame, i, end, p).last.realized >= Worth(p, floor)
    decreases end + 1 - i
  {
    hide Worth, UnitR, ResultR, AdverseR, FavorableR;
    if i > end {
      CloseAboveFloor(s, p, frame[end].close, floor);
    } else {
      var row := frame[i];
      BarStaysOpen(cfg, s, row, p);
      BarAboveFloor(cfg, s, row, p, floor);
      match BarStep(cfg, s, row, p)
      case Closed(q, _, _) => RealizedAboveWorth(q, floor);
      case Continue(q) =>
        if i == end {
          UntouchedStop(s, row, p);
        }
        WalkAboveFloor(cfg, s, frame, first, i + 1, end, q, floor);
    }
  }

  lemma {:induction false} ConservativeNeverAmbiguous(
      cfg: ValidConfig, s: Signal, frame: seq<Candle>, i: nat, end: nat, p: Position)
    requires s.Risk() != 0.0 && i <= end + 1 && end < |frame|
    requires cfg.policy == CONSERVATIVE
    ensures !EndsAmbiguous(cfg, s, frame, i, end, p)
    decreases end + 1 - i
  {
    if i < end && BarStep(cfg, s, frame[i], p).Continue? {
      ConservativeNeverAmbiguous(cfg, s, frame, i + 1, end, BarStep(cfg, s, frame[i], p).next);
    }
  }

  /** Without an ambiguous end no trade loses more than its risk. */
  lemma TradeAboveFloor(cfg: ValidConfig, frame: seq<Candle>, i: nat, s: Signal)
    requires ReachableNonNegative(cfg) && OrderedFrame(frame) && s.Geometry() && s.Risk() > 0.0
    requires var e := EntryBar(cfg, frame, i, s);
      e.Some? ==> !EndsAmbiguous(cfg, s, frame, e.value, LastBar(cfg, frame, e.value), Opened(s))
    ensures Simulated(cfg, frame, i, s).grossR >= -1.0
  {
    Levels(s);
    var e := EntryBar(cfg, frame, i, s);
    if e.Some? {
      WalkAboveFloor(cfg, s, frame, e.value, e.value, LastBar(cfg, frame, e.value), Opened(s), -1.0);
    }
  }
}
