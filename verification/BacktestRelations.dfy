// Relations between two runs of the simulator: the two intrabar policies,
// the two mirrored directions, and two frames that share a prefix.
module BacktestRelations {
  import opened Common
  import opened Backtest
  import opened BacktestBounds

  // ---- policy dominance ------------------------------------------------

  lemma {:induction false} WalkDominated(
      cautious: ValidConfig, hopeful: ValidConfig, s: Signal, frame: seq<Candle>,
      first: nat, i: nat, end: nat, p: Position)
    requires cautious.policy == CONSERVATIVE && hopeful == cautious.(policy := OPTIMISTIC)
    requires ReachableNonNegative(hopeful) && s.Geometry() && s.Risk() > 0.0 && OrderedFrame(frame)
    requires first <= i <= end + 1 && end < |frame| && end - first <= hopeful.maxHoldingBars
    requires Open(hopeful, s, p) && p.hits <= i - first
    requires !EndsAmbiguous(hopeful, s, frame, i, end, p)
    ensures Walk(cautious, s, frame, i, end, p).last.realized <= Walk(hopeful, s, frame, i, end, p).last.realized
    decreases end + 1 - i
  {
    if i <= end {
      var row := frame[i];
      BarStaysOpen(hopeful, s, row, p);
      if StopTouched(row, s, p) && TargetTouched(row, s, p) {
        Levels(s);
        WalkAboveFloor(hopeful, s, frame, first, i, end, p, UnitR(s, p.effectiveStop));
        ResultIsUnitTimesSize(s, p.effectiveStop, p.remaining);
      } else {
        assert BarStep(cautious, s, row, p) == BarStep(hopeful, s, row, p);
        match BarStep(hopeful, s, row, p)
        case Closed(_, _, _) =>
        case Continue(q) => WalkDominated(cautious, hopeful, s, frame, first, i + 1, end, q);
      }
    }
  }

  /** The conservative result never beats the optimistic one, unless the optimistic trade ends ambiguously. */
  lemma PolicyDominance(cfg: ValidConfig, frame: seq<Candle>, i: nat, s: Signal)
    requires ReachableNonNegative(cfg) && OrderedFrame(frame) && s.Geometry() && s.Risk() > 0.0
    requires var e := EntryBar(cfg, frame, i, s);
      e.Some? ==> !EndsAmbiguous(cfg.(policy := OPTIMISTIC), s, frame, e.value, LastBar(cfg, frame, e.value), Opened(s))
    ensures Simulated(cfg.(policy := CONSERVATIVE), frame, i, s).grossR
            <= Simulated(cfg.(policy := OPTIMISTIC), frame, i, s).grossR
  {
    var cautious: ValidConfig := cfg.(policy := CONSERVATIVE);
    var hopeful: ValidConfig := cfg.(policy := OPTIMISTIC);
    var e := EntryBar(cfg, frame, i, s);
    assert EntryBar(cautious, frame, i, s) == e == EntryBar(hopeful, frame, i, s);
    if e.Some? {
      var end := LastBar(cfg, frame, e.value);
      assert end == LastBar(cautious, frame, e.value) == LastBar(hopeful, frame, e.value);
      WalkDominated(cautious, hopeful, s, frame, e.value, e.value, end, Opened(s));
    }
  }

  // ---- mirror symmetry -------------------------------------------------

  function Flip(d: Direction): Direction { if d == LONG then SHORT else LONG }

  /** Prices reflected about c / 2; highs and lows trade places. */
  function MirrorCandle(c: real, row: Candle): Candle { Candle(c - row.high, c - row.low, c - row.close) }

  function MirrorFrame(c: real, frame: seq<Candle>): seq<Candle> {
    seq(|frame|, i requires 0 <= i < |frame| => MirrorCandle(c, frame[i]))
  }

  function MirrorSignal(c: real, s: Signal): Signal {
    s.(direction := Flip(s.direction), entry := c - s.entry, stop := c - s.stop,
       tp1 := c - s.tp1, tp2 := c - s.tp2, tp3 := c - s.tp3)
  }

  function MirrorExits(c: real, exits: seq<Exit>): seq<Exit> {
    seq(|exits|, i requires 0 <= i < |exits| => Exit(c - exits[i].price, exits[i].allocation))
  }

  function MirrorPosition(c: real, p: Position): Position {
    p.(effectiveStop := c - p.effectiveStop, exits := MirrorExits(c, p.exits))
  }

  /** The two status labels that IsClose tells apart depend on the price level, not on the trade. */
  predicate SameStatus(a: Status, b: Status) { a == b || (a in {STOP, BREAKEVEN} && b in {STOP, BREAKEVEN}) }

  ghost predicate MirrorOutcome(c: real, o: Outcome, m: Outcome) {
    && m.last == MirrorPosition(c, o.last)
    && SameStatus(o.status, m.status) && m.price == c - o.price && m.exitIndex == o.exitIndex
  }

  lemma SameUnit(a: Signal, b: Signal, p: real, q: real)
    requires a.Risk() == b.Risk() != 0.0 && a.Pnl(p) == b.Pnl(q)
    ensures UnitR(a, p) == UnitR(b, q)
  {
    hide Signal.Risk, Signal.Pnl;
  }

  lemma ResultMirrors(c: real, s: Signal, price: real, w: real)
    requires s.Risk() != 0.0
    ensures MirrorSignal(c, s).Risk() == s.Risk()
    ensures ResultR(MirrorSignal(c, s), c - price, w) == ResultR(s, price, w)
  {
    var m := MirrorSignal(c, s);
    assert m.Pnl(c - price) == s.Pnl(price) && m.Risk() == s.Risk();
    hide *;
    assert w * m.Pnl(c - price) == w * s.Pnl(price);
    ResultIsUnitTimesSize(m, c - price, w);
    ResultIsUnitTimesSize(s, price, w);
    SameUnit(m, s, c - price, price);
  }

  lemma TakeMirrors(c: real, s: Signal, p: Position, price: real, w: real)
    requires s.Risk() != 0.0
    ensures MirrorSignal(c, s).Risk() == s.Risk()
    ensures Take(MirrorSignal(c, s), MirrorPosition(c, p), c - price, w) == MirrorPosition(c, Take(s, p, price, w))
  {
    ResultMirrors(c, s, price, w);
    hide ResultR, Signal.Risk, Signal.Pnl;
    assert MirrorExits(c, p.exits + [Exit(price, w)]) == MirrorExits(c, p.exits) + [Exit(c - price, w)];
  }

  lemma BarMirrors(c: real, cfg: Config, s: Signal, row: Candle, p: Position)
    requires |cfg.tpAllocations| == 3 && s.Risk() != 0.0
    ensures MirrorSignal(c, s).Risk() == s.Risk()
    ensures match (BarStep(cfg, s, row, p),
                   BarStep(cfg, MirrorSignal(c, s), MirrorCandle(c, row), MirrorPosition(c, p)))
            case (Continue(q), Continue(m)) => m == MirrorPosition(c, q)
            case (Closed(q, st, price), Closed(m, mst, mprice)) =>
              m == MirrorPosition(c, q) && SameStatus(st, mst) && mprice == c - price
            case _ => false
  {
    var x := WithExcursion(row, s, p);
    var ms, mrow := MirrorSignal(c, s), MirrorCandle(c, row);
    assert WithExcursion(mrow, ms, MirrorPosition(c, p)) == MirrorPosition(c, x);
    TakeMirrors(c, s, x, x.effectiveStop, x.remaining);
    if x.hits < 3 {
      assert ms.Target(x.hits) == c - s.Target(x.hits);
      TakeMirrors(c, s, x, s.Target(x.hits), Allocation(cfg, x));
      assert TakeTarget(cfg, ms, MirrorPosition(c, x)) == MirrorPosition(c, TakeTarget(cfg, s, x));
    }
  }

  lemma {:induction false} WalkMirrors(
      c: real, cfg: Config, s: Signal, frame: seq<Candle>, i: nat, end: nat, p: Position)
    requires |cfg.tpAllocations| == 3 && s.Risk() != 0.0 && i <= end + 1 && end < |frame|
    ensures MirrorSignal(c, s).Risk() == s.Risk()
    ensures MirrorOutcome(c, Walk(cfg, s, frame, i, end, p),
                          Walk(cfg, MirrorSignal(c, s), MirrorFrame(c, frame), i, end, MirrorPosition(c, p)))
    decreases end + 1 - i
  {
    if i > end {
      TakeMirrors(c, s, p, frame[end].close, p.remaining);
    } else {
      BarMirrors(c, cfg, s, frame[i], p);
      match BarStep(cfg, s, frame[i], p)
      case Closed(_, _, _) =>
      case Continue(q) => WalkMirrors(c, cfg, s, frame, i + 1, end, q);
    }
  }

  lemma {:induction false} EntryMirrors(c: real, frame: seq<Candle>, entry: real, i: nat, limit: nat)
    requires limit <= |frame|
    ensures FirstTouch(MirrorFrame(c, frame), c - entry, i, limit) == FirstTouch(frame, entry, i, limit)
    decreases limit - i
  {
    if i < limit {
      EntryMirrors(c, frame, entry, i + 1, limit);
    }
  }

  /** Reflected executions exit on the same bar, in the same allocations, at the reflected prices. */
  lemma ExecutionMirrors(c: real, cfg: ValidConfig, frame: seq<Candle>, s: Signal, e: nat)
    requires s.Risk() != 0.0 && e < |frame|
    ensures MirrorSignal(c, s).Risk() != 0.0
    ensures MirrorOutcome(c, Execute(cfg, frame, s, e), Execute(cfg, MirrorFrame(c, frame), MirrorSignal(c, s), e))
  {
    assert MirrorPosition(c, Opened(s)) == Opened(MirrorSignal(c, s));
    WalkMirrors(c, cfg, s, frame, e, LastBar(cfg, frame, e), Opened(s));
  }

  /** A short on the reflected frame is the same trade: same bars, same allocations, same results and excursions. */
  lemma MirrorSymmetry(c: real, cfg: ValidConfig, frame: seq<Candle>, i: nat, s: Signal)
    requires s.Risk() != 0.0
    ensures MirrorSignal(c, s).Risk() != 0.0 && (MirrorSignal(c, s).Geometry() <==> s.Geometry())
    ensures var t, m := Simulated(cfg, frame, i, s), Simulated(cfg, MirrorFrame(c, frame), i, MirrorSignal(c, s));
      && m.entryIndex == t.entryIndex && m.exitIndex == t.exitIndex && SameStatus(t.status, m.status)
      && m.grossR == t.grossR && m.mfeR == t.mfeR && m.maeR == t.maeR
      && m.barsWaited == t.barsWaited && m.barsHeld == t.barsHeld
  {
    hide CostsR, Execute, EntryTouched, BarStep, Walk, FirstTouch, AdverseR, FavorableR, ResultR;
    EntryMirrors(c, frame, s.entry, i + 1, Max(0, LastEntryBar(cfg, frame, i) + 1));
    var e := EntryBar(cfg, frame, i, s);
    if e.Some? {
      ExecutionMirrors(c, cfg, frame, s, e.value);
    }
  }

  // ---- no look-ahead in one trade --------------------------------------

  lemma {:induction false} TouchIsCausal(f: seq<Candle>, g: seq<Candle>, entry: real, i: nat, limit: nat)
    requires limit <= |f| && limit <= |g| && f[..limit] == g[..limit]
    ensures FirstTouch(f, entry, i, limit) == FirstTouch(g, entry, i, limit)
    decreases limit - i
  {
    if i < limit {
      assert f[..limit][i] == g[..limit][i];
      TouchIsCausal(f, g, entry, i + 1, limit);
    }
  }

  lemma {:induction false} WalkIsCausal(
      cfg: Config, s: Signal, f: seq<Candle>, g: seq<Candle>, i: nat, end: nat, p: Position)
    requires |cfg.tpAllocations| == 3 && s.Risk() != 0.0
    requires i <= end + 1 && end < |f| && end < |g| && f[..end + 1] == g[..end + 1]
    ensures Walk(cfg, s, f, i, end, p) == Walk(cfg, s, g, i, end, p)
    decreases end + 1 - i
  {
    assert f[end] == f[..end + 1][end] == g[end];
    if i <= end {
      assert f[i] == f[..end + 1][i] == g[i];
      match BarStep(cfg, s, f[i], p)
      case Closed(_, _, _) =>
      case Continue(q) => WalkIsCausal(cfg, s, f, g, i + 1, end, q);
    }
  }

  /** A trade depends on no bar after its signal, entry expiry and holding period. */
  lemma TradeIsCausal(cfg: ValidConfig, f: seq<Candle>, g: seq<Candle>, n: nat, i: nat, s: Signal)
    requires s.Risk() != 0.0
    requires n <= |f| && n <= |g| && f[..n] == g[..n]
    requires i + cfg.entryExpiryBars + cfg.maxHoldingBars < n
    ensures Simulated(cfg, f, i, s) == Simulated(cfg, g, i, s)
  {
    hide CostsR, BarStep, CloseOnTimeout, EntryTouched, Walk, FirstTouch, ExecutedTrade;
    var limit := i + cfg.entryExpiryBars + 1;
    assert f[..limit] == f[..n][..limit] == g[..limit];
    TouchIsCausal(f, g, s.entry, i + 1, limit);
    var e := EntryBar(cfg, f, i, s);
    if e.Some? {
      var end: nat := e.value + cfg.maxHoldingBars;
      assert f[..end + 1] == f[..n][..end + 1] == g[..end + 1];
      WalkIsCausal(cfg, s, f, g, e.value, end, Opened(s));
    }
  }
}
