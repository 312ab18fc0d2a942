// Folds over trade results: _metrics and grouped() of core/backtest_engine.py,
// the quality fold and _percentile of services/ai_evaluation.py.
module Performance {
  import opened Common
  import opened Folds
  import opened Ordering
  import opened Permutations
  import opened Backtest

  function Identity(): real -> real { (x: real) => x }

  // ---- equity and drawdown ---------------------------------------------

  /** The cumulative sums, with the starting zero in front. */
  function Curve(values: seq<real>): (r: seq<real>)
    ensures |r| == |values| + 1
  {
    seq(|values| + 1, k requires 0 <= k <= |values| => Total(values[..k], Identity()))
  }

  function Highest(xs: seq<real>): (r: real)
    requires xs != []
    ensures r in xs && forall x | x in xs :: x <= r
  {
    if |xs| == 1 then xs[0]
    else
      assert xs == xs[..|xs| - 1] + [xs[|xs| - 1]];
      RMax(Highest(xs[..|xs| - 1]), xs[|xs| - 1])
  }

  /** Running peak minus curve, point by point. */
  function Drawdowns(curve: seq<real>): seq<real> {
    seq(|curve|, i requires 0 <= i < |curve| => Highest(curve[..i + 1]) - curve[i])
  }

  function MaxDrawdown(values: seq<real>): real { Highest(Drawdowns(Curve(values))) }

  function Fall(curve: seq<real>, i: int, j: int): real
    requires 0 <= i <= j < |curve|
  { curve[i] - curve[j] }

  /** d is the largest fall from a point of the curve to the same or a later one. */
  ghost predicate IsLargestFall(curve: seq<real>, d: real) {
    && (exists i, j | 0 <= i <= j < |curve| :: Fall(curve, i, j) == d)
    && (forall i, j | 0 <= i <= j < |curve| :: Fall(curve, i, j) <= d)
  }

  /** The drawdown that both reports compute is the largest fall of the equity curve. */
  lemma DrawdownIsLargestFall(values: seq<real>)
    ensures IsLargestFall(Curve(values), MaxDrawdown(values))
  {
    var c := Curve(values);
    var ds := Drawdowns(c);
    hide Curve, Highest;
    var j :| 0 <= j < |ds| && ds[j] == MaxDrawdown(values);
    var i :| 0 <= i < |c[..j + 1]| && c[..j + 1][i] == Highest(c[..j + 1]);
    assert Fall(c, i, j) == MaxDrawdown(values);
    forall k, l | 0 <= k <= l < |c| ensures Fall(c, k, l) <= MaxDrawdown(values) {
      assert c[..l + 1][k] in c[..l + 1];
      assert ds[l] in ds;
    }
  }

  lemma HighestAppend(xs: seq<real>, x: real)
    requires xs != []
    ensures Highest(xs + [x]) == RMax(Highest(xs), x)
  {
    assert (xs + [x])[..|xs|] == xs;
  }

  lemma CurveAppend(values: seq<real>, v: real)
    ensures Curve(values + [v]) == Curve(values) + [Curve(values)[|values|] + v]
  {
    var longer := values + [v];
    forall k | 0 <= k <= |values| ensures longer[..k] == values[..k] {
    }
    assert longer[..|longer|] == longer && values[..|values|] == values;
    TotalAppend(values, v, Identity());
  }

  lemma DrawdownsAppend(curve: seq<real>, x: real)
    requires curve != []
    ensures Drawdowns(curve + [x]) == Drawdowns(curve) + [Highest(curve + [x]) - x]
  {
    hide Highest;
    var longer := curve + [x];
    assert longer[..|longer|] == longer;
    forall i | 0 <= i < |curve| ensures Drawdowns(longer)[i] == Drawdowns(curve)[i] {
      assert longer[..i + 1] == curve[..i + 1];
    }
  }

  lemma DrawdownsLength(curve: seq<real>)
    ensures |Drawdowns(curve)| == |curve|
  {
  }

  lemma FallAppend(curve: seq<real>, x: real)
    requires curve != []
    ensures Highest(Drawdowns(curve + [x])) == RMax(Highest(Drawdowns(curve)), Highest(curve + [x]) - x)
  {
    hide Highest, Drawdowns;
    DrawdownsLength(curve);
    DrawdownsAppend(curve, x);
    HighestAppend(Drawdowns(curve), Highest(curve + [x]) - x);
  }

  lemma DrawdownAppend(values: seq<real>, v: real)
    ensures var c := Curve(values + [v]);
      MaxDrawdown(values + [v]) == RMax(MaxDrawdown(values), Highest(c) - c[|values| + 1])
  {
    hide Curve, Drawdowns, Highest;
    CurveAppend(values, v);
    FallAppend(Curve(values), Curve(values)[|values|] + v);
  }

  lemma StartingCurve()
    ensures Curve([])[0] == Highest(Curve([])) == MaxDrawdown([]) == 0.0
  {
    assert Curve([]) == [0.0];
    assert Drawdowns([0.0]) == [0.0];
  }

  /** The three-variable fold of quality(): the drawdown is reported as a non-positive number. */
  method QualityDrawdown(values: seq<real>) returns (drawdown: real)
    ensures drawdown == -MaxDrawdown(values)
  {
    var equity, peak := 0.0, 0.0;
    drawdown := 0.0;
    StartingCurve();
    hide Curve, Drawdowns, MaxDrawdown, Highest;
    for n := 0 to |values|
      invariant equity == Curve(values[..n])[n] && peak == Highest(Curve(values[..n]))
      invariant drawdown == -MaxDrawdown(values[..n])
    {
      assert values[..n + 1] == values[..n] + [values[n]];
      CurveAppend(values[..n], values[n]);
      DrawdownAppend(values[..n], values[n]);
      equity := equity + values[n];
      HighestAppend(Curve(values[..n]), equity);
      peak := RMax(peak, equity);
      drawdown := RMin(drawdown, equity - peak);
    }
    assert values[..|values|] == values;
  }

  // ---- losing streaks --------------------------------------------------

  /** The length of the losing run that ends the list. */
  function TrailingLosses(values: seq<real>): nat {
    if values == [] || values[|values| - 1] > 0.0 then 0 else TrailingLosses(values[..|values| - 1]) + 1
  }

  function LongestLosses(values: seq<real>): nat {
    if values == [] then 0 else Max(LongestLosses(values[..|values| - 1]), TrailingLosses(values))
  }

  method LongestLosingStreak(values: seq<real>) returns (longest: nat)
    ensures longest == LongestLosses(values)
  {
    var streak: nat := 0;
    longest := 0;
    for n := 0 to |values|
      invariant streak == TrailingLosses(values[..n]) && longest == LongestLosses(values[..n])
    {
      assert values[..n + 1][..n] == values[..n];
      streak := if values[n] <= 0.0 then streak + 1 else 0;
      longest := Max(longest, streak);
    }
    assert values[..|values|] == values;
  }

  ghost predicate LosingRun(values: seq<real>, start: nat, length: nat) {
    start + length <= |values| && forall k | start <= k < start + length :: values[k] <= 0.0
  }

  lemma {:induction false} TrailingIsLosing(values: seq<real>)
    ensures TrailingLosses(values) <= |values|
    ensures forall k | |values| - TrailingLosses(values) <= k < |values| :: values[k] <= 0.0
  {
    if values != [] {
      TrailingIsLosing(values[..|values| - 1]);
    }
  }

  lemma {:induction false} TrailingIsMaximal(values: seq<real>, start: nat)
    requires start <= |values| && forall k | start <= k < |values| :: values[k] <= 0.0
    ensures |values| - start <= TrailingLosses(values)
  {
    if start < |values| {
      TrailingIsMaximal(values[..|values| - 1], start);
    }
  }

  /** The reported streak is the length of the longest stretch of consecutive non-winning trades. */
  lemma {:induction false} LongestIsLongest(values: seq<real>)
    ensures exists start: nat :: LosingRun(values, start, LongestLosses(values))
    ensures forall start: nat, n: nat :: LosingRun(values, start, n) ==> n <= LongestLosses(values)
  {
    if values == [] {
      assert LosingRun(values, 0, LongestLosses(values));
    } else {
      var init := values[..|values| - 1];
      LongestIsLongest(init);
      TrailingIsLosing(values);
      var start: nat :| LosingRun(init, start, LongestLosses(init));
      if LongestLosses(values) == LongestLosses(init) {
        assert LosingRun(values, start, LongestLosses(values));
      } else {
        var from: nat := |values| - TrailingLosses(values);
        assert forall k | from <= k < from + LongestLosses(values) :: values[k] <= 0.0;
        assert LosingRun(values, from, LongestLosses(values));
      }
      forall s: nat, n: nat | LosingRun(values, s, n) ensures n <= LongestLosses(values) {
        if s + n < |values| {
          assert LosingRun(init, s, n);
        } else {
          TrailingIsMaximal(values, s);
        }
      }
    }
  }

  // ---- metrics and groups ----------------------------------------------

  datatype Metrics = Metrics(
    trades: nat, wins: nat, losses: nat, grossProfit: real, grossLoss: real, netR: real,
    maxDrawdownR: real, longestLosingStreak: nat)

  function Winning(): real -> bool { (x: real) => x > 0.0 }

  function Losing(): real -> bool { (x: real) => x <= 0.0 }

  function Wins(values: seq<real>): seq<real> { Where(values, Winning()) }

  function Losses(values: seq<real>): seq<real> { Where(values, Losing()) }

  function MetricsOf(values: seq<real>): Metrics {
    Metrics(|values|, |Wins(values)|, |Losses(values)|, Total(Wins(values), Identity()),
            Abs(Total(Losses(values), Identity())), Total(values, Identity()), MaxDrawdown(values),
            LongestLosses(values))
  }

  lemma WinsAppend(values: seq<real>, v: real)
    ensures Wins(values + [v]) == if v > 0.0 then Wins(values) + [v] else Wins(values)
    ensures Losses(values + [v]) == if v > 0.0 then Losses(values) else Losses(values) + [v]
  {
    assert (values + [v])[..|values|] == values;
  }

  ghost predicate Counted(values: seq<real>, wins: nat, losses: nat, profit: real, loss: real) {
    && wins == |Wins(values)| && losses == |Losses(values)|
    && profit == Total(Wins(values), Identity()) && loss == Total(Losses(values), Identity())
  }

  ghost predicate Traced(values: seq<real>, equity: real, peak: real, drawdown: real) {
    && equity == Curve(values)[|values|] == Total(values, Identity())
    && peak == Highest(Curve(values)) && drawdown == MaxDrawdown(values)
  }

  lemma CountNext(values: seq<real>, n: nat, wins: nat, losses: nat, profit: real, loss: real)
    requires n < |values| && Counted(values[..n], wins, losses, profit, loss)
    ensures values[n] > 0.0 ==> Counted(values[..n + 1], wins + 1, losses, profit + values[n], loss)
    ensures values[n] <= 0.0 ==> Counted(values[..n + 1], wins, losses + 1, profit, loss + values[n])
  {
    var before, v := values[..n], values[n];
    assert values[..n + 1] == before + [v];
    WinsAppend(before, v);
    hide Wins, Losses, Total;
    TotalAppend(Wins(before), v, Identity());
    TotalAppend(Losses(before), v, Identity());
  }

  lemma TraceNext(values: seq<real>, n: nat, equity: real, peak: real, drawdown: real)
    requires n < |values| && Traced(values[..n], equity, peak, drawdown)
    ensures var e := equity + values[n];
      Traced(values[..n + 1], e, RMax(peak, e), RMax(drawdown, RMax(peak, e) - e))
  {
    hide Curve, Drawdowns, MaxDrawdown, Highest, Total, RMax;
    var before, v := values[..n], values[n];
    assert values[..n + 1] == before + [v];
    TotalAppend(before, v, Identity());
    CurveAppend(before, v);
    DrawdownAppend(before, v);
    HighestAppend(Curve(before), equity + v);
  }

  lemma NothingAccumulated()
    ensures Counted([], 0, 0, 0.0, 0.0) && Traced([], 0.0, 0.0, 0.0)
  {
    StartingCurve();
  }

  lemma AccumulatedIsReported(
      values: seq<real>, wins: nat, losses: nat, profit: real, loss: real, equity: real, peak: real, drawdown: real)
    requires Counted(values, wins, losses, profit, loss) && Traced(values, equity, peak, drawdown)
    ensures MetricsOf(values)
            == Metrics(|values|, wins, losses, profit, Abs(loss), equity, drawdown, LongestLosses(values))
  {
  }

  /** One pass with running sums, the equity and its peak, where the source uses masks and cumulative arrays. */
  method ComputeMetrics(values: seq<real>) returns (m: Metrics)
    ensures m == MetricsOf(values)
  {
    hide Counted, Traced, LongestLosses, MetricsOf, RMax, Abs;
    var wins: nat, losses: nat := 0, 0;
    var profit, loss, equity, peak, drawdown := 0.0, 0.0, 0.0, 0.0, 0.0;
    NothingAccumulated();
    for n := 0 to |values|
      invariant Counted(values[..n], wins, losses, profit, loss)
      invariant Traced(values[..n], equity, peak, drawdown)
    {
      var value := values[n];
      CountNext(values, n, wins, losses, profit, loss);
      TraceNext(values, n, equity, peak, drawdown);
      if value > 0.0 {
        wins, profit := wins + 1, profit + value;
      } else {
        losses, loss := losses + 1, loss + value;
      }
      equity := equity + value;
      peak := RMax(peak, equity);
      drawdown := RMax(drawdown, peak - equity);
    }
    assert values[..|values|] == values;
    var longest := LongestLosingStreak(values);
    AccumulatedIsReported(values, wins, losses, profit, loss, equity, peak, drawdown);
    m := Metrics(|values|, wins, losses, profit, Abs(loss), equity, drawdown, longest);
  }

  lemma {:induction false} LossesSumNonPositive(values: seq<real>)
    ensures Total(Losses(values), Identity()) <= 0.0
    ensures |values| == |Wins(values)| + |Losses(values)|
    ensures Total(values, Identity()) == Total(Wins(values), Identity()) + Total(Losses(values), Identity())
  {
    if values != [] {
      var init, last := values[..|values| - 1], values[|values| - 1];
      LossesSumNonPositive(init);
      assert Wins(values) == if last > 0.0 then Wins(init) + [last] else Wins(init);
      assert Losses(values) == if last > 0.0 then Losses(init) else Losses(init) + [last];
      TotalAppend(Wins(init), last, Identity());
      TotalAppend(Losses(init), last, Identity());
    }
  }

  /** Wins and losses split the trades, and profit minus loss is the net result. */
  lemma MetricsBalance(values: seq<real>)
    ensures var m := MetricsOf(values);
      m.trades == m.wins + m.losses && m.netR == m.grossProfit - m.grossLoss
  {
    LossesSumNonPositive(values);
  }

  /** Wins are the positive results, losses the others; zero counts as a loss. */
  lemma WinsAreStrict(values: seq<real>)
    ensures MetricsOf(values).wins == |set k: nat | k < |values| && values[k] > 0.0|
    ensures MetricsOf(values).losses == |set k: nat | k < |values| && values[k] <= 0.0|
    ensures MetricsOf(values).netR == Sum(|values|, Term(values, Identity()))
  {
    WhereCounts(values, Winning());
    WhereCounts(values, Losing());
    TotalIsSum(values, Identity());
    hide Where, Total, Sum, MaxDrawdown, LongestLosses;
    assert Indices(values, Winning()) == set k: nat | k < |values| && values[k] > 0.0;
    assert Indices(values, Losing()) == set k: nat | k < |values| && values[k] <= 0.0;
  }

  function Net(): Trade -> real { (t: Trade) => t.netR }

  function FieldIs(field: Trade -> string, v: string): Trade -> bool { (t: Trade) => field(t) == v }

  function GroupMetrics(executed: seq<Trade>, field: Trade -> string, v: string): Metrics {
    MetricsOf(Map(Net(), Where(executed, FieldIs(field, v))))
  }

  function LexOrder(): (string, string) -> bool { (a: string, b: string) => LexLess(a, b) }

  function WithoutRepeats(xs: seq<string>): (r: seq<string>)
    ensures forall x :: x in r <==> x in xs
    ensures forall i, j | 0 <= i < j < |r| :: r[i] != r[j]
  {
    if xs == [] then []
    else
      assert xs == xs[..|xs| - 1] + [xs[|xs| - 1]];
      var init := WithoutRepeats(xs[..|xs| - 1]);
      if xs[|xs| - 1] in init then init else init + [xs[|xs| - 1]]
  }

  /** sorted({field of each trade}). */
  function Names(executed: seq<Trade>, field: Trade -> string): seq<string> {
    Sort(WithoutRepeats(Map(field, executed)), LexOrder())
  }

  lemma NamesCover(executed: seq<Trade>, field: Trade -> string)
    ensures Distinct(Names(executed, field))
    ensures forall v :: v in Names(executed, field) <==> v in Map(field, executed)
  {
    var raw := WithoutRepeats(Map(field, executed));
    SortIsPermutation(raw, LexOrder());
    PermutedBasics(raw, Names(executed, field));
    DistinctMeans(raw);
  }

  method Grouped(executed: seq<Trade>, field: Trade -> string) returns (output: map<string, Metrics>)
    ensures output.Keys == SetOf(Map(field, executed))
    ensures forall v | v in output :: output[v] == GroupMetrics(executed, field, v)
  {
    hide MetricsOf, Where, Sort, WithoutRepeats;
    output := map[];
    var names := Names(executed, field);
    NamesCover(executed, field);
    for n := 0 to |names|
      invariant output.Keys == SetOf(names[..n])
      invariant forall v | v in output :: output[v] == GroupMetrics(executed, field, v)
    {
      var m := ComputeMetrics(Map(Net(), Where(executed, FieldIs(field, names[n]))));
      output := output[names[n] := m];
      assert names[..n + 1] == names[..n] + [names[n]];
    }
    assert names[..|names|] == names;
  }

  /** Summing the groups in the order of their names. */
  function GroupTrades(executed: seq<Trade>, field: Trade -> string, names: seq<string>): nat {
    if names == [] then 0
    else GroupTrades(executed, field, names[..|names| - 1]) + GroupMetrics(executed, field, names[|names| - 1]).trades
  }

  function GroupNet(executed: seq<Trade>, field: Trade -> string, names: seq<string>): real {
    if names == [] then 0.0
    else GroupNet(executed, field, names[..|names| - 1]) + GroupMetrics(executed, field, names[|names| - 1]).netR
  }

  function IndexOf(names: seq<string>, v: string): (i: nat)
    ensures v in names ==> i < |names| && names[i] == v
  {
    if names == [] then 0
    else if names[0] == v then 0
    else
      assert names == [names[0]] + names[1..];
      IndexOf(names[1..], v) + 1
  }

  function GroupOf(field: Trade -> string, names: seq<string>): Trade -> nat {
    (t: Trade) => IndexOf(names, field(t))
  }

  lemma {:induction false} TotalOfMap(xs: seq<Trade>)
    ensures Total(Map(Net(), xs), Identity()) == Total(xs, Net())
  {
    if xs != [] {
      var init, last := xs[..|xs| - 1], xs[|xs| - 1];
      TotalOfMap(init);
      assert Map(Net(), xs) == Map(Net(), init) + [Net()(last)];
      TotalAppend(Map(Net(), init), Net()(last), Identity());
    }
  }

  lemma GroupIsClass(executed: seq<Trade>, field: Trade -> string, names: seq<string>, n: nat)
    requires n < |names| && Distinct(names) && forall t | t in executed :: field(t) in names
    ensures Where(executed, FieldIs(field, names[n])) == Where(executed, InClass(GroupOf(field, names), n))
  {
    DistinctMeans(names);
    WhereAgree(executed, FieldIs(field, names[n]), InClass(GroupOf(field, names), n));
  }

  lemma MetricsCounts(values: seq<real>)
    ensures MetricsOf(values).trades == |values| && MetricsOf(values).netR == Total(values, Identity())
  {
  }

  lemma {:induction false} GroupsUpTo(executed: seq<Trade>, field: Trade -> string, names: seq<string>, n: nat)
    requires n <= |names| && Distinct(names) && forall t | t in executed :: field(t) in names
    ensures GroupTrades(executed, field, names[..n]) as real
            == ByClass(executed, One<Trade>(), GroupOf(field, names), n)
    ensures GroupNet(executed, field, names[..n]) == ByClass(executed, Net(), GroupOf(field, names), n)
  {
    if n > 0 {
      GroupsUpTo(executed, field, names, n - 1);
      assert names[..n][..n - 1] == names[..n - 1];
      GroupIsClass(executed, field, names, n - 1);
      var group := Where(executed, FieldIs(field, names[n - 1]));
      TotalOfOnes(group);
      TotalOfMap(group);
      hide MetricsOf, Where, IndexOf;
      assert GroupMetrics(executed, field, names[n - 1]) == MetricsOf(Map(Net(), group));
      MetricsCounts(Map(Net(), group));
    }
  }

  /** Grouping by any field loses no trade and no result. */
  lemma GroupsAddUp(executed: seq<Trade>, field: Trade -> string)
    ensures GroupTrades(executed, field, Names(executed, field)) == |executed|
    ensures GroupNet(executed, field, Names(executed, field)) == MetricsOf(Map(Net(), executed)).netR
  {
    var names := Names(executed, field);
    NamesCover(executed, field);
    forall t | t in executed ensures field(t) in names {
      var i :| 0 <= i < |executed| && executed[i] == t;
      assert Map(field, executed)[i] == field(t);
    }
    GroupsUpTo(executed, field, names, |names|);
    assert names[..|names|] == names;
    Partition(executed, One<Trade>(), GroupOf(field, names), |names|);
    Partition(executed, Net(), GroupOf(field, names), |names|);
    TotalOfOnes(executed);
    TotalOfMap(executed);
  }

  // ---- percentiles -----------------------------------------------------

  function Ascending(): (real, real) -> bool { (a: real, b: real) => a < b }

  function Ceiling(x: real): int { -(-x).Floor }

  lemma CeilingBounds(x: real)
    ensures x <= Ceiling(x) as real < x + 1.0
  {
  }

  lemma ShareAtMost(n: real, share: real)
    requires n >= 0.0 && share <= 1.0
    ensures n * share <= n
  {
    assert n * (1.0 - share) >= 0.0;
  }

  function Rank(n: nat, percentile: real): (k: nat)
    requires n > 0 && percentile <= 1.0
    ensures k < n
  {
    var share := n as real * percentile;
    ShareAtMost(n as real, percentile);
    CeilingBounds(share);
    Max(0, Ceiling(share) - 1)
  }

  /** _percentile: the nearest-rank element; a percentile above one would index past the end. */
  function Percentile(values: seq<real>, percentile: real): real
    requires percentile <= 1.0
  {
    if values == [] then 0.0
    else
      var ordered := Sort(values, Ascending());
      SortIsPermutation(values, Ascending());
      ordered[Rank(|values|, percentile)]
  }

  function AtMost(v: real): real -> bool { (x: real) => x <= v }

  function Below(v: real): real -> bool { (x: real) => x < v }

  lemma {:induction false} WhereConcat<T(!new)>(a: seq<T>, b: seq<T>, p: T -> bool)
    ensures |Where(a + b, p)| == |Where(a, p)| + |Where(b, p)|
  {
    if b == [] {
      assert a + b == a;
    } else {
      WhereConcat(a, b[..|b| - 1], p);
      assert (a + b)[..|a + b| - 1] == a + b[..|b| - 1];
    }
  }

  lemma CountRemoveAt<T(!new)>(xs: seq<T>, i: nat, p: T -> bool)
    requires i < |xs|
    ensures |Where(xs, p)| == |Where(xs[..i] + xs[i + 1..], p)| + (if p(xs[i]) then 1 else 0)
  {
    assert xs == xs[..i] + ([xs[i]] + xs[i + 1..]);
    WhereConcat(xs[..i], [xs[i]] + xs[i + 1..], p);
    WhereConcat([xs[i]], xs[i + 1..], p);
    WhereConcat(xs[..i], xs[i + 1..], p);
    assert Where([xs[i]][..0], p) == [];
  }

  lemma {:induction false} CountIgnoresOrder<T(!new)>(xs: seq<T>, ys: seq<T>, p: T -> bool)
    requires Permuted(xs, ys)
    ensures |Where(xs, p)| == |Where(ys, p)|
  {
    hide Where;
    PermutedBasics(xs, ys);
    if xs == [] {
      assert ys == xs;
    } else {
      var last := |xs| - 1;
      assert xs[last] in ys;
      var i: nat :| i < |ys| && ys[i] == xs[last];
      var init, rest := xs[..last] + xs[last + 1..], ys[..i] + ys[i + 1..];
      RemoveAt(xs, last);
      RemoveAt(ys, i);
      assert multiset(init) == multiset(xs) - multiset{xs[last]} == multiset(rest);
      CountIgnoresOrder(init, rest, p);
      CountRemoveAt(xs, last, p);
      CountRemoveAt(ys, i, p);
    }
  }

  lemma {:induction false} WhereAll<T(!new)>(xs: seq<T>, p: T -> bool)
    ensures |Where(xs, p)| <= |xs|
    ensures (forall x | x in xs :: p(x)) ==> |Where(xs, p)| == |xs|
    ensures (forall x | x in xs :: !p(x)) ==> |Where(xs, p)| == 0
  {
    if xs != [] {
      assert xs == xs[..|xs| - 1] + [xs[|xs| - 1]];
      WhereAll(xs[..|xs| - 1], p);
    }
  }

  lemma CountAtMostRank(ordered: seq<real>, k: nat)
    requires k < |ordered| && Sorted(ordered, Ascending())
    ensures |Where(ordered, AtMost(ordered[k]))| >= k + 1
  {
    var v, low, high := ordered[k], ordered[..k + 1], ordered[k + 1..];
    assert ordered == low + high;
    WhereConcat(low, high, AtMost(v));
    forall x | x in low ensures AtMost(v)(x) {
      var j :| 0 <= j < |low| && low[j] == x;
      assert j == k || !Ascending()(ordered[k], ordered[j]);
    }
    WhereAll(low, AtMost(v));
  }

  lemma NothingBelowFromRank(ordered: seq<real>, k: nat, x: real)
    requires k < |ordered| && Sorted(ordered, Ascending()) && x in ordered[k..]
    ensures !Below(ordered[k])(x)
  {
    var j :| 0 <= j < |ordered[k..]| && ordered[k..][j] == x;
    if j > 0 {
      assert !Ascending()(ordered[k + j], ordered[k]);
    }
  }

  lemma CountBelowRank(ordered: seq<real>, k: nat)
    requires k < |ordered| && Sorted(ordered, Ascending())
    ensures |Where(ordered, Below(ordered[k]))| <= k
  {
    hide Where, Sorted, Below;
    var below, low, high := Below(ordered[k]), ordered[..k], ordered[k..];
    assert ordered == low + high;
    WhereConcat(low, high, below);
    WhereAll(low, below);
    forall x | x in high ensures !below(x) {
      NothingBelowFromRank(ordered, k, x);
    }
    WhereAll(high, below);
  }

  /**
   * The reported percentile is a sample value such that at least the requested share of the samples is at most that
   * value and less than the requested share is below it.
   */
  lemma PercentileIsNearestRank(values: seq<real>, percentile: real)
    requires values != [] && 0.0 < percentile <= 1.0
    ensures var v, share := Percentile(values, percentile), |values| as real * percentile;
      && v in values
      && |Where(values, AtMost(v))| as real >= share
      && (|Where(values, Below(v))| as real) < share
  {
    var ordered := Sort(values, Ascending());
    SortIsPermutation(values, Ascending());
    SortSorts(values, Ascending());
    PermutedBasics(ordered, values);
    var share := |values| as real * percentile;
    assert share > 0.0;
    CeilingBounds(share);
    var k := Rank(|values|, percentile);
    assert k as real < share <= (k + 1) as real;
    CountAtMostRank(ordered, k);
    CountBelowRank(ordered, k);
    CountIgnoresOrder(ordered, values, AtMost(ordered[k]));
    CountIgnoresOrder(ordered, values, Below(ordered[k]));
    hide Where, Sort, Rank;
  }
}
