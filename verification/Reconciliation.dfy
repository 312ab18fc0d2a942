// The reconciliation of duplicate open plans in database/database.py, and the
// market listing of database/signal_history.py that it has to agree with.
module Reconciliation {
  import opened Common
  import opened Ordering

  datatype Status =
    | WATCHING | TRIGGERED | ACTIVE | TP1 | TP2
    | TP3 | STOP | BREAKEVEN | MANUAL_STOP | INVALIDATED | EXPIRED

  datatype Market = Market(ownerKey: int, symbol: string, timeframe: string)

  /** A row of signals; the columns that the reconciliation neither reads nor writes are carried along in `rest`. */
  datatype Plan = Plan(
    id: int, owner: Option<int>, symbol: string, timeframe: string, status: Status,
    entry: real, currentPrice: Option<real>,
    invalidatedAt: Option<string>, closedAt: Option<string>, updatedAt: string, result: Option<string>, rest: string)
  {
    predicate Open() { status in {WATCHING, TRIGGERED, ACTIVE, TP1, TP2} }

    /** An absent owner counts as owner 0. */
    function MarketKey(): Market { Market(if owner.Some? then owner.value else 0, symbol, timeframe) }

    predicate OpenIn(m: Market) { Open() && MarketKey() == m }

    function Priority(): int {
      match status
      case TP2 => 5
      case TP1 => 4
      case ACTIVE => 3
      case TRIGGERED => 2
      case WATCHING => 1
      case _ => 0
    }

    predicate StrongerThan(other: Plan) {
      Priority() > other.Priority() || (Priority() == other.Priority() && id > other.id)
    }

    function Invalidated(now: string): Plan {
      this.(status := INVALIDATED, invalidatedAt := Some(now), closedAt := Some(now), updatedAt := now,
            result := Some("LEGACY_DUPLICATE_RECONCILED"))
    }
  }

  datatype Event = Event(signalId: int, kind: string, price: real, keptId: int, at: string)

  ghost predicate Ascending(rows: seq<Plan>) {
    forall j, k | 0 <= j < k < |rows| :: rows[j].id < rows[k].id
  }

  /** SELECT ... WHERE the market matches AND the plan is open ORDER BY id DESC. */
  function OpenPlans(rows: seq<Plan>, m: Market): seq<Plan> {
    if rows == [] then []
    else
      var n := |rows| - 1;
      (if rows[n].OpenIn(m) then [rows[n]] else []) + OpenPlans(rows[..n], m)
  }

  function Stronger(): (Plan, Plan) -> bool { (a: Plan, b: Plan) => a.StrongerThan(b) }

  /** get_open_market: the open plans of a market by priority, newest first. */
  function OpenMarket(rows: seq<Plan>, m: Market): seq<Plan> { Sort(OpenPlans(rows, m), Stronger()) }

  // ---- what the reconciliation is for ----------------------------------

  /** Another open plan of the same market comes before this one. */
  ghost predicate Superseded(rows: seq<Plan>, plan: Plan) {
    plan.Open() && exists r | r in rows :: r.OpenIn(plan.MarketKey()) && r.StrongerThan(plan)
  }

  /** The table once the plans with the given ids have been invalidated. */
  function Closing(rows: seq<Plan>, ids: set<int>, now: string): seq<Plan> {
    seq(|rows|, k requires 0 <= k < |rows| => if rows[k].id in ids then rows[k].Invalidated(now) else rows[k])
  }

  ghost function SupersededIds(rows: seq<Plan>): set<int> {
    set k | 0 <= k < |rows| && Superseded(rows, rows[k]) :: rows[k].id
  }

  ghost function Reconciled(rows: seq<Plan>, now: string): seq<Plan> { Closing(rows, SupersededIds(rows), now) }

  lemma {:induction false} OpenPlansMeans(rows: seq<Plan>, m: Market, plan: Plan)
    ensures plan in OpenPlans(rows, m) <==> plan in rows && plan.OpenIn(m)
  {
    if rows != [] {
      var n := |rows| - 1;
      OpenPlansMeans(rows[..n], m, plan);
      assert rows == rows[..n] + [rows[n]];
    }
  }

  lemma {:induction false} OpenPlansDescend(rows: seq<Plan>, m: Market)
    requires Ascending(rows)
    ensures forall j, k | 0 <= j < k < |OpenPlans(rows, m)| :: OpenPlans(rows, m)[j].id > OpenPlans(rows, m)[k].id
  {
    if rows != [] {
      var n := |rows| - 1;
      var rest := OpenPlans(rows[..n], m);
      OpenPlansDescend(rows[..n], m);
      forall k | 0 <= k < |rest| ensures rest[k].id < rows[n].id {
        OpenPlansMeans(rows[..n], m, rest[k]);
        var j :| 0 <= j < n && rows[j] == rest[k];
      }
    }
  }

  lemma StrongerIsStrictWeak()
    ensures StrictWeak(Stronger())
  {
  }

  lemma HeadBeatsAll(rows: seq<Plan>, m: Market, listing: seq<Plan>)
    requires listing != [] && Sorted(listing, Stronger())
    requires forall p :: p in listing <==> p in rows && p.OpenIn(m)
    ensures listing[0] in rows && listing[0].OpenIn(m) && !Superseded(rows, listing[0])
  {
    assert listing[0] in listing;
    forall r | r in rows && r.OpenIn(m) ensures !r.StrongerThan(listing[0]) {
      var j :| 0 <= j < |listing| && listing[j] == r;
      assert j > 0 ==> !Stronger()(listing[j], listing[0]);
    }
  }

  lemma SameIdSamePlan(rows: seq<Plan>, a: Plan, b: Plan)
    requires Ascending(rows) && a in rows && b in rows
    ensures a.id == b.id ==> a == b
  {
    var j :| 0 <= j < |rows| && rows[j] == a;
    var k :| 0 <= k < |rows| && rows[k] == b;
    assert j < k ==> rows[j].id < rows[k].id;
    assert k < j ==> rows[k].id < rows[j].id;
  }

  /** The first plan of the listing is the only one that nothing comes before. */
  lemma HeadIsUnsuperseded(rows: seq<Plan>, m: Market, plan: Plan)
    requires Ascending(rows)
    ensures OpenMarket(rows, m) != [] && plan == OpenMarket(rows, m)[0]
            <==> plan in rows && plan.OpenIn(m) && !Superseded(rows, plan)
  {
    var open, listing := OpenPlans(rows, m), OpenMarket(rows, m);
    StrongerIsStrictWeak();
    SortIsPermutation(open, Stronger());
    SortSorts(open, Stronger());
    hide Sort, OpenPlans, StrictWeak;
    forall p: Plan ensures p in listing <==> p in rows && p.OpenIn(m) {
      OpenPlansMeans(rows, m, p);
      assert p in multiset(listing) <==> p in multiset(open);
    }
    if listing != [] {
      HeadBeatsAll(rows, m, listing);
      if plan in rows && plan.OpenIn(m) && plan != listing[0] {
        SameIdSamePlan(rows, plan, listing[0]);
        var j :| 0 <= j < |listing| && listing[j] == plan;
        assert !Stronger()(listing[j], listing[0]);
        assert listing[0].StrongerThan(plan);
      }
    }
  }

  lemma ReconciledAscends(rows: seq<Plan>, ids: set<int>, now: string)
    requires Ascending(rows)
    ensures Ascending(Closing(rows, ids, now))
  {
  }

  lemma SupersededIdsMean(rows: seq<Plan>, k: nat)
    requires Ascending(rows) && k < |rows|
    ensures rows[k].id in SupersededIds(rows) <==> Superseded(rows, rows[k])
  {
    if rows[k].id in SupersededIds(rows) {
      var j :| 0 <= j < |rows| && Superseded(rows, rows[j]) && rows[j].id == rows[k].id;
      SameIdSamePlan(rows, rows[j], rows[k]);
    }
  }

  lemma OpenAfterReconciling(rows: seq<Plan>, now: string, m: Market, plan: Plan)
    requires Ascending(rows)
    ensures plan in Reconciled(rows, now) && plan.OpenIn(m)
            <==> plan in rows && plan.OpenIn(m) && !Superseded(rows, plan)
  {
    var after := Reconciled(rows, now);
    forall k | 0 <= k < |rows| ensures rows[k].id in SupersededIds(rows) <==> Superseded(rows, rows[k]) {
      SupersededIdsMean(rows, k);
    }
    hide SupersededIds, Superseded;
    if k :| 0 <= k < |rows| && rows[k] == plan {
      assert after[k] in after;
    }
    if k :| 0 <= k < |after| && after[k] == plan {
      assert rows[k] in rows;
    }
  }

  lemma ReconciledDescends(rows: seq<Plan>, now: string, m: Market)
    requires Ascending(rows)
    ensures var plans := OpenPlans(Reconciled(rows, now), m);
      && (plans != [] ==> exists p :: p in plans)
      && (|plans| > 1 ==> exists p, q :: p in plans && q in plans && p != q)
  {
    var plans := OpenPlans(Reconciled(rows, now), m);
    ReconciledAscends(rows, SupersededIds(rows), now);
    OpenPlansDescend(Reconciled(rows, now), m);
    if plans != [] {
      assert plans[0] in plans;
    }
    if |plans| > 1 {
      assert plans[0].id > plans[1].id;
      assert plans[0] in plans && plans[1] in plans && plans[0] != plans[1];
    }
  }

  lemma SingletonListing(rows: seq<Plan>, m: Market)
    ensures |OpenPlans(rows, m)| <= 1 ==> OpenMarket(rows, m) == OpenPlans(rows, m)
  {
    var plans := OpenPlans(rows, m);
    if |plans| == 1 {
      assert plans[..0] == [];
      assert Sort(plans, Stronger()) == Insert(plans[0], [], Stronger());
    }
  }

  lemma MinOfOne(n: nat)
    ensures Min(1, n) == (if n == 0 then 0 else 1)
  {
  }

  /**
   * Afterwards every market that had an open plan lists exactly one, the one it would have listed first, and a
   * market without open plans still lists none.
   */
  lemma ListingKeepsItsHead(rows: seq<Plan>, now: string, m: Market)
    requires Ascending(rows)
    ensures OpenMarket(Reconciled(rows, now), m) == OpenMarket(rows, m)[..Min(1, |OpenMarket(rows, m)|)]
  {
    hide *;
    var after, before := Reconciled(rows, now), OpenMarket(rows, m);
    var plans := OpenPlans(after, m);
    forall p: Plan ensures p in plans <==> before != [] && p == before[0] {
      OpenPlansMeans(after, m, p);
      OpenAfterReconciling(rows, now, m, p);
      HeadIsUnsuperseded(rows, m, p);
    }
    ReconciledDescends(rows, now, m);
    SingletonListing(after, m);
    MinOfOne(|before|);
    if before == [] {
      assert plans == before[..0];
    } else {
      assert before[0] in plans;
      assert plans == before[..1];
    }
  }

  /** No market is left with two open plans, so the unique index created next cannot fail on this table. */
  lemma OneOpenPlanPerMarket(rows: seq<Plan>, now: string, a: Plan, b: Plan)
    requires Ascending(rows) && a in Reconciled(rows, now) && b in Reconciled(rows, now)
    requires a.Open() && b.OpenIn(a.MarketKey())
    ensures a == b
  {
    var m := a.MarketKey();
    OpenAfterReconciling(rows, now, m, a);
    OpenAfterReconciling(rows, now, m, b);
    HeadIsUnsuperseded(rows, m, a);
    HeadIsUnsuperseded(rows, m, b);
  }

  /** Reconciling a second time, at any time, changes nothing. */
  lemma ReconcilingTwice(rows: seq<Plan>, now: string, later: string)
    requires Ascending(rows)
    ensures SupersededIds(Reconciled(rows, now)) == {}
    ensures Reconciled(Reconciled(rows, now), later) == Reconciled(rows, now)
  {
    var after := Reconciled(rows, now);
    forall k | 0 <= k < |after| ensures !Superseded(after, after[k]) {
      if Superseded(after, after[k]) {
        var r :| r in after && r.OpenIn(after[k].MarketKey()) && r.StrongerThan(after[k]);
        OneOpenPlanPerMarket(rows, now, after[k], r);
      }
    }
  }

  // ---- the event log ---------------------------------------------------

  function EventFor(plan: Plan, kept: Plan, now: string): Event {
    Event(plan.id, "DUPLICATE_RECONCILED", if plan.currentPrice.Some? then plan.currentPrice.value else plan.entry,
          kept.id, now)
  }

  /** The event of an invalidated plan names the plan that its market keeps. */
  ghost predicate Reports(rows: seq<Plan>, plan: Plan, e: Event, now: string) {
    var listing := OpenMarket(rows, plan.MarketKey());
    plan in rows && listing != [] && e == EventFor(plan, listing[0], now)
  }

  /** One event for each of the given plans and no other event. */
  ghost predicate Logged(rows: seq<Plan>, ids: set<int>, log: seq<Event>, now: string) {
    && (forall i, j | 0 <= i < j < |log| :: log[i].signalId != log[j].signalId)
    && (forall id | id in ids :: exists e | e in log :: e.signalId == id)
    && (forall e | e in log :: e.signalId in ids && exists plan :: Reports(rows, plan, e, now))
  }

  lemma LogsJoin(rows: seq<Plan>, a: set<int>, b: set<int>, log: seq<Event>, more: seq<Event>, now: string)
    requires Logged(rows, a, log, now) && Logged(rows, b, more, now) && a !! b
    ensures Logged(rows, a + b, log + more, now)
  {
    var all := log + more;
    forall i, j | 0 <= i < j < |all| ensures all[i].signalId != all[j].signalId {
      if i < |log| <= j {
        assert log[i] in log && more[j - |log|] in more;
      }
    }
    forall id | id in a + b ensures exists e | e in all :: e.signalId == id {
      var e :| (e in log || e in more) && e.signalId == id;
      assert e in all;
    }
  }

  lemma OneLogged(rows: seq<Plan>, plan: Plan, kept: Plan, now: string)
    requires plan in rows && OpenMarket(rows, plan.MarketKey()) != [] && kept == OpenMarket(rows, plan.MarketKey())[0]
    ensures Logged(rows, {plan.id}, [EventFor(plan, kept, now)], now)
  {
    var e := EventFor(plan, kept, now);
    assert Reports(rows, plan, e, now);
    assert e in [e] && e.signalId == plan.id;
  }

  // ---- one market ------------------------------------------------------

  ghost function SupersededWithin(rows: seq<Plan>, markets: seq<Market>): set<int> {
    set k | 0 <= k < |rows| && Superseded(rows, rows[k]) && rows[k].MarketKey() in markets :: rows[k].id
  }

  function OtherIds(plans: seq<Plan>, kept: int): set<int> { set p | p in plans && p.id != kept :: p.id }

  lemma ClosingOneMore(rows: seq<Plan>, ids: set<int>, id: int, now: string)
    ensures Closing(Closing(rows, ids, now), {id}, now) == Closing(rows, ids + {id}, now)
    ensures Closing(rows, {}, now) == rows
  {
  }

  /** The plan that max() picks heads the listing, and the others are the superseded plans of the market. */
  lemma KeptIsHead(rows: seq<Plan>, m: Market, kept: Plan)
    requires Ascending(rows) && kept in OpenPlans(rows, m)
    requires forall p | p in OpenPlans(rows, m) :: !p.StrongerThan(kept)
    ensures OpenMarket(rows, m) != [] && kept == OpenMarket(rows, m)[0]
    ensures OtherIds(OpenPlans(rows, m), kept.id) == SupersededWithin(rows, [m])
  {
    var plans := OpenPlans(rows, m);
    forall p: Plan ensures p in plans <==> p in rows && p.OpenIn(m) {
      OpenPlansMeans(rows, m, p);
    }
    hide OpenPlans, OpenMarket;
    HeadIsUnsuperseded(rows, m, kept);
    forall p | p in plans ensures p.id != kept.id <==> Superseded(rows, p) {
      HeadIsUnsuperseded(rows, m, p);
      SameIdSamePlan(rows, p, kept);
    }
    forall id ensures id in OtherIds(plans, kept.id) <==> id in SupersededWithin(rows, [m]) {
      if p :| p in plans && p.id != kept.id && p.id == id {
        var k :| 0 <= k < |rows| && rows[k] == p;
      }
      if k :| 0 <= k < |rows| && Superseded(rows, rows[k]) && rows[k].MarketKey() in [m] && rows[k].id == id {
        assert rows[k] in rows && rows[k] in plans;
      }
    }
  }

  method Strongest(plans: seq<Plan>) returns (best: Plan)
    requires plans != []
    ensures best in plans && forall p | p in plans :: !p.StrongerThan(best)
  {
    best := plans[0];
    for k := 1 to |plans|
      invariant best in plans && forall j | 0 <= j < k :: !plans[j].StrongerThan(best)
    {
      if plans[k].StrongerThan(best) {
        best := plans[k];
      }
    }
  }

  // ---- market by market ------------------------------------------------

  /** The two tables differ at most outside market m. */
  ghost predicate AgreeOn(rows: seq<Plan>, current: seq<Plan>, m: Market) {
    && |rows| == |current|
    && forall k | 0 <= k < |rows| ::
         rows[k].MarketKey() == current[k].MarketKey() && (rows[k].MarketKey() == m ==> current[k] == rows[k])
  }

  lemma {:induction false} SameOpenPlans(rows: seq<Plan>, current: seq<Plan>, m: Market)
    requires AgreeOn(rows, current, m)
    ensures OpenPlans(current, m) == OpenPlans(rows, m)
  {
    if rows != [] {
      SameOpenPlans(rows[..|rows| - 1], current[..|rows| - 1], m);
    }
  }

  lemma SameSuperseded(rows: seq<Plan>, current: seq<Plan>, m: Market)
    requires AgreeOn(rows, current, m)
    ensures SupersededWithin(current, [m]) == SupersededWithin(rows, [m])
  {
    forall k | 0 <= k < |rows| && rows[k].MarketKey() == m
      ensures Superseded(rows, rows[k]) <==> Superseded(current, rows[k])
    {
      if r :| r in rows && r.OpenIn(m) && r.StrongerThan(rows[k]) {
        var j :| 0 <= j < |rows| && rows[j] == r;
        assert current[j] in current;
      }
      if r :| r in current && r.OpenIn(m) && r.StrongerThan(rows[k]) {
        var j :| 0 <= j < |rows| && current[j] == r;
        assert rows[j] in rows;
      }
    }
  }

  /** What happens in other markets does not change what a market lists or which of its plans are superseded. */
  lemma OtherMarketsUntouched(rows: seq<Plan>, markets: seq<Market>, m: Market, now: string)
    requires Ascending(rows) && m !in markets
    ensures var current := Closing(rows, SupersededWithin(rows, markets), now);
      && OpenMarket(current, m) == OpenMarket(rows, m)
      && SupersededWithin(current, [m]) == SupersededWithin(rows, [m])
  {
    var ids := SupersededWithin(rows, markets);
    var current := Closing(rows, ids, now);
    forall k | 0 <= k < |rows| && rows[k].MarketKey() == m ensures current[k] == rows[k] {
      if rows[k].id in ids {
        var j :| 0 <= j < |rows| && rows[j].MarketKey() in markets && rows[j].id == rows[k].id;
        assert rows[j] in rows && rows[k] in rows;
        SameIdSamePlan(rows, rows[j], rows[k]);
      }
    }
    SameOpenPlans(rows, current, m);
    SameSuperseded(rows, current, m);
  }

  lemma MarketsJoin(rows: seq<Plan>, markets: seq<Market>, m: Market, now: string)
    requires Ascending(rows) && m !in markets
    ensures var a, b := SupersededWithin(rows, markets), SupersededWithin(rows, [m]);
      && a !! b && SupersededWithin(rows, markets + [m]) == a + b
      && Closing(Closing(rows, a, now), b, now) == Closing(rows, a + b, now)
  {
    var a, b := SupersededWithin(rows, markets), SupersededWithin(rows, [m]);
    hide Superseded;
    assert forall j, k | 0 <= j < |rows| && 0 <= k < |rows| && rows[j].id == rows[k].id :: j == k;
  }

  lemma SameRow(rows: seq<Plan>, j: nat, k: nat)
    requires Ascending(rows) && j < |rows| && k < |rows| && rows[j].id == rows[k].id
    ensures j == k
  {
  }

  lemma EventCarriesOver(rows: seq<Plan>, ids: set<int>, m: Market, plan: Plan, e: Event, now: string)
    requires Ascending(rows) && e.signalId in SupersededWithin(rows, [m]) && ids !! SupersededWithin(rows, [m])
    requires OpenMarket(Closing(rows, ids, now), m) == OpenMarket(rows, m)
    requires Reports(Closing(rows, ids, now), plan, e, now)
    ensures Reports(rows, plan, e, now)
  {
    hide OpenMarket, Superseded;
    var current := Closing(rows, ids, now);
    var k :| 0 <= k < |rows| && rows[k].MarketKey() in [m] && rows[k].id == e.signalId;
    var j :| 0 <= j < |rows| && current[j] == plan;
    SameRow(rows, j, k);
    assert current[k] == rows[k];
  }

  /** The events of a market are the same whether the markets before it have been reconciled or not. */
  lemma LogCarriesOver(rows: seq<Plan>, markets: seq<Market>, m: Market, log: seq<Event>, now: string)
    requires Ascending(rows) && m !in markets
    requires Logged(Closing(rows, SupersededWithin(rows, markets), now), SupersededWithin(rows, [m]), log, now)
    ensures Logged(rows, SupersededWithin(rows, [m]), log, now)
  {
    hide OpenMarket, Superseded, SupersededWithin, Closing, Reports;
    var ids := SupersededWithin(rows, markets);
    OtherMarketsUntouched(rows, markets, m, now);
    MarketsJoin(rows, markets, m, now);
    forall e | e in log ensures exists plan :: Reports(rows, plan, e, now) {
      var plan :| Reports(Closing(rows, ids, now), plan, e, now);
      EventCarriesOver(rows, ids, m, plan, e, now);
    }
  }

  lemma AllMarkets(rows: seq<Plan>, markets: seq<Market>)
    requires forall m :: m in markets <==> |OpenPlans(rows, m)| > 1
    ensures SupersededWithin(rows, markets) == SupersededIds(rows)
  {
    forall k | 0 <= k < |rows| && Superseded(rows, rows[k]) ensures rows[k].MarketKey() in markets {
      var m := rows[k].MarketKey();
      var r :| r in rows && r.OpenIn(m) && r.StrongerThan(rows[k]);
      OpenPlansMeans(rows, m, r);
      OpenPlansMeans(rows, m, rows[k]);
      var i :| 0 <= i < |OpenPlans(rows, m)| && OpenPlans(rows, m)[i] == r;
      var j :| 0 <= j < |OpenPlans(rows, m)| && OpenPlans(rows, m)[j] == rows[k];
      assert i != j;
    }
    hide Superseded, OpenPlans;
  }

  lemma NoMarkets(rows: seq<Plan>, now: string)
    ensures SupersededWithin(rows, []) == {} && Closing(rows, {}, now) == rows && Logged(rows, {}, [], now)
  {
  }

  /** SELECT ... GROUP BY market HAVING COUNT(*) > 1 over the open plans. */
  method DuplicateGroups(rows: seq<Plan>) returns (groups: seq<Market>)
    ensures forall m :: m in groups <==> |OpenPlans(rows, m)| > 1
    ensures forall i, j | 0 <= i < j < |groups| :: groups[i] != groups[j]
  {
    hide OpenPlans;
    groups := [];
    for k := 0 to |rows|
      invariant forall m | m in groups :: |OpenPlans(rows, m)| > 1
      invariant forall j | 0 <= j < k ::
                  rows[j].Open() && |OpenPlans(rows, rows[j].MarketKey())| > 1 ==> rows[j].MarketKey() in groups
      invariant forall i, j | 0 <= i < j < |groups| :: groups[i] != groups[j]
    {
      var m := rows[k].MarketKey();
      if rows[k].Open() && m !in groups && |OpenPlans(rows, m)| > 1 {
        groups := groups + [m];
      }
    }
    forall m | |OpenPlans(rows, m)| > 1 ensures m in groups {
      OpenPlansMeans(rows, m, OpenPlans(rows, m)[0]);
      var j :| 0 <= j < |rows| && rows[j] == OpenPlans(rows, m)[0];
    }
  }

  lemma DistinctPlans(rows: seq<Plan>, m: Market)
    requires Ascending(rows)
    ensures forall j, k | 0 <= j < k < |OpenPlans(rows, m)| :: OpenPlans(rows, m)[j].id != OpenPlans(rows, m)[k].id
  {
    OpenPlansDescend(rows, m);
  }

  lemma NextIds(plans: seq<Plan>, j: nat, kept: int)
    requires j < |plans| && forall i, k | 0 <= i < k < |plans| :: plans[i].id != plans[k].id
    ensures plans[j].id !in OtherIds(plans[..j], kept)
    ensures OtherIds(plans[..j + 1], kept)
            == OtherIds(plans[..j], kept) + (if plans[j].id != kept then {plans[j].id} else {})
  {
    assert plans[..j + 1] == plans[..j] + [plans[j]];
  }

  lemma SameCount(rows: seq<Plan>, markets: seq<Market>, m: Market, now: string)
    requires Ascending(rows) && m !in markets
    ensures |OpenPlans(Closing(rows, SupersededWithin(rows, markets), now), m)| == |OpenPlans(rows, m)|
  {
    OtherMarketsUntouched(rows, markets, m, now);
    SortIsPermutation(OpenPlans(rows, m), Stronger());
    SortIsPermutation(OpenPlans(Closing(rows, SupersededWithin(rows, markets), now), m), Stronger());
  }

  /** The tables signals, in primary key order, and signal_events. */
  class SignalStore {
    var rows: seq<Plan>
    var events: seq<Event>

    constructor (rows: seq<Plan>)
      ensures this.rows == rows && events == []
    {
      this.rows := rows;
      events := [];
    }

    method Invalidate(id: int, now: string)
      modifies this`rows
      ensures rows == Closing(old(rows), {id}, now)
    {
      var before, after := rows, [];
      for k := 0 to |before|
        invariant rows == before && after == Closing(before, {id}, now)[..k]
      {
        after := after + [if before[k].id == id then before[k].Invalidated(now) else before[k]];
      }
      rows := after;
    }

    /** One duplicate group: everything but the strongest plan is invalidated and logged. */
    method ReconcileMarket(m: Market, now: string)
      requires Ascending(rows) && |OpenPlans(rows, m)| > 1
      modifies this
      ensures rows == Closing(old(rows), SupersededWithin(old(rows), [m]), now)
      ensures |events| >= |old(events)| && events[..|old(events)|] == old(events)
      ensures Logged(old(rows), SupersededWithin(old(rows), [m]), events[|old(events)|..], now)
    {
      hide OpenPlans, OpenMarket, SupersededWithin, Closing, Logged, Ascending;
      ghost var before, closed: set<int>, log: seq<Event> := rows, {}, [];
      var plans := OpenPlans(rows, m);
      var keep := Strongest(plans);
      KeptIsHead(rows, m, keep);
      DistinctPlans(rows, m);
      NoMarkets(rows, now);
      for j := 0 to |plans|
        invariant closed == OtherIds(plans[..j], keep.id)
        invariant rows == Closing(before, closed, now)
        invariant events == old(events) + log && Logged(before, closed, log, now)
      {
        var plan := plans[j];
        NextIds(plans, j, keep.id);
        if plan.id != keep.id {
          Invalidate(plan.id, now);
          events := events + [EventFor(plan, keep, now)];
          ClosingOneMore(before, closed, plan.id, now);
          OpenPlansMeans(before, m, plan);
          OneLogged(before, plan, keep, now);
          LogsJoin(before, closed, {plan.id}, log, [EventFor(plan, keep, now)], now);
          closed, log := closed + {plan.id}, log + [EventFor(plan, keep, now)];
        }
      }
      assert plans[..|plans|] == plans;
    }

    /**
     * Every duplicated market is reduced to the plan it would have listed first, with one event for each plan that
     * is invalidated; no other row and no earlier event changes.
     */
    method Reconcile(now: string)
      requires Ascending(rows)
      modifies this
      ensures rows == Reconciled(old(rows), now)
      ensures |events| >= |old(events)| && events[..|old(events)|] == old(events)
      ensures Logged(old(rows), SupersededIds(old(rows)), events[|old(events)|..], now)
    {
      hide OpenPlans, OpenMarket, SupersededWithin, SupersededIds, Closing, Logged, Ascending;
      ghost var before, log: seq<Event> := rows, [];
      var groups := DuplicateGroups(rows);
      NoMarkets(rows, now);
      AllMarkets(rows, groups);
      for g := 0 to |groups|
        invariant rows == Closing(before, SupersededWithin(before, groups[..g]), now)
        invariant events == old(events) + log && Logged(before, SupersededWithin(before, groups[..g]), log, now)
      {
        var m := groups[g];
        assert groups[..g + 1] == groups[..g] + [m];
        OtherMarketsUntouched(before, groups[..g], m, now);
        SameCount(before, groups[..g], m, now);
        ReconciledAscends(before, SupersededWithin(before, groups[..g]), now);
        ghost var logged := |events|;
        ReconcileMarket(m, now);
        ghost var more := events[logged..];
        LogCarriesOver(before, groups[..g], m, more, now);
        MarketsJoin(before, groups[..g], m, now);
        LogsJoin(before, SupersededWithin(before, groups[..g]), SupersededWithin(before, [m]), log, more, now);
        log := log + more;
      }
      assert groups[..|groups|] == groups;
    }
  }

  // ---- what the rows mean ----------------------------------------------

  /** The open stages of a plan in the order of its life. */
  const LIFECYCLE: seq<Status> := [WATCHING, TRIGGERED, ACTIVE, TP1, TP2]

  /** Of two open plans the one further along its life cycle comes first, and on the same stage the newer one. */
  lemma FurtherPlansFirst(a: Plan, b: Plan, i: nat, j: nat)
    requires i < |LIFECYCLE| && j < |LIFECYCLE| && a.status == LIFECYCLE[i] && b.status == LIFECYCLE[j]
    ensures a.Open() && b.Open()
    ensures a.StrongerThan(b) <==> i > j || (i == j && a.id > b.id)
  {
  }

  /** A plan without an owner is in the market of owner 0; no stage outside the life cycle is open. */
  lemma MarketsAndStages(a: Plan, b: Plan)
    ensures a.MarketKey() == b.MarketKey() <==>
              && a.symbol == b.symbol && a.timeframe == b.timeframe
              && (a.owner == b.owner || {a.owner, b.owner} == {None, Some(0)})
    ensures a.Open() <==> a.status in LIFECYCLE
  {
    assert LIFECYCLE[0] == WATCHING && LIFECYCLE[1] == TRIGGERED && LIFECYCLE[2] == ACTIVE;
    assert LIFECYCLE[3] == TP1 && LIFECYCLE[4] == TP2;
  }

  /**
   * What happens to each row: an open plan with an open rival in its market that comes before it is closed as
   * invalidated at `now`, and everything else about it and about every other plan stays as it is.
   */
  lemma RowAfterReconciling(rows: seq<Plan>, now: string, k: nat)
    requires Ascending(rows) && k < |rows|
    ensures var before, after := rows[k], Reconciled(rows, now)[k];
      var rival := exists j :: 0 <= j < |rows| && rows[j].OpenIn(before.MarketKey()) && rows[j].StrongerThan(before);
      if before.Open() && rival then
        && after.status == INVALIDATED && after.result == Some("LEGACY_DUPLICATE_RECONCILED")
        && after.invalidatedAt == after.closedAt == Some(now) && after.updatedAt == now
        && after == before.(status := after.status, result := after.result, invalidatedAt := after.invalidatedAt,
                            closedAt := after.closedAt, updatedAt := after.updatedAt)
      else after == before
  {
    SupersededIdsMean(rows, k);
    hide SupersededIds;
    if r :| r in rows && r.OpenIn(rows[k].MarketKey()) && r.StrongerThan(rows[k]) {
      var j :| 0 <= j < |rows| && rows[j] == r;
    }
    assert forall j | 0 <= j < |rows| :: rows[j] in rows;
  }

  /** The event of an invalidated plan carries its last price, or else its entry, and names the kept plan. */
  lemma EventSays(rows: seq<Plan>, ids: set<int>, log: seq<Event>, now: string, e: Event)
    requires Logged(rows, ids, log, now) && e in log
    ensures e.kind == "DUPLICATE_RECONCILED" && e.at == now
    ensures exists plan: Plan, kept: Plan ::
              && plan in rows && plan.id == e.signalId && kept.id == e.keptId
              && OpenMarket(rows, plan.MarketKey()) != [] && kept == OpenMarket(rows, plan.MarketKey())[0]
              && e.price == (if plan.currentPrice.Some? then plan.currentPrice.value else plan.entry)
  {
    hide OpenMarket;
    var plan :| Reports(rows, plan, e, now);
    var kept := OpenMarket(rows, plan.MarketKey())[0];
    assert kept.id == e.keptId;
  }
}
