// The cross-worker circuit breaker of services/ai_trading.py: the row of
// ai_provider_state for one provider identity, and every run of callers over it.
// Each connection block of the source is one step.
module CircuitBreaker {
  import opened Common

  datatype State = CLOSED | OPEN | HALF_OPEN

  datatype Row = Row(
    state: State, consecutiveFailures: nat, openedUntil: Option<int>,
    totalRequests: nat, totalFailures: nat, totalRetries: nat)

  /** AI_CIRCUIT_BREAKER_FAILURES and AI_CIRCUIT_BREAKER_SECONDS, which the source bounds from below. */
  datatype Settings = Settings(threshold: nat, openFor: nat) {
    predicate Valid() { 1 <= threshold <= 100 && openFor > 0 }
  }

  /** _provider_available: the row afterwards and whether the caller may go ahead. */
  function Admission(row: Option<Row>, now: int): (Option<Row>, bool) {
    if row.None? || row.value.state == CLOSED then (row, true)
    else if row.value.state == OPEN && row.value.openedUntil.Some? && row.value.openedUntil.value <= now then
      (Some(row.value.(state := HALF_OPEN)), true)
    else (row, false)
  }

  /** _provider_result: the row after one committed result. */
  function Recorded(s: Settings, row: Option<Row>, success: bool, now: int, retries: int): Row {
    var failures: nat := if success then 0 else if row.Some? then row.value.consecutiveFailures + 1 else 1;
    var halfOpenFailure := row.Some? && row.value.state == HALF_OPEN && !success;
    var state := if success then CLOSED else if halfOpenFailure || failures >= s.threshold then OPEN else CLOSED;
    var failed: nat := if success then 0 else 1;
    var extra: nat := Max(0, retries);
    Row(state, failures, if state == OPEN then Some(now + s.openFor) else None,
        if row.Some? then row.value.totalRequests + 1 else 1,
        if row.Some? then row.value.totalFailures + failed else failed,
        if row.Some? then row.value.totalRetries + extra else extra)
  }

  /** The stored row, changed in place. */
  class ProviderState {
    const settings: Settings
    var row: Option<Row>

    constructor (settings: Settings)
      ensures row == None && this.settings == settings
    {
      this.settings := settings;
      row := None;
    }

    method ProviderAvailable(now: int) returns (admitted: bool)
      modifies this
      ensures (row, admitted) == Admission(old(row), now)
    {
      if row.None? || row.value.state == CLOSED {
        return true;
      }
      if row.value.state == OPEN && row.value.openedUntil.Some? {
        if row.value.openedUntil.value <= now {
          row := Some(row.value.(state := HALF_OPEN));
          return true;
        }
      }
      admitted := false;
    }

    method ProviderResult(success: bool, now: int, retries: int)
      modifies this
      ensures row == Some(Recorded(settings, old(row), success, now, retries))
    {
      var failures: nat := 0;
      if !success {
        failures := if row.Some? then row.value.consecutiveFailures + 1 else 1;
      }
      var state := CLOSED;
      if !success && ((row.Some? && row.value.state == HALF_OPEN) || failures >= settings.threshold) {
        state := OPEN;
      }
      var openedUntil := if state == OPEN then Some(now + settings.openFor) else None;
      var requests, failed, repeats := 1, if success then 0 else 1, Max(0, retries);
      if row.Some? {
        requests := requests + row.value.totalRequests;
        failed := failed + row.value.totalFailures;
        repeats := repeats + row.value.totalRetries;
      }
      row := Some(Row(state, failures, openedUntil, requests, failed, repeats));
    }
  }

  // ---- runs ------------------------------------------------------------

  /** A caller asks for admission; an admitted caller commits a result or is cancelled without one. */
  datatype Event = Ask(now: int) | Commit(success: bool, now: int, retries: int) | Cancel

  /**
   * `results` is the history of commits, `lastCommit` the clock of the last one and `retries` the retries they
   * reported; `probes` counts admissions from a non-closed row since the last commit.
   */
  datatype World = World(
    row: Option<Row>, inFlight: nat, results: seq<bool>, probes: nat, lastCommit: int, retries: nat)

  const INITIAL := World(None, 0, [], 0, 0, 0)

  predicate Admits(w: World, now: int) { Admission(w.row, now).1 }

  /** None when the event cannot happen: only an admitted caller can commit or be cancelled. */
  function Next(s: Settings, w: World, e: Event): Option<World> {
    match e
    case Ask(now) =>
      var (row, admitted) := Admission(w.row, now);
      var probe := admitted && w.row.Some? && w.row.value.state != CLOSED;
      Some(w.(row := row, inFlight := w.inFlight + (if admitted then 1 else 0),
              probes := w.probes + (if probe then 1 else 0)))
    case Commit(success, now, retries) =>
      if w.inFlight == 0 then None
      else Some(World(Some(Recorded(s, w.row, success, now, retries)), w.inFlight - 1, w.results + [success], 0,
                      now, if retries > 0 then w.retries + retries else w.retries))
    case Cancel =>
      if w.inFlight == 0 then None else Some(w.(inFlight := w.inFlight - 1))
  }

  function RunFrom(s: Settings, w: World, events: seq<Event>): Option<World> {
    if events == [] then Some(w)
    else
      var before := RunFrom(s, w, events[..|events| - 1]);
      if before.None? then None else Next(s, before.value, events[|events| - 1])
  }

  ghost predicate Reachable(s: Settings, w: World) {
    exists events :: RunFrom(s, INITIAL, events) == Some(w)
  }

  // ---- what every run keeps --------------------------------------------

  function TrailingFailures(results: seq<bool>): nat {
    if results == [] || results[|results| - 1] then 0 else TrailingFailures(results[..|results| - 1]) + 1
  }

  function Failures(results: seq<bool>): nat {
    if results == [] then 0 else Failures(results[..|results| - 1]) + (if results[|results| - 1] then 0 else 1)
  }

  /** The row tells the history: its failure counter, its totals, its state, and how many probes are out. */
  ghost predicate Consistent(s: Settings, w: World) {
    match w.row
    case None => w.results == [] && w.probes == 0 && w.retries == 0
    case Some(r) =>
      && w.results != []
      && r.consecutiveFailures == TrailingFailures(w.results)
      && r.totalRequests == |w.results| && r.totalFailures == Failures(w.results)
      && (r.state != CLOSED <==> TrailingFailures(w.results) >= s.threshold)
      && r.totalRetries == w.retries
      && (r.state == OPEN ==> r.openedUntil == Some(w.lastCommit + s.openFor))
      && w.probes == (if r.state == HALF_OPEN then 1 else 0)
  }

  lemma HistoryAppend(results: seq<bool>, success: bool)
    ensures TrailingFailures(results + [success]) == (if success then 0 else TrailingFailures(results) + 1)
    ensures Failures(results + [success]) == Failures(results) + (if success then 0 else 1)
  {
    assert (results + [success])[..|results|] == results;
  }

  lemma EmptyHistory()
    ensures TrailingFailures([]) == Failures([]) == 0
  {
  }

  lemma NextStaysConsistent(s: Settings, w: World, e: Event)
    requires s.Valid() && Consistent(s, w) && Next(s, w, e).Some?
    ensures Consistent(s, Next(s, w, e).value)
  {
    hide TrailingFailures, Failures;
    if e.Commit? {
      HistoryAppend(w.results, e.success);
      EmptyHistory();
    }
  }

  lemma {:induction false} RunStaysConsistent(s: Settings, w: World, events: seq<Event>)
    requires s.Valid() && Consistent(s, w) && RunFrom(s, w, events).Some?
    ensures Consistent(s, RunFrom(s, w, events).value)
  {
    if events != [] {
      RunStaysConsistent(s, w, events[..|events| - 1]);
      NextStaysConsistent(s, RunFrom(s, w, events[..|events| - 1]).value, events[|events| - 1]);
    }
  }

  /**
   * At every reachable state the failure counter is the length of the trailing failure run, the row is open or
   * half-open exactly when that length has reached the threshold, the totals count the commits, and at most one
   * caller was admitted from a non-closed row since the last commit.
   */
  lemma BreakerTellsHistory(s: Settings, w: World)
    requires s.Valid() && Reachable(s, w)
    ensures w.row.None? <==> w.results == []
    ensures w.row.Some? ==>
              && w.row.value.consecutiveFailures == TrailingFailures(w.results)
              && (w.row.value.state in {OPEN, HALF_OPEN} <==> TrailingFailures(w.results) >= s.threshold)
              && w.row.value.totalRequests == |w.results|
              && w.row.value.totalFailures == Failures(w.results)
              && w.row.value.totalRetries == w.retries
    ensures w.probes <= 1
  {
    var events :| RunFrom(s, INITIAL, events) == Some(w);
    RunStaysConsistent(s, INITIAL, events);
  }

  /**
   * The cool-down: a caller is admitted by a closed breaker, by an open one exactly from `openFor` after the last
   * commit on, and never by a half-open one. Admission from an open breaker makes it half-open, and nothing else
   * about a request for admission changes the row.
   */
  lemma AdmitsExactlyAfterCoolDown(s: Settings, w: World, now: int)
    requires s.Valid() && Reachable(s, w)
    ensures var (row, admitted) := Admission(w.row, now);
      && (admitted <==> w.row.None? || w.row.value.state == CLOSED
                        || (w.row.value.state == OPEN && now >= w.lastCommit + s.openFor))
      && (w.row.Some? && w.row.value.state == OPEN && admitted ==> row == Some(w.row.value.(state := HALF_OPEN)))
      && (w.row.None? || w.row.value.state != OPEN || !admitted ==> row == w.row)
  {
    var events :| RunFrom(s, INITIAL, events) == Some(w);
    RunStaysConsistent(s, INITIAL, events);
  }

  // ---- liveness --------------------------------------------------------

  /** The probe was cancelled and nobody else who could still commit a result is left. */
  predicate Wedged(w: World) { w.row.Some? && w.row.value.state == HALF_OPEN && w.inFlight == 0 }

  lemma {:induction false} WedgedForever(s: Settings, w: World, events: seq<Event>)
    requires Wedged(w) && RunFrom(s, w, events).Some?
    ensures RunFrom(s, w, events).value == w
  {
    if events != [] {
      WedgedForever(s, w, events[..|events| - 1]);
    }
  }

  /** Some continuation leads to a state in which a caller is admitted. */
  ghost predicate CanRecover(s: Settings, w: World) {
    exists events: seq<Event>, now: int ::
      RunFrom(s, w, events).Some? && Admits(RunFrom(s, w, events).value, now)
  }

  /** From a reachable state the provider can be used again exactly when the breaker is not wedged. */
  lemma RecoversExactly(s: Settings, w: World)
    requires s.Valid() && Reachable(s, w)
    ensures CanRecover(s, w) <==> !Wedged(w)
  {
    var history :| RunFrom(s, INITIAL, history) == Some(w);
    RunStaysConsistent(s, INITIAL, history);
    if Wedged(w) {
      forall events: seq<Event>, now: int | RunFrom(s, w, events).Some?
        ensures !Admits(RunFrom(s, w, events).value, now)
      {
        WedgedForever(s, w, events);
      }
    } else if w.row.Some? && w.row.value.state == HALF_OPEN {
      var e := Commit(true, 0, 0);
      assert [e][..0] == [];
      assert RunFrom(s, w, [e]) == Next(s, w, e);
      assert Admits(RunFrom(s, w, [e]).value, 0);
    } else {
      var now := if w.row.Some? && w.row.value.state == OPEN then w.row.value.openedUntil.value else 0;
      assert RunFrom(s, w, []) == Some(w);
      assert Admits(RunFrom(s, w, []).value, now);
    }
  }

  /** n callers that ask and fail, one after the other. */
  function FailingCalls(n: nat): seq<Event> {
    if n == 0 then [] else FailingCalls(n - 1) + [Ask(0), Commit(false, 0, 0)]
  }

  lemma RunAppend(s: Settings, w: World, events: seq<Event>, e: Event)
    requires RunFrom(s, w, events).Some?
    ensures RunFrom(s, w, events + [e]) == Next(s, RunFrom(s, w, events).value, e)
  {
    assert (events + [e])[..|events|] == events;
  }

  /** What n failing calls leave behind. */
  predicate FailedTimes(s: Settings, w: World, n: nat) {
    && w.inFlight == 0
    && (n == 0 ==> w.row == None)
    && (n > 0 ==>
          && w.row.Some? && w.row.value.consecutiveFailures == n
          && w.row.value.state == (if n >= s.threshold then OPEN else CLOSED)
          && (n >= s.threshold ==> w.row.value.openedUntil == Some(s.openFor as int)))
  }

  lemma OneMoreFailure(s: Settings, w: World, n: nat)
    requires FailedTimes(s, w, n) && n < s.threshold
    ensures var asked := Next(s, w, Ask(0));
      && asked.Some?
      && Next(s, asked.value, Commit(false, 0, 0)).Some?
      && FailedTimes(s, Next(s, asked.value, Commit(false, 0, 0)).value, n + 1)
  {
  }

  lemma StartsUnfailed(s: Settings)
    ensures FailedTimes(s, INITIAL, 0)
  {
  }

  lemma {:induction false} FailingCallsRun(s: Settings, n: nat)
    requires s.Valid() && n <= s.threshold
    ensures RunFrom(s, INITIAL, FailingCalls(n)).Some?
    ensures FailedTimes(s, RunFrom(s, INITIAL, FailingCalls(n)).value, n)
  {
    hide Next, FailedTimes;
    if n == 0 {
      StartsUnfailed(s);
    } else {
      FailingCallsRun(s, n - 1);
      var events := FailingCalls(n - 1);
      OneMoreFailure(s, RunFrom(s, INITIAL, events).value, n - 1);
      RunAppend(s, INITIAL, events, Ask(0));
      RunAppend(s, INITIAL, events + [Ask(0)], Commit(false, 0, 0));
      assert FailingCalls(n) == events + [Ask(0)] + [Commit(false, 0, 0)];
    }
  }

  /** Under every setting the breaker can be wedged: fail up to the threshold, wait, admit the probe, cancel it. */
  lemma WedgeIsReachable(s: Settings) returns (w: World)
    requires s.Valid()
    ensures Reachable(s, w) && Wedged(w) && !CanRecover(s, w)
  {
    var events := FailingCalls(s.threshold);
    FailingCallsRun(s, s.threshold);
    RunAppend(s, INITIAL, events, Ask(s.openFor));
    RunAppend(s, INITIAL, events + [Ask(s.openFor)], Cancel);
    w := RunFrom(s, INITIAL, events + [Ask(s.openFor)] + [Cancel]).value;
    RecoversExactly(s, w);
  }
}
