// The migration protocol of database/schema_management.py on PostgreSQL:
// migrators that serialize on an advisory lock, services that probe the lock
// and wait for the schema, crashes, and the loss of a lock session.
module Migration {
  import opened Common
  import opened ErrorCodes

  const REQUIRED_TABLES: set<string> := {
    "schema_migrations", "users", "signals", "distributed_leases",
    "forward_worker_health", "operational_worker_health", "scanner_outcome_labels"}

  /** What is committed: the tables, and the versions recorded in schema_migrations. */
  datatype Schema = Schema(tables: set<string>, versions: set<int>)

  /** schema_status() answers READY. */
  predicate Ready(expected: int, db: Schema) {
    REQUIRED_TABLES <= db.tables && exists v | v in db.versions :: v >= expected
  }

  /** READY means the seven tables that services need and a recorded version that is at least the expected one. */
  lemma ReadyExactly(expected: int, db: Schema)
    ensures Ready(expected, db) <==>
              && {"schema_migrations", "users", "signals", "distributed_leases"} <= db.tables
              && {"forward_worker_health", "operational_worker_health", "scanner_outcome_labels"} <= db.tables
              && !(forall v | v in db.versions :: v < expected)
  {
    var first := {"schema_migrations", "users", "signals", "distributed_leases"};
    var rest := {"forward_worker_health", "operational_worker_health", "scanner_outcome_labels"};
    assert REQUIRED_TABLES == first + rest;
  }

  datatype Holder = ByMigrator(p: int) | ByService(s: int)

  /** Inside: migration() is running. Checked: the ready check has passed, the lock is still held. */
  datatype Phase = Waiting | Inside | Checked | Sleeping | Succeeded | Failed | Crashed

  /** `lost`: the session that holds the advisory lock is gone although the process goes on. */
  datatype Migrator = Migrator(phase: Phase, attempt: nat, runs: nat, raised: seq<Option<string>>, lost: bool) {
    predicate Critical() { phase == Inside || phase == Checked }
  }

  datatype Service = Polling | Probing | Quiet | Serving | GaveUp | Dead

  datatype World = World(lock: Option<Holder>, db: Schema, migrators: map<int, Migrator>, services: map<int, Service>)

  datatype Limits = Limits(maxAttempts: nat, expected: int)

  datatype Event =
    | TakeLock(p: int)
    | Commit(p: int, db: Schema)
    | Check(p: int)
    | Finish(p: int)
    | Raise(p: int, code: Option<string>)
    | Wake(p: int)
    | Crash(p: int)
    | LoseSession(p: int)
    | Probe(s: int)
    | ProbeDone(s: int)
    | Status(s: int)
    | GiveUp(s: int)
    | Die(s: int)

  predicate Possible(l: Limits, w: World, e: Event) {
    match e
    case TakeLock(p) => p in w.migrators && w.migrators[p].phase == Waiting && w.lock == None
    case Commit(p, _) => p in w.migrators && w.migrators[p].phase == Inside
    case Check(p) => p in w.migrators && w.migrators[p].phase == Inside && Ready(l.expected, w.db)
    case Finish(p) => p in w.migrators && w.migrators[p].phase == Checked && w.lock == Some(ByMigrator(p))
    case Raise(p, _) => p in w.migrators && w.migrators[p].phase in {Waiting, Inside, Checked}
    case Wake(p) => p in w.migrators && w.migrators[p].phase == Sleeping
    case Crash(p) => p in w.migrators && w.migrators[p].phase in {Waiting, Inside, Checked, Sleeping}
    case LoseSession(p) => p in w.migrators && w.migrators[p].Critical() && w.lock == Some(ByMigrator(p))
    case Probe(s) => s in w.services && w.services[s] == Polling && w.lock == None
    case ProbeDone(s) => s in w.services && w.services[s] == Probing
    case Status(s) => s in w.services && w.services[s] == Quiet
    case GiveUp(s) => s in w.services && w.services[s] == Polling
    case Die(s) => s in w.services && w.services[s] in {Polling, Probing, Quiet}
  }

  /** Closing a session releases the lock if that session holds it. */
  function Without(lock: Option<Holder>, h: Holder): Option<Holder> { if lock == Some(h) then None else lock }

  /** The exception handler of the attempt loop. */
  function AfterRaise(l: Limits, m: Migrator, code: Option<string>): Migrator {
    var again := Retryable(code) && m.attempt < l.maxAttempts;
    m.(phase := if again then Sleeping else Failed, raised := m.raised + [code], lost := false)
  }

  function Next(l: Limits, w: World, e: Event): World
    requires Possible(l, w, e)
  {
    match e
    case TakeLock(p) =>
      w.(lock := Some(ByMigrator(p)),
         migrators := w.migrators[
           p := w.migrators[p].(phase := Inside, runs := w.migrators[p].runs + 1, lost := false)])
    case Commit(_, db) => w.(db := db)
    case Check(p) => w.(migrators := w.migrators[p := w.migrators[p].(phase := Checked)])
    case Finish(p) => w.(lock := None, migrators := w.migrators[p := w.migrators[p].(phase := Succeeded)])
    case Raise(p, code) =>
      w.(lock := Without(w.lock, ByMigrator(p)), migrators := w.migrators[p := AfterRaise(l, w.migrators[p], code)])
    case Wake(p) =>
      w.(migrators := w.migrators[p := w.migrators[p].(phase := Waiting, attempt := w.migrators[p].attempt + 1)])
    case Crash(p) =>
      w.(lock := Without(w.lock, ByMigrator(p)), migrators := w.migrators[p := w.migrators[p].(phase := Crashed)])
    case LoseSession(p) => w.(lock := None, migrators := w.migrators[p := w.migrators[p].(lost := true)])
    case Probe(s) => w.(lock := Some(ByService(s)), services := w.services[s := Probing])
    case ProbeDone(s) => w.(lock := Without(w.lock, ByService(s)), services := w.services[s := Quiet])
    case Status(s) => w.(services := w.services[s := if Ready(l.expected, w.db) then Serving else Polling])
    case GiveUp(s) => w.(services := w.services[s := GaveUp])
    case Die(s) => w.(lock := Without(w.lock, ByService(s)), services := w.services[s := Dead])
  }

  predicate Fresh(m: Migrator) { m == Migrator(Waiting, 1, 0, [], false) }

  predicate Start(w: World) {
    && w.lock == None
    && (forall p | p in w.migrators :: Fresh(w.migrators[p]))
    && (forall s | s in w.services :: w.services[s] == Polling)
  }

  /** A run: any number of migrators and services, from any committed schema. */
  ghost predicate Run(l: Limits, worlds: seq<World>, events: seq<Event>) {
    && l.maxAttempts >= 1
    && |worlds| == |events| + 1 && Start(worlds[0])
    && forall k | 0 <= k < |events| ::
         Possible(l, worlds[k], events[k]) && worlds[k + 1] == Next(l, worlds[k], events[k])
  }

  // ---- what every run keeps --------------------------------------------

  /** The lock names exactly the processes that hold a live session on it. */
  ghost predicate LockTells(w: World) {
    && (forall p | p in w.migrators ::
          w.migrators[p].Critical() && !w.migrators[p].lost <==> w.lock == Some(ByMigrator(p)))
    && (forall s | s in w.services :: w.services[s] == Probing <==> w.lock == Some(ByService(s)))
  }

  /** Each attempt but the last raised a retryable code, and migration() ran at most once per attempt. */
  ghost predicate AttemptsTell(l: Limits, m: Migrator) {
    && 1 <= m.attempt <= l.maxAttempts
    && (m.phase == Sleeping ==> m.attempt < l.maxAttempts && |m.raised| == m.attempt
                                && Retryable(m.raised[m.attempt - 1]))
    && (m.phase == Failed ==> |m.raised| == m.attempt
                              && (!Retryable(m.raised[m.attempt - 1]) || m.attempt == l.maxAttempts))
    && (m.phase in {Waiting, Inside, Checked, Succeeded} ==> |m.raised| == m.attempt - 1)
    && m.attempt - 1 <= |m.raised| <= m.attempt
    && (forall k | 0 <= k < m.attempt - 1 :: Retryable(m.raised[k]))
    && m.runs <= m.attempt && (m.phase == Waiting ==> m.runs < m.attempt)
  }

  ghost predicate Sound(l: Limits, w: World) {
    LockTells(w) && forall p | p in w.migrators :: AttemptsTell(l, w.migrators[p])
  }

  lemma NextStaysSound(l: Limits, w: World, e: Event)
    requires Sound(l, w) && Possible(l, w, e)
    ensures Sound(l, Next(l, w, e))
  {
  }

  lemma {:induction false} RunStaysSound(l: Limits, worlds: seq<World>, events: seq<Event>, k: nat)
    requires Run(l, worlds, events) && k <= |events|
    ensures Sound(l, worlds[k])
  {
    if k > 0 {
      RunStaysSound(l, worlds, events, k - 1);
      NextStaysSound(l, worlds[k - 1], events[k - 1]);
    }
  }

  predicate IsInside(w: World, p: int) { p in w.migrators && w.migrators[p].Critical() }

  predicate IsLost(w: World, p: int) { p in w.migrators && w.migrators[p].Critical() && w.migrators[p].lost }

  ghost predicate NobodyInside(w: World) { forall p | p in w.migrators :: !IsInside(w, p) }

  ghost predicate NobodyLost(w: World) { forall p | p in w.migrators :: !IsLost(w, p) }

  /**
   * Two processes are never inside migration() together unless one of them goes on without the session that held
   * its lock.
   */
  lemma AtMostOneInside(l: Limits, worlds: seq<World>, events: seq<Event>, k: nat, p: int, q: int)
    requires Run(l, worlds, events) && k <= |events|
    requires IsInside(worlds[k], p) && IsInside(worlds[k], q) && p != q
    ensures IsLost(worlds[k], p) || IsLost(worlds[k], q)
  {
    RunStaysSound(l, worlds, events, k);
  }

  /** While a service holds the lock for its probe, nobody with a live session is inside. */
  lemma ProbeFindsNobody(l: Limits, worlds: seq<World>, events: seq<Event>, k: nat, s: int, p: int)
    requires Run(l, worlds, events) && k <= |events|
    requires s in worlds[k].services && worlds[k].services[s] == Probing && IsInside(worlds[k], p)
    ensures IsLost(worlds[k], p)
  {
    RunStaysSound(l, worlds, events, k);
  }

  lemma {:induction false} LossNeedsAnEvent(l: Limits, worlds: seq<World>, events: seq<Event>, k: nat)
    requires Run(l, worlds, events) && k <= |events|
    requires forall j | 0 <= j < k :: !events[j].LoseSession?
    ensures NobodyLost(worlds[k])
  {
    if k > 0 {
      LossNeedsAnEvent(l, worlds, events, k - 1);
      assert worlds[k] == Next(l, worlds[k - 1], events[k - 1]);
      forall p | p in worlds[k].migrators ensures !IsLost(worlds[k], p) {
        assert !IsLost(worlds[k - 1], p);
      }
    }
  }

  /** As long as no lock session is lost, migration() is exclusive: crashes, timeouts and retries do not matter. */
  lemma ExclusiveWithoutLoss(l: Limits, worlds: seq<World>, events: seq<Event>, k: nat, p: int, q: int)
    requires Run(l, worlds, events) && k <= |events|
    requires forall j | 0 <= j < k :: !events[j].LoseSession?
    requires IsInside(worlds[k], p) && IsInside(worlds[k], q)
    ensures p == q && worlds[k].lock == Some(ByMigrator(p))
  {
    LossNeedsAnEvent(l, worlds, events, k);
    assert !IsLost(worlds[k], p) && !IsLost(worlds[k], q);
    RunStaysSound(l, worlds, events, k);
  }

  /** A migrator runs migration() at most max_attempts times, and only after failures with a retryable code. */
  lemma AttemptsAreBounded(l: Limits, worlds: seq<World>, events: seq<Event>, k: nat, p: int)
    requires Run(l, worlds, events) && k <= |events| && p in worlds[k].migrators
    ensures var m := worlds[k].migrators[p];
      && m.runs <= l.maxAttempts && |m.raised| <= l.maxAttempts
      && (forall j | 0 <= j < |m.raised| - 1 :: Retryable(m.raised[j]))
      && (m.phase == Failed ==> m.raised != [])
      && (m.phase == Failed && |m.raised| < l.maxAttempts ==> !Retryable(m.raised[|m.raised| - 1]))
      && (m.phase == Succeeded ==> forall c | c in m.raised :: Retryable(c))
  {
    RunStaysSound(l, worlds, events, k);
    assert AttemptsTell(l, worlds[k].migrators[p]);
  }

  /** How the attempts of a migrator ended, read off the codes it has raised. */
  function AttemptsOf(m: Migrator): nat -> Attempt {
    (k: nat) => if 1 <= k <= |m.raised| then Raised(m.raised[k - 1]) else Returned
  }

  /**
   * The interleaved migrators run the attempt loop: one that has succeeded or failed stopped at the attempt at which
   * RunAttempts stops on the same outcomes, and it has succeeded exactly when that attempt returned.
   */
  lemma MigratorsRunTheLoop(l: Limits, worlds: seq<World>, events: seq<Event>, k: nat, p: int)
    requires Run(l, worlds, events) && k <= |events| && p in worlds[k].migrators
    requires worlds[k].migrators[p].phase in {Succeeded, Failed}
    ensures var m := worlds[k].migrators[p];
      && EndsAt(l.maxAttempts, AttemptsOf(m), m.attempt)
      && (m.phase == Succeeded <==> AttemptsOf(m)(m.attempt) == Returned)
  {
    RunStaysSound(l, worlds, events, k);
    assert AttemptsTell(l, worlds[k].migrators[p]);
  }

  // ---- success ---------------------------------------------------------

  /** Migrator p passed the ready check at step i and has held the lock from then until k. */
  ghost predicate CheckedSince(l: Limits, worlds: seq<World>, events: seq<Event>, p: int, i: nat, k: nat) {
    && |worlds| == |events| + 1 && i < k <= |events|
    && events[i] == Check(p) && Ready(l.expected, worlds[i].db)
    && forall j | i <= j <= k :: worlds[j].lock == Some(ByMigrator(p))
  }

  lemma {:induction false} CheckedMeans(l: Limits, worlds: seq<World>, events: seq<Event>, k: nat, p: int)
      returns (i: nat)
    requires Run(l, worlds, events) && k <= |events| && IsInside(worlds[k], p)
    requires worlds[k].migrators[p].phase == Checked && worlds[k].lock == Some(ByMigrator(p))
    ensures CheckedSince(l, worlds, events, p, i, k)
  {
    hide AttemptsTell, Ready;
    assert k > 0;
    var w, e := worlds[k - 1], events[k - 1];
    RunStaysSound(l, worlds, events, k - 1);
    RunStaysSound(l, worlds, events, k);
    assert worlds[k] == Next(l, w, e) && Possible(l, w, e);
    if e == Check(p) {
      i := k - 1;
    } else {
      i := CheckedMeans(l, worlds, events, k - 1, p);
    }
  }

  /** Success was returned only after a ready check that passed under the lock, held from the check to the return. */
  lemma {:induction false} SuccessWasChecked(l: Limits, worlds: seq<World>, events: seq<Event>, n: nat, p: int)
      returns (i: nat, k: nat)
    requires Run(l, worlds, events) && n <= |events|
    requires p in worlds[n].migrators && worlds[n].migrators[p].phase == Succeeded
    ensures k < n && events[k] == Finish(p) && CheckedSince(l, worlds, events, p, i, k)
  {
    assert n > 0;
    assert worlds[n] == Next(l, worlds[n - 1], events[n - 1]) && Possible(l, worlds[n - 1], events[n - 1]);
    if events[n - 1] == Finish(p) {
      k := n - 1;
      i := CheckedMeans(l, worlds, events, k, p);
    } else {
      i, k := SuccessWasChecked(l, worlds, events, n - 1, p);
    }
  }

  // ---- services --------------------------------------------------------

  /** Service s probed the lock at step i, got it, and has not looked at the schema yet. */
  ghost predicate ProbedAt(worlds: seq<World>, events: seq<Event>, s: int, i: nat, k: nat) {
    && |worlds| == |events| + 1 && i < k <= |events|
    && events[i] == ProbeDone(s) && worlds[i].lock == Some(ByService(s))
    && forall j | i < j < k :: events[j] != ProbeDone(s)
  }

  lemma {:induction false} QuietMeans(l: Limits, worlds: seq<World>, events: seq<Event>, k: nat, s: int)
      returns (i: nat)
    requires Run(l, worlds, events) && k <= |events| && s in worlds[k].services && worlds[k].services[s] == Quiet
    ensures ProbedAt(worlds, events, s, i, k)
  {
    hide AttemptsTell, Ready;
    assert k > 0;
    RunStaysSound(l, worlds, events, k - 1);
    assert worlds[k] == Next(l, worlds[k - 1], events[k - 1]) && Possible(l, worlds[k - 1], events[k - 1]);
    if events[k - 1] == ProbeDone(s) {
      i := k - 1;
    } else {
      i := QuietMeans(l, worlds, events, k - 1, s);
    }
  }

  /**
   * A service is told READY only by a status check that found the required tables and the expected version
   * committed, after a probe during which nobody with a live session was migrating.
   */
  lemma {:induction false} ServingWasReady(l: Limits, worlds: seq<World>, events: seq<Event>, n: nat, s: int)
      returns (i: nat, k: nat)
    requires Run(l, worlds, events) && n <= |events|
    requires s in worlds[n].services && worlds[n].services[s] == Serving
    ensures k < n && events[k] == Status(s) && Ready(l.expected, worlds[k].db)
    ensures ProbedAt(worlds, events, s, i, k)
    ensures forall p :: IsInside(worlds[i], p) ==> IsLost(worlds[i], p)
  {
    assert n > 0;
    assert worlds[n] == Next(l, worlds[n - 1], events[n - 1]) && Possible(l, worlds[n - 1], events[n - 1]);
    if events[n - 1] == Status(s) && worlds[n - 1].services[s] == Quiet {
      k := n - 1;
      i := QuietMeans(l, worlds, events, k, s);
      RunStaysSound(l, worlds, events, i);
    } else {
      i, k := ServingWasReady(l, worlds, events, n - 1, s);
    }
  }

  lemma NobodyEnters(l: Limits, w: World, e: Event)
    requires NobodyInside(w) && Possible(l, w, e) && !e.TakeLock?
    ensures Next(l, w, e).db == w.db && NobodyInside(Next(l, w, e))
  {
    var v := Next(l, w, e);
    forall p | p in v.migrators ensures !IsInside(v, p) {
      assert !IsInside(w, p);
    }
  }

  /** With nobody inside and nobody entering, the committed schema stands still. */
  lemma {:induction false} SchemaStandsStill(l: Limits, worlds: seq<World>, events: seq<Event>, i: nat, n: nat)
    requires Run(l, worlds, events) && i <= n <= |events|
    requires NobodyInside(worlds[i])
    requires forall j | i <= j < n :: !events[j].TakeLock?
    ensures worlds[n].db == worlds[i].db && NobodyInside(worlds[n])
  {
    if i < n {
      SchemaStandsStill(l, worlds, events, i, n - 1);
      NobodyEnters(l, worlds[n - 1], events[n - 1]);
    }
  }

  /** Migrator p is done with migration(), for better or worse. */
  predicate Leaves(e: Event, p: int) { e == Finish(p) || e == Crash(p) || (e.Raise? && e.p == p) }

  /** From step i on p took the lock, and has not left since. */
  ghost predicate EnteredSince(events: seq<Event>, p: int, i: nat, k: nat)
    requires k <= |events|
  {
    exists j | i <= j < k :: events[j] == TakeLock(p) && forall m | j < m < k :: !Leaves(events[m], p)
  }

  lemma NotEnteredYet(events: seq<Event>, p: int, i: nat)
    requires i <= |events|
    ensures !EnteredSince(events, p, i, i)
  {
  }

  lemma EnteredStep(events: seq<Event>, p: int, i: nat, k: nat)
    requires i <= k < |events|
    ensures EnteredSince(events, p, i, k + 1)
            <==> events[k] == TakeLock(p) || (EnteredSince(events, p, i, k) && !Leaves(events[k], p))
  {
    if EnteredSince(events, p, i, k) && !Leaves(events[k], p) {
      var j :| i <= j < k && events[j] == TakeLock(p) && forall m | j < m < k :: !Leaves(events[m], p);
      assert forall m | j < m < k + 1 :: !Leaves(events[m], p);
    }
    if EnteredSince(events, p, i, k + 1) {
      var j :| i <= j < k + 1 && events[j] == TakeLock(p) && forall m | j < m < k + 1 :: !Leaves(events[m], p);
      assert j < k ==> forall m | j < m < k :: !Leaves(events[m], p);
    }
  }

  lemma InsideStep(l: Limits, w: World, e: Event, p: int)
    requires Possible(l, w, e)
    ensures IsInside(Next(l, w, e), p) <==> e == TakeLock(p) || (IsInside(w, p) && !Leaves(e, p))
  {
  }

  /** A process that was outside at step i is inside at step k exactly when it entered in between and did not leave. */
  lemma {:induction false} InsideExactly(l: Limits, worlds: seq<World>, events: seq<Event>, p: int, i: nat, k: nat)
    requires Run(l, worlds, events) && i <= k <= |events| && !IsInside(worlds[i], p)
    ensures IsInside(worlds[k], p) <==> EnteredSince(events, p, i, k)
  {
    hide Possible, Next, EnteredSince, IsInside, Start;
    if i == k {
      NotEnteredYet(events, p, i);
    } else {
      InsideExactly(l, worlds, events, p, i, k - 1);
      InsideStep(l, worlds[k - 1], events[k - 1], p);
      EnteredStep(events, p, i, k - 1);
    }
  }

  lemma OutsideAtProbe(l: Limits, worlds: seq<World>, events: seq<Event>, s: int, i: nat, k: nat, p: int)
    requires Run(l, worlds, events) && ProbedAt(worlds, events, s, i, k)
    requires forall j | 0 <= j < i :: !events[j].LoseSession?
    ensures !IsInside(worlds[i], p)
  {
    RunStaysSound(l, worlds, events, i);
    LossNeedsAnEvent(l, worlds, events, i);
    assert p in worlds[i].migrators ==> !IsLost(worlds[i], p);
  }

  /**
   * If no lock session was lost before the service's last probe, a process is inside migration() at the service's
   * status check exactly when it took the lock after that probe and has not finished, raised or crashed since. So the
   * service starts with nobody inside exactly when there is no such process.
   */
  lemma OverlapExactly(l: Limits, worlds: seq<World>, events: seq<Event>, k: nat, s: int) returns (i: nat)
    requires Run(l, worlds, events) && k < |events| && events[k] == Status(s)
    ensures ProbedAt(worlds, events, s, i, k)
    ensures (forall j | 0 <= j < i :: !events[j].LoseSession?) ==>
              && (forall p :: IsInside(worlds[k], p) <==> EnteredSince(events, p, i, k))
              && (NobodyInside(worlds[k]) <==> forall p :: !EnteredSince(events, p, i, k))
  {
    assert Possible(l, worlds[k], events[k]);
    i := QuietMeans(l, worlds, events, k, s);
    if forall j | 0 <= j < i :: !events[j].LoseSession? {
      forall p ensures IsInside(worlds[k], p) <==> EnteredSince(events, p, i, k) {
        OutsideAtProbe(l, worlds, events, s, i, k, p);
        InsideExactly(l, worlds, events, p, i, k);
      }
      hide EnteredSince, Run;
    }
  }

  /** The gap is real: a run without any loss in which a service is told READY while migration() is running. */
  lemma ServingDuringMigration(l: Limits) returns (worlds: seq<World>, events: seq<Event>)
    requires l.maxAttempts >= 1
    ensures Run(l, worlds, events) && forall j | 0 <= j < |events| :: !events[j].LoseSession?
    ensures var w := worlds[|events|];
      IsInside(w, 0) && 0 in w.services && w.services[0] == Serving
  {
    var ready := Schema(REQUIRED_TABLES, {l.expected});
    events := [Probe(0), ProbeDone(0), TakeLock(0), Commit(0, ready), Status(0)];
    var w0 := World(None, Schema({}, {}), map[0 := Migrator(Waiting, 1, 0, [], false)], map[0 := Polling]);
    var w1 := Next(l, w0, Probe(0));
    var w2 := Next(l, w1, ProbeDone(0));
    var w3 := Next(l, w2, TakeLock(0));
    var w4 := Next(l, w3, Commit(0, ready));
    assert Ready(l.expected, ready) by {
      assert l.expected in ready.versions;
    }
    hide Ready;
    var w5 := Next(l, w4, Status(0));
    worlds := [w0, w1, w2, w3, w4, w5];
  }

  /** Losing the lock's session does break exclusion: the process goes on and a second one enters. */
  lemma TwoInsideAfterLoss(l: Limits) returns (worlds: seq<World>, events: seq<Event>)
    requires l.maxAttempts >= 1
    ensures Run(l, worlds, events)
    ensures IsInside(worlds[|events|], 0) && IsInside(worlds[|events|], 1)
  {
    var starting := Migrator(Waiting, 1, 0, [], false);
    events := [TakeLock(0), LoseSession(0), TakeLock(1)];
    var w0 := World(None, Schema({}, {}), map[0 := starting, 1 := starting], map[]);
    var w1 := Next(l, w0, TakeLock(0));
    var w2 := Next(l, w1, LoseSession(0));
    var w3 := Next(l, w2, TakeLock(1));
    worlds := [w0, w1, w2, w3];
  }
}
