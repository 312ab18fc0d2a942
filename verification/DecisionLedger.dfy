// Request claims and the write-once decision ledger of services/ai_trading.py,
// and analyze_signal as a worker that interleaves with others over them.
// Every connection block of the source is one step.
module DecisionLedger {
  import opened Common

  // ---- keys ------------------------------------------------------------

  /** The facts that both checksums are taken over. A key stands for its hash, which is assumed injective. */
  datatype Context = Context(signalId: int, market: string, features: string)

  datatype Key = Key(context: Context, identity: string)

  /** The response fields that the saved key depends on. */
  datatype Response = Response(identity: Option<string>, provider: string)

  /** _decorate_response: the caller's identity replaces whatever the provider reported. */
  function Decorate(r: Response, identity: string): Response { r.(identity := Some(identity)) }

  function RequestKey(c: Context, identity: string): Key { Key(c, identity) }

  /** The key that save() computes: the identity if it is a non-empty string, else the provider's name. */
  function SaveKey(c: Context, r: Response): Key {
    Key(c, if r.identity.Some? && r.identity.value != "" then r.identity.value else r.provider)
  }

  /** The ways in which analyze_signal arrives at save(). */
  datatype Path =
    | CacheReuse(cachedProvider: string)
    | NotInvoked                          // blocked, disabled, stale context or open circuit
    | Answered(answer: Response)          // also when validation fails afterwards
    | ProviderFailed                      // timeout, transport or provider error, or any other exception

  /** The response that reaches save() along a path, given the provider's name and the caller's identity. */
  function SavedResponse(path: Path, provider: string, identity: string): Response {
    var base := Decorate(Response(None, provider), identity);
    match path
    case CacheReuse(p) => base.(provider := p)
    case NotInvoked => base
    case Answered(answer) => Decorate(answer, identity)
    case ProviderFailed => base
  }

  /** On every path the key saved under is the key claimed, exactly when the identity is not the empty string
      (or the provider happens to be nameless as well). */
  lemma SavedUnderClaimedKey(c: Context, path: Path, provider: string, identity: string)
    ensures var r := SavedResponse(path, provider, identity);
      SaveKey(c, r) == RequestKey(c, identity) <==> identity != "" || r.provider == ""
  {
  }

  // ---- the tables ------------------------------------------------------

  datatype Row = Row(key: Key, content: string)

  function Lookup(decisions: seq<Row>, key: Key): (r: Option<Row>)
    ensures r.Some? ==> r.value in decisions && r.value.key == key
    ensures r.None? ==> forall d | d in decisions :: d.key != key
  {
    if decisions == [] then None
    else if decisions[0].key == key then Some(decisions[0])
    else
      assert decisions == [decisions[0]] + decisions[1..];
      Lookup(decisions[1..], key)
  }

  /** INSERT ... ON CONFLICT DO NOTHING. */
  function Inserted(decisions: seq<Row>, row: Row): seq<Row> {
    if Lookup(decisions, row.key).Some? then decisions else decisions + [row]
  }

  /** A claim is free when there is none or when the stored one has expired. */
  predicate Claimable(claims: map<Key, int>, key: Key, now: int) { key in claims ==> claims[key] <= now }

  lemma {:induction false} LookupAppended(decisions: seq<Row>, row: Row)
    requires Lookup(decisions, row.key).None?
    ensures Lookup(decisions + [row], row.key) == Some(row)
  {
    if decisions != [] {
      assert (decisions + [row])[1..] == decisions[1..] + [row];
      LookupAppended(decisions[1..], row);
    }
  }

  class Ledger {
    var decisions: seq<Row>
    var claims: map<Key, int>

    constructor ()
      ensures decisions == [] && claims == map[]
    {
      decisions := [];
      claims := map[];
    }

    method ByIdempotency(key: Key) returns (r: Option<Row>)
      ensures r == Lookup(decisions, key)
    {
      var i := 0;
      while i < |decisions|
        invariant i <= |decisions| && Lookup(decisions, key) == Lookup(decisions[i..], key)
      {
        if decisions[i].key == key {
          return Some(decisions[i]);
        }
        i := i + 1;
      }
      r := None;
    }

    method Claim(key: Key, now: int, expires: int) returns (claimed: bool)
      modifies this
      ensures decisions == old(decisions) && claimed == Claimable(old(claims), key, now)
      ensures claims == if claimed then old(claims)[key := expires] else old(claims)
    {
      claimed := key !in claims || claims[key] <= now;
      if claimed {
        claims := claims[key := expires];
      }
    }

    /** _release_claim deletes the claim whoever holds it. */
    method ReleaseClaim(key: Key)
      modifies this
      ensures decisions == old(decisions) && claims == old(claims) - {key}
    {
      claims := claims - {key};
    }

    method Save(row: Row) returns (stored: Row, created: bool)
      modifies this
      ensures claims == old(claims) && decisions == Inserted(old(decisions), row)
      ensures Lookup(decisions, row.key) == Some(stored)
      ensures created <==> Lookup(old(decisions), row.key).None?
    {
      var existing := ByIdempotency(row.key);
      created := existing.None?;
      if created {
        LookupAppended(decisions, row);
        decisions := decisions + [row];
        stored := row;
      } else {
        stored := existing.value;
      }
    }
  }

  lemma {:induction false} LookupKept(decisions: seq<Row>, row: Row, key: Key)
    requires Lookup(decisions, key).Some?
    ensures Lookup(decisions + [row], key) == Lookup(decisions, key)
  {
    if decisions[0].key != key {
      assert (decisions + [row])[1..] == decisions[1..] + [row];
      LookupKept(decisions[1..], row, key);
    } else {
      assert (decisions + [row])[0] == decisions[0];
    }
  }

  // ---- workers ---------------------------------------------------------

  datatype Call = Call(context: Context, provider: string, identity: string) {
    function Claimed(): Key { RequestKey(context, identity) }
  }

  /** Where one analyze_signal call stands. */
  datatype Stage =
    | Checking                            // about to look for an existing decision
    | Claiming                            // found none; about to claim
    | Suppressed                          // somebody else holds the claim
    | Working(expires: int)               // holds, or held, the claim
    | Saving(expires: int, row: Row)
    | Releasing(expires: int, stored: Row)

  datatype Worker = Worker(call: Call, stage: Stage)

  type Id = nat

  /** `returned` is the history of results handed to callers. */
  datatype World = World(
    now: int, decisions: seq<Row>, claims: map<Key, int>, workers: map<Id, Worker>, returned: seq<(Key, Option<Row>)>)

  datatype Event =
    | Begin(id: Id, call: Call)
    | Check(id: Id)
    | Claim(id: Id, hold: nat)
    | AnswerSuppressed(id: Id)
    | Produce(id: Id, path: Path, content: string)
    | Save(id: Id)
    | Release(id: Id)
    | CancelRequest(id: Id)               // releases the claim and raises
    | Crash(id: Id)                       // leaves everything as it is
    | Tick(now: int)

  const INITIAL := World(0, [], map[], map[], [])

  function Finish(w: World, id: Id, r: Option<Row>): World
    requires id in w.workers
  { w.(workers := w.workers - {id}, returned := w.returned + [(w.workers[id].call.Claimed(), r)]) }

  function Move(w: World, id: Id, stage: Stage): World
    requires id in w.workers
  { w.(workers := w.workers[id := w.workers[id].(stage := stage)]) }

  /** The world after an event, or None when the event cannot happen. */
  function Next(w: World, e: Event): Option<World> {
    if e.Tick? then if e.now >= w.now then Some(w.(now := e.now)) else None
    else if e.Begin? then
      if e.id in w.workers || e.call.identity == "" then None
      else Some(w.(workers := w.workers[e.id := Worker(e.call, Checking)]))
    else if e.id !in w.workers then None
    else
      var key, stage := w.workers[e.id].call.Claimed(), w.workers[e.id].stage;
      match e
      case Check(id) =>
        if !stage.Checking? then None
        else
          var existing := Lookup(w.decisions, key);
          Some(if existing.Some? then Finish(w, id, existing) else Move(w, id, Claiming))
      case Claim(id, hold) =>
        if !stage.Claiming? then None
        else if Claimable(w.claims, key, w.now) then
          Some(Move(w.(claims := w.claims[key := w.now + hold]), id, Working(w.now + hold)))
        else Some(Move(w, id, Suppressed))
      case AnswerSuppressed(id) =>
        if !stage.Suppressed? then None else Some(Finish(w, id, Lookup(w.decisions, key)))
      case Produce(id, path, content) =>
        if !stage.Working? then None
        else
          var call := w.workers[id].call;
          var response := SavedResponse(path, call.provider, call.identity);
          Some(Move(w, id, Saving(stage.expires, Row(SaveKey(call.context, response), content))))
      case Save(id) =>
        if !stage.Saving? then None
        else
          var saved := Inserted(w.decisions, stage.row);
          var stored := Lookup(saved, stage.row.key);
          if stored.None? then None
          else Some(Move(w.(decisions := saved), id, Releasing(stage.expires, stored.value)))
      case Release(id) =>
        if !stage.Releasing? then None
        else Some(Finish(w.(claims := w.claims - {key}), id, Some(stage.stored)))
      case CancelRequest(id) =>
        if !stage.Working? then None
        else Some(w.(claims := w.claims - {key}, workers := w.workers - {id}))
      case Crash(id) => Some(w.(workers := w.workers - {id}))
  }

  function RunFrom(w: World, events: seq<Event>): Option<World> {
    if events == [] then Some(w)
    else
      var before := RunFrom(w, events[..|events| - 1]);
      if before.None? then None else Next(before.value, events[|events| - 1])
  }

  ghost predicate Reachable(w: World) { exists events :: RunFrom(INITIAL, events) == Some(w) }

  // ---- write once ------------------------------------------------------

  ghost predicate OneRowPerKey(decisions: seq<Row>) {
    forall i, j | 0 <= i < j < |decisions| :: decisions[i].key != decisions[j].key
  }

  ghost predicate Sound(w: World) {
    && OneRowPerKey(w.decisions)
    && (forall r | r in w.returned && r.1.Some? :: Lookup(w.decisions, r.0) == r.1)
    && (forall id | id in w.workers && w.workers[id].stage.Saving? ::
          w.workers[id].stage.row.key == w.workers[id].call.Claimed())
    && (forall id | id in w.workers && w.workers[id].stage.Releasing? ::
          Lookup(w.decisions, w.workers[id].call.Claimed()) == Some(w.workers[id].stage.stored))
    && (forall id | id in w.workers :: w.workers[id].call.identity != "")
  }

  /** No step ever changes a stored decision. */
  ghost predicate Preserved(before: seq<Row>, after: seq<Row>) {
    before <= after && forall k: Key | Lookup(before, k).Some? :: Lookup(after, k) == Lookup(before, k)
  }

  lemma InsertPreserves(decisions: seq<Row>, row: Row)
    requires OneRowPerKey(decisions)
    ensures OneRowPerKey(Inserted(decisions, row)) && Preserved(decisions, Inserted(decisions, row))
    ensures Lookup(Inserted(decisions, row), row.key).Some?
  {
    if Lookup(decisions, row.key).None? {
      LookupAppended(decisions, row);
      forall k: Key | Lookup(decisions, k).Some? ensures Lookup(decisions + [row], k) == Lookup(decisions, k) {
        LookupKept(decisions, row, k);
      }
    }
  }

  lemma NextStaysSound(w: World, e: Event)
    requires Sound(w) && Next(w, e).Some?
    ensures Sound(Next(w, e).value) && Preserved(w.decisions, Next(w, e).value.decisions)
    ensures w.returned <= Next(w, e).value.returned
  {
    if e.Save? {
      InsertPreserves(w.decisions, w.workers[e.id].stage.row);
    } else if e.Produce? {
      var call := w.workers[e.id].call;
      SavedUnderClaimedKey(call.context, e.path, call.provider, call.identity);
    }
  }

  lemma {:induction false} RunStaysSound(w: World, events: seq<Event>)
    requires Sound(w) && RunFrom(w, events).Some?
    ensures Sound(RunFrom(w, events).value) && Preserved(w.decisions, RunFrom(w, events).value.decisions)
  {
    if events != [] {
      var before := RunFrom(w, events[..|events| - 1]).value;
      RunStaysSound(w, events[..|events| - 1]);
      NextStaysSound(before, events[|events| - 1]);
    }
  }

  /**
   * Under any interleaving of workers, claim expiries, cancellations and crashes: the ledger holds at most one row
   * per key, and all calls for one key that return a decision return that same row.
   */
  lemma WriteOnce(w: World)
    requires Reachable(w)
    ensures OneRowPerKey(w.decisions)
    ensures forall r | r in w.returned && r.1.Some? :: r.1.value in w.decisions && r.1.value.key == r.0
    ensures forall r, q | r in w.returned && q in w.returned && r.0 == q.0 && r.1.Some? && q.1.Some? :: r == q
  {
    var events :| RunFrom(INITIAL, events) == Some(w);
    RunStaysSound(INITIAL, events);
  }

  /** A decision once stored is what every later look-up of its key finds, however the run continues. */
  lemma DecisionsNeverChange(w: World, events: seq<Event>, key: Key)
    requires Reachable(w) && RunFrom(w, events).Some? && Lookup(w.decisions, key).Some?
    ensures Lookup(RunFrom(w, events).value.decisions, key) == Lookup(w.decisions, key)
  {
    var history :| RunFrom(INITIAL, history) == Some(w);
    RunStaysSound(INITIAL, history);
    RunStaysSound(w, events);
  }

  // ---- claim exclusion -------------------------------------------------

  predicate Active(s: Stage) { s.Working? || s.Saving? || s.Releasing? }

  /** Worker id is between its claim and its release, on this key. */
  predicate ActiveOn(w: World, id: Id, key: Key) {
    id in w.workers && Active(w.workers[id].stage) && w.workers[id].call.Claimed() == key
  }

  /** No worker outlives its own claim. */
  ghost predicate OnTime(w: World) {
    forall id | id in w.workers && Active(w.workers[id].stage) :: w.now < w.workers[id].stage.expires
  }

  ghost predicate Exclusive(w: World) {
    forall i, j | i in w.workers && ActiveOn(w, j, w.workers[i].call.Claimed()) && Active(w.workers[i].stage) :: i == j
  }

  /** Every active worker still owns the claim that was written for it. */
  ghost predicate ClaimsHeld(w: World) {
    && Exclusive(w)
    && forall id | id in w.workers && Active(w.workers[id].stage) ::
         var k := w.workers[id].call.Claimed();
         k in w.claims && w.claims[k] == w.workers[id].stage.expires
  }

  /** The acting worker shares its key with no other active worker, and cannot claim a key that one holds. */
  lemma ActorIsAlone(w: World, e: Event, i: Id)
    requires ClaimsHeld(w) && OnTime(w) && Next(w, e).Some? && !e.Tick? && e.id in w.workers
    requires ActiveOn(w, i, w.workers[e.id].call.Claimed()) && i != e.id
    ensures !Active(w.workers[e.id].stage)
    ensures e.Claim? ==> Next(w, e).value.claims == w.claims && !Active(Next(w, e).value.workers[e.id].stage)
  {
  }

  lemma OthersUnchanged(w: World, e: Event, i: Id)
    requires Next(w, e).Some? && !e.Tick? && i != e.id
    ensures i in Next(w, e).value.workers <==> i in w.workers
    ensures i in w.workers ==> Next(w, e).value.workers[i] == w.workers[i]
  {
  }

  /** Two workers active on one key after a step would have been so before it. */
  lemma NextStaysExclusive(w: World, e: Event, i: Id, j: Id)
    requires ClaimsHeld(w) && OnTime(w) && Next(w, e).Some?
    requires var after := Next(w, e).value;
      i in after.workers && Active(after.workers[i].stage) && ActiveOn(after, j, after.workers[i].call.Claimed())
    ensures i == j
  {
    if e.Tick? {
      assert ActiveOn(w, j, w.workers[i].call.Claimed());
    } else if i != j {
      if i != e.id { OthersUnchanged(w, e, i); }
      if j != e.id { OthersUnchanged(w, e, j); }
      if i == e.id {
        ActorIsAlone(w, e, j);
      } else if j == e.id {
        ActorIsAlone(w, e, i);
      } else {
        assert ActiveOn(w, j, w.workers[i].call.Claimed());
      }
    }
  }

  lemma NextKeepsClaims(w: World, e: Event)
    requires ClaimsHeld(w) && OnTime(w) && Next(w, e).Some?
    ensures ClaimsHeld(Next(w, e).value)
  {
    var after := Next(w, e).value;
    forall i, j |
      i in after.workers && Active(after.workers[i].stage) && ActiveOn(after, j, after.workers[i].call.Claimed())
      ensures i == j
    {
      NextStaysExclusive(w, e, i, j);
    }
    if !e.Tick? {
      forall i | i in after.workers && Active(after.workers[i].stage)
        ensures var k := after.workers[i].call.Claimed();
          k in after.claims && after.claims[k] == after.workers[i].stage.expires
      {
        if i != e.id {
          OthersUnchanged(w, e, i);
          if !e.Begin? && ActiveOn(w, i, w.workers[e.id].call.Claimed()) {
            ActorIsAlone(w, e, i);
          }
        }
      }
    }
  }

  /** Every state of the run satisfies OnTime. */
  ghost predicate TimelyRun(w: World, events: seq<Event>) {
    forall n | 0 <= n <= |events| :: RunFrom(w, events[..n]).Some? && OnTime(RunFrom(w, events[..n]).value)
  }

  /** If no worker outlives its claim, at most one worker per key is between claim and release at any time. */
  lemma {:induction false} TimelyRunIsExclusive(events: seq<Event>)
    requires TimelyRun(INITIAL, events)
    ensures RunFrom(INITIAL, events).Some? && ClaimsHeld(RunFrom(INITIAL, events).value)
  {
    assert events[..|events|] == events;
    if events != [] {
      var init := events[..|events| - 1];
      forall n | 0 <= n <= |init|
        ensures RunFrom(INITIAL, init[..n]).Some? && OnTime(RunFrom(INITIAL, init[..n]).value)
      {
        assert init[..n] == events[..n];
      }
      TimelyRunIsExclusive(init);
      assert init[..|init|] == init;
      NextKeepsClaims(RunFrom(INITIAL, init).value, events[|events| - 1]);
    }
  }

  // ---- one call without interference -----------------------------------

  lemma RunAppend(w: World, events: seq<Event>, e: Event)
    requires RunFrom(w, events).Some?
    ensures RunFrom(w, events + [e]) == Next(RunFrom(w, events).value, e)
  {
    assert (events + [e])[..|events|] == events;
  }

  lemma CallArrives(w: World, id: Id, call: Call)
    requires id !in w.workers && call.identity != ""
    ensures RunFrom(w, [Begin(id, call)]) == Some(w.(workers := w.workers[id := Worker(call, Checking)]))
  {
    RunAppend(w, [], Begin(id, call));
    assert [] + [Begin(id, call)] == [Begin(id, call)];
  }

  lemma WorkerMoved(w: World, id: Id, a: Worker, b: Worker)
    ensures w.workers[id := a][id := b] == w.workers[id := b]
  {
  }

  lemma WorkerGone(w: World, id: Id, a: Worker)
    requires id !in w.workers
    ensures w.workers[id := a] - {id} == w.workers
  {
  }

  /** A call for a decided key returns that decision and touches neither table. */
  lemma DecidedCallReturnsDecision(w: World, id: Id, call: Call)
    requires id !in w.workers && call.identity != "" && Lookup(w.decisions, call.Claimed()).Some?
    ensures RunFrom(w, [Begin(id, call), Check(id)])
            == Some(w.(returned := w.returned + [(call.Claimed(), Lookup(w.decisions, call.Claimed()))]))
  {
    CallArrives(w, id, call);
    RunAppend(w, [Begin(id, call)], Check(id));
    assert [Begin(id, call)] + [Check(id)] == [Begin(id, call), Check(id)];
    WorkerGone(w, id, Worker(call, Checking));
  }

  lemma CallClaims(w: World, id: Id, call: Call, hold: nat)
    requires id !in w.workers && call.identity != "" && Lookup(w.decisions, call.Claimed()).None?
    ensures var free := Claimable(w.claims, call.Claimed(), w.now);
      RunFrom(w, [Begin(id, call), Check(id), Claim(id, hold)])
      == Some(w.(claims := if free then w.claims[call.Claimed() := w.now + hold] else w.claims,
                 workers := w.workers[id := Worker(call, if free then Working(w.now + hold) else Suppressed)]))
  {
    CallArrives(w, id, call);
    RunAppend(w, [Begin(id, call)], Check(id));
    assert [Begin(id, call)] + [Check(id)] == [Begin(id, call), Check(id)];
    WorkerMoved(w, id, Worker(call, Checking), Worker(call, Claiming));
    WorkerMoved(w, id, Worker(call, Claiming), Worker(call, Working(w.now + hold)));
    WorkerMoved(w, id, Worker(call, Claiming), Worker(call, Suppressed));
    RunAppend(w, [Begin(id, call), Check(id)], Claim(id, hold));
    assert [Begin(id, call), Check(id)] + [Claim(id, hold)] == [Begin(id, call), Check(id), Claim(id, hold)];
  }

  /** A call for an undecided key that somebody holds returns nothing and touches neither table. */
  lemma SuppressedCallReturnsNothing(w: World, id: Id, call: Call, hold: nat)
    requires id !in w.workers && call.identity != "" && Lookup(w.decisions, call.Claimed()).None?
    requires !Claimable(w.claims, call.Claimed(), w.now)
    ensures RunFrom(w, [Begin(id, call), Check(id), Claim(id, hold), AnswerSuppressed(id)])
            == Some(w.(returned := w.returned + [(call.Claimed(), None)]))
  {
    var events := [Begin(id, call), Check(id), Claim(id, hold)];
    CallClaims(w, id, call, hold);
    hide RunFrom;
    RunAppend(w, events, AnswerSuppressed(id));
    assert events + [AnswerSuppressed(id)] == [Begin(id, call), Check(id), Claim(id, hold), AnswerSuppressed(id)];
    WorkerGone(w, id, Worker(call, Suppressed));
  }

  lemma ProduceStep(w: World, id: Id, call: Call, path: Path, content: string, until: int)
    requires id in w.workers && w.workers[id] == Worker(call, Working(until)) && call.identity != ""
    ensures Next(w, Produce(id, path, content))
            == Some(Move(w, id, Saving(until, Row(call.Claimed(), content))))
  {
    SavedUnderClaimedKey(call.context, path, call.provider, call.identity);
  }

  lemma SaveStep(w: World, id: Id, call: Call, row: Row, until: int)
    requires id in w.workers && w.workers[id] == Worker(call, Saving(until, row))
    requires Lookup(w.decisions, row.key).None?
    ensures Next(w, Save(id)) == Some(Move(w.(decisions := w.decisions + [row]), id, Releasing(until, row)))
  {
    LookupAppended(w.decisions, row);
  }

  lemma ReleaseStep(w: World, id: Id, call: Call, row: Row, until: int)
    requires id in w.workers && w.workers[id] == Worker(call, Releasing(until, row)) && row.key == call.Claimed()
    ensures Next(w, Release(id))
            == Some(w.(claims := w.claims - {row.key}, workers := w.workers - {id},
                       returned := w.returned + [(row.key, Some(row))]))
  {
  }

  /** The steps of a call up to its claim, then those of a call that goes on to decide. */
  function Opening(id: Id, call: Call, hold: nat): seq<Event> { [Begin(id, call), Check(id), Claim(id, hold)] }

  function Deciding(id: Id, call: Call, hold: nat, path: Path, content: string): seq<Event> {
    Opening(id, call, hold) + [Produce(id, path, content)] + [Save(id)]
  }

  lemma FreshCallSaves(w: World, id: Id, call: Call, hold: nat, path: Path, content: string)
    requires id !in w.workers && call.identity != "" && Lookup(w.decisions, call.Claimed()).None?
    requires Claimable(w.claims, call.Claimed(), w.now)
    ensures var row, until := Row(call.Claimed(), content), w.now + hold;
      RunFrom(w, Deciding(id, call, hold, path, content))
      == Some(w.(decisions := w.decisions + [row], claims := w.claims[row.key := until],
                 workers := w.workers[id := Worker(call, Releasing(until, row))]))
  {
    var row, until := Row(call.Claimed(), content), w.now + hold;
    var claimed := w.(claims := w.claims[row.key := until], workers := w.workers[id := Worker(call, Working(until))]);
    var produced := Move(claimed, id, Saving(until, row));
    CallClaims(w, id, call, hold);
    hide RunFrom, Next, Lookup, Claimable;
    ProduceStep(claimed, id, call, path, content, until);
    RunAppend(w, Opening(id, call, hold), Produce(id, path, content));
    SaveStep(produced, id, call, row, until);
    RunAppend(w, Opening(id, call, hold) + [Produce(id, path, content)], Save(id));
    WorkerMoved(w, id, Worker(call, Working(until)), Worker(call, Saving(until, row)));
    WorkerMoved(w, id, Worker(call, Saving(until, row)), Worker(call, Releasing(until, row)));
  }

  /** A call for an undecided, unclaimed key stores its decision, returns it and leaves the key unclaimed. */
  lemma FreshCallDecides(w: World, id: Id, call: Call, hold: nat, path: Path, content: string)
    requires id !in w.workers && call.identity != "" && Lookup(w.decisions, call.Claimed()).None?
    requires Claimable(w.claims, call.Claimed(), w.now)
    ensures var row := Row(call.Claimed(), content);
      RunFrom(w, Deciding(id, call, hold, path, content) + [Release(id)])
      == Some(w.(decisions := w.decisions + [row], claims := w.claims - {row.key},
                 returned := w.returned + [(row.key, Some(row))]))
  {
    hide RunFrom, Next, Lookup, Claimable, Deciding;
    var row, until := Row(call.Claimed(), content), w.now + hold;
    FreshCallSaves(w, id, call, hold, path, content);
    var saved := RunFrom(w, Deciding(id, call, hold, path, content)).value;
    ReleaseStep(saved, id, call, row, until);
    RunAppend(w, Deciding(id, call, hold, path, content), Release(id));
    assert saved.workers - {id} == w.workers && saved.claims - {row.key} == w.claims - {row.key};
  }

  // ---- how long a claim has to last ------------------------------------

  /** No worker is active later than `work` after its claim, which was written for `hold`. */
  ghost predicate WithinWork(w: World, hold: nat, work: nat) {
    forall id | id in w.workers && Active(w.workers[id].stage) :: w.now <= w.workers[id].stage.expires - hold + work
  }

  /** A run in which every claim is written for `hold` and every worker is done within `work` of its claim. */
  ghost predicate BoundedRun(hold: nat, work: nat, events: seq<Event>) {
    && (forall k | 0 <= k < |events| && events[k].Claim? :: events[k].hold == hold)
    && forall n | 0 <= n <= |events| ::
         RunFrom(INITIAL, events[..n]).Some? && WithinWork(RunFrom(INITIAL, events[..n]).value, hold, work)
  }

  /** At most one worker per key is between claim and release, in every such run. */
  ghost predicate ClaimsExclusive(hold: nat, work: nat) {
    forall events | BoundedRun(hold, work, events) ::
      RunFrom(INITIAL, events).Some? && Exclusive(RunFrom(INITIAL, events).value)
  }

  predicate OnTimeWorker(w: World, id: Id) {
    id in w.workers && Active(w.workers[id].stage) && w.now < w.workers[id].stage.expires
  }

  /** Two workers on one key whose claims are both still running. */
  ghost predicate TwoOnTime(w: World) {
    exists i, j :: i != j && OnTimeWorker(w, i) && OnTimeWorker(w, j)
                   && w.workers[i].call.Claimed() == w.workers[j].call.Claimed()
  }

  /** A worker whose own claim is still running is alone on its key, in every such run. */
  ghost predicate ClaimsProtect(hold: nat, work: nat) {
    forall events | BoundedRun(hold, work, events) ::
      RunFrom(INITIAL, events).Some? && !TwoOnTime(RunFrom(INITIAL, events).value)
  }

  lemma BoundedRunIsExclusive(hold: nat, work: nat, events: seq<Event>)
    requires work < hold && BoundedRun(hold, work, events)
    ensures RunFrom(INITIAL, events).Some? && Exclusive(RunFrom(INITIAL, events).value)
  {
    hide Exclusive, RunFrom;
    TimelyRunIsExclusive(events);
  }

  lemma ExclusiveMeansNotTwo(w: World)
    requires Exclusive(w)
    ensures !TwoOnTime(w)
  {
    if TwoOnTime(w) {
      var i, j :| i != j && OnTimeWorker(w, i) && OnTimeWorker(w, j)
                  && w.workers[i].call.Claimed() == w.workers[j].call.Claimed();
      assert ActiveOn(w, j, w.workers[i].call.Claimed());
    }
  }

  /** A bounded run that ends in `w`. */
  ghost predicate LeadsTo(hold: nat, work: nat, events: seq<Event>, w: World) {
    BoundedRun(hold, work, events) && RunFrom(INITIAL, events) == Some(w)
  }

  lemma NothingHappened(hold: nat, work: nat)
    ensures LeadsTo(hold, work, [], INITIAL)
  {
  }

  lemma Extend(hold: nat, work: nat, events: seq<Event>, before: World, e: Event, after: World)
    requires LeadsTo(hold, work, events, before) && Next(before, e) == Some(after)
    requires WithinWork(after, hold, work) && (e.Claim? ==> e.hold == hold)
    ensures LeadsTo(hold, work, events + [e], after)
  {
    RunAppend(INITIAL, events, e);
    hide WithinWork, Next, RunFrom;
    var longer := events + [e];
    assert longer[..|events|] == events && longer[..|longer|] == longer;
    forall n | 0 <= n <= |longer|
      ensures RunFrom(INITIAL, longer[..n]).Some? && WithinWork(RunFrom(INITIAL, longer[..n]).value, hold, work)
    {
      if n <= |events| {
        assert longer[..n] == events[..n];
      }
    }
  }

  /** A new call that finds no decision and claims the key. */
  lemma ArriveAndClaim(hold: nat, work: nat, events: seq<Event>, w: World, id: Id, call: Call)
      returns (longer: seq<Event>, after: World)
    requires LeadsTo(hold, work, events, w) && WithinWork(w, hold, work)
    requires w.decisions == [] && id !in w.workers && call.identity != ""
    requires Claimable(w.claims, call.Claimed(), w.now)
    ensures LeadsTo(hold, work, longer, after) && WithinWork(after, hold, work)
    ensures after == w.(workers := w.workers[id := Worker(call, Working(w.now + hold))],
                        claims := w.claims[call.Claimed() := w.now + hold])
  {
    hide BoundedRun, RunFrom;
    var began := w.(workers := w.workers[id := Worker(call, Checking)]);
    Extend(hold, work, events, w, Begin(id, call), began);
    var checked := w.(workers := w.workers[id := Worker(call, Claiming)]);
    assert began.workers[id := Worker(call, Claiming)] == checked.workers;
    Extend(hold, work, events + [Begin(id, call)], began, Check(id), checked);
    after := w.(workers := w.workers[id := Worker(call, Working(w.now + hold))],
                claims := w.claims[call.Claimed() := w.now + hold]);
    assert checked.workers[id := Worker(call, Working(w.now + hold))] == after.workers;
    longer := events + [Begin(id, call)] + [Check(id)];
    Extend(hold, work, longer, checked, Claim(id, hold), after);
    longer := longer + [Claim(id, hold)];
  }

  const ANY_CALL := Call(Context(1, "market", "features"), "provider", "identity")

  /** Whatever the claim lasts, a worker that is still busy when it runs out is joined by a second one. */
  lemma LateWorkerIsJoined(hold: nat, work: nat) returns (events: seq<Event>, w: World)
    requires hold <= work
    ensures LeadsTo(hold, work, events, w) && w.now == hold && w.decisions == [] && 3 !in w.workers
    ensures w.workers == map[1 := Worker(ANY_CALL, Working(hold)), 2 := Worker(ANY_CALL, Working(hold + hold))]
    ensures w.claims == map[ANY_CALL.Claimed() := hold + hold]
    ensures !Exclusive(w)
  {
    hide BoundedRun, RunFrom;
    NothingHappened(hold, work);
    var w1;
    events, w1 := ArriveAndClaim(hold, work, [], INITIAL, 1, ANY_CALL);
    var w2 := w1.(now := hold);
    Extend(hold, work, events, w1, Tick(hold), w2);
    events := events + [Tick(hold)];
    events, w := ArriveAndClaim(hold, work, events, w2, 2, ANY_CALL);
    assert ActiveOn(w, 1, w.workers[2].call.Claimed());
  }

  /** When that worker is then cancelled it deletes its successor's claim, and a third one joins the second. */
  lemma LateReleaseBreaksExclusion(hold: nat, work: nat) returns (events: seq<Event>, w: World)
    requires 0 < hold <= work
    ensures LeadsTo(hold, work, events, w) && TwoOnTime(w)
  {
    hide BoundedRun, RunFrom;
    var w1;
    events, w1 := LateWorkerIsJoined(hold, work);
    var w2 := w1.(claims := w1.claims - {ANY_CALL.Claimed()}, workers := w1.workers - {1});
    Extend(hold, work, events, w1, CancelRequest(1), w2);
    events := events + [CancelRequest(1)];
    events, w := ArriveAndClaim(hold, work, events, w2, 3, ANY_CALL);
    assert OnTimeWorker(w, 2) && OnTimeWorker(w, 3);
  }

  /**
   * Claims keep workers apart in every run exactly when the longest working time is shorter than the claim; and a
   * claim that lasts at all protects even its punctual holder only under that same condition.
   */
  lemma ClaimsExclusiveExactly(hold: nat, work: nat)
    ensures ClaimsExclusive(hold, work) <==> work < hold
    ensures hold > 0 ==> (ClaimsProtect(hold, work) <==> work < hold)
  {
    hide BoundedRun, RunFrom, Exclusive, TwoOnTime;
    if work < hold {
      forall events | BoundedRun(hold, work, events)
        ensures RunFrom(INITIAL, events).Some? && Exclusive(RunFrom(INITIAL, events).value)
        ensures !TwoOnTime(RunFrom(INITIAL, events).value)
      {
        BoundedRunIsExclusive(hold, work, events);
        ExclusiveMeansNotTwo(RunFrom(INITIAL, events).value);
      }
    } else {
      var events, w := LateWorkerIsJoined(hold, work);
      if hold > 0 {
        var later, v := LateReleaseBreaksExclusion(hold, work);
      }
    }
  }
}
