// The paid provider certification of services/ai_operations.py: the claim that
// suppresses repeats, its early expiry when a certification finishes, and the
// recovery of interrupted certifications. Times are instants; that comparing
// the stored strings compares instants is IsoTime's result.
module Certification {
  import opened Common

  datatype Claim = Claim(owner: int, expiresAt: int)

  /**
   * `timeout` bounds one provider request and `suppress` is the repeat suppression time, as configured. `setup` and
   * `booking` are what the protocol relies on: a certification writes its record and sends its request within
   * `setup` of its claim, and updates its record and its claim before `booking` after it.
   */
  datatype Settings = Settings(timeout: nat, suppress: nat, setup: nat, booking: nat) {
    predicate Valid() { timeout > 0 && suppress > 0 }
  }

  predicate Free(claim: Option<Claim>, now: int) { claim.None? || claim.value.expiresAt <= now }

  function AfterClaim(s: Settings, claim: Option<Claim>, owner: int, now: int): Option<Claim> {
    if Free(claim, now) then Some(Claim(owner, now + s.timeout + s.suppress)) else claim
  }

  /** The update names the provider identity, not the owner. */
  function AfterFinish(s: Settings, claim: Option<Claim>, now: int): Option<Claim> {
    if claim.Some? then Some(claim.value.(expiresAt := now + s.suppress)) else None
  }

  /** The row of ai_certification_claims for one provider identity. */
  class ClaimRow {
    const settings: Settings
    var claim: Option<Claim>

    constructor (settings: Settings)
      ensures claim == None && this.settings == settings
    {
      this.settings := settings;
      claim := None;
    }

    method TryClaim(owner: int, now: int) returns (claimed: bool)
      modifies this
      ensures claimed == Free(old(claim), now)
      ensures claim == AfterClaim(settings, old(claim), owner, now)
    {
      var expires := now + (settings.timeout + settings.suppress);
      if claim.None? {
        claim := Some(Claim(owner, expires));
        return true;
      }
      claimed := claim.value.expiresAt <= now;
      if claimed {
        claim := Some(claim.value.(owner := owner, expiresAt := expires));
      }
    }

    method FinishClaim(now: int)
      modifies this
      ensures claim == AfterFinish(settings, old(claim), now)
    {
      if claim.Some? {
        claim := Some(claim.value.(expiresAt := now + settings.suppress));
      }
    }
  }

  // ---- runs ------------------------------------------------------------

  datatype Phase = Setup | Requesting | Responded | Booked | Finished | Crashed

  /** One certification that got the claim: when it claimed, when it sent its request, whether an answer came. */
  datatype Attempt = Attempt(at: int, phase: Phase, sentAt: Option<int>, answered: bool)

  datatype Status = RUNNING | PASSED | FAILED | INTERRUPTED

  /** `latest` is the certification whose record was written last. */
  datatype World = World(
    now: int, claim: Option<Claim>, attempts: map<int, Attempt>, records: map<int, Status>, latest: Option<int>)

  datatype Event =
    | Start(c: int)
    | Insert(c: int)
    | Send(c: int)
    | Skip(c: int)
    | Answer(c: int)
    | Book(c: int, passed: bool)
    | Finish(c: int)
    | Crash(c: int)
    | Recover
    | Tick(to: int)

  /** The provider may still be working on the request: it ends with its answer or with the request timeout. */
  predicate InFlight(s: Settings, w: World, c: int) {
    c in w.attempts && var a := w.attempts[c];
    a.sentAt.Some? && !a.answered && w.now < a.sentAt.value + s.timeout
  }

  predicate Interrupted(w: World) {
    w.latest.Some? && w.latest.value in w.records && w.records[w.latest.value] == RUNNING && Free(w.claim, w.now)
  }

  predicate Possible(s: Settings, w: World, e: Event) {
    match e
    case Start(c) => c !in w.attempts && Free(w.claim, w.now)
    case Insert(c) =>
      c in w.attempts && w.attempts[c].phase == Setup && c !in w.records && w.now <= w.attempts[c].at + s.setup
    case Send(c) =>
      c in w.attempts && w.attempts[c].phase == Setup && c in w.records && w.now <= w.attempts[c].at + s.setup
    case Skip(c) => c in w.attempts && w.attempts[c].phase == Setup && c in w.records
    case Answer(c) => c in w.attempts && w.attempts[c].phase == Requesting
                      && w.attempts[c].sentAt.Some? && w.now <= w.attempts[c].sentAt.value + s.timeout
    case Book(c, _) => c in w.attempts && w.attempts[c].phase == Responded && w.now < w.attempts[c].at + s.booking
    case Finish(c) => c in w.attempts && w.attempts[c].phase == Booked && w.now < w.attempts[c].at + s.booking
    case Crash(c) => c in w.attempts && w.attempts[c].phase !in {Finished, Crashed}
    case Recover => Interrupted(w)
    case Tick(to) => w.now <= to
  }

  function Next(s: Settings, w: World, e: Event): World
    requires Possible(s, w, e)
  {
    match e
    case Start(c) =>
      w.(claim := AfterClaim(s, w.claim, c, w.now), attempts := w.attempts[c := Attempt(w.now, Setup, None, false)])
    case Insert(c) => w.(records := w.records[c := RUNNING], latest := Some(c))
    case Send(c) =>
      w.(attempts := w.attempts[c := w.attempts[c].(phase := Requesting, sentAt := Some(w.now))])
    case Skip(c) => w.(attempts := w.attempts[c := w.attempts[c].(phase := Responded)])
    case Answer(c) => w.(attempts := w.attempts[c := w.attempts[c].(phase := Responded, answered := true)])
    case Book(c, passed) =>
      w.(attempts := w.attempts[c := w.attempts[c].(phase := Booked)],
         records := w.records[c := if passed then PASSED else FAILED])
    case Finish(c) =>
      w.(claim := AfterFinish(s, w.claim, w.now), attempts := w.attempts[c := w.attempts[c].(phase := Finished)])
    case Crash(c) => w.(attempts := w.attempts[c := w.attempts[c].(phase := Crashed)])
    case Recover => w.(records := w.records[w.latest.value := INTERRUPTED])
    case Tick(to) => w.(now := to)
  }

  ghost predicate Run(s: Settings, worlds: seq<World>, events: seq<Event>) {
    && s.Valid()
    && |worlds| == |events| + 1
    && worlds[0].claim == None && worlds[0].attempts == map[] && worlds[0].records == map[] && worlds[0].latest == None
    && forall k | 0 <= k < |events| ::
         Possible(s, worlds[k], events[k]) && worlds[k + 1] == Next(s, worlds[k], events[k])
  }

  // ---- claims are spaced, whatever the timing --------------------------

  predicate Apart(a: Attempt, b: Attempt, gap: int) { a.at + gap <= b.at || b.at + gap <= a.at }

  /** The claim's owner claimed last, and the claim lasts at least the suppression time. */
  ghost predicate Spaced(s: Settings, w: World) {
    && (w.claim.None? ==> w.attempts == map[])
    && (w.claim.Some? ==>
          && w.claim.value.owner in w.attempts
          && w.attempts[w.claim.value.owner].at + s.suppress <= w.claim.value.expiresAt
          && forall c | c in w.attempts :: w.attempts[c].at <= w.attempts[w.claim.value.owner].at)
    && (forall c | c in w.attempts :: w.attempts[c].at <= w.now)
    && (forall c, d | c in w.attempts && d in w.attempts && c != d :: Apart(w.attempts[c], w.attempts[d], s.suppress))
  }

  lemma StartStaysSpaced(s: Settings, w: World, c: int)
    requires s.Valid() && Spaced(s, w) && Possible(s, w, Start(c))
    ensures Spaced(s, Next(s, w, Start(c)))
  {
  }

  /** The same certifications, claimed at the same times. */
  ghost predicate SameTimes(w: World, v: World) {
    && w.attempts.Keys == v.attempts.Keys && w.now <= v.now
    && forall c | c in v.attempts :: v.attempts[c].at == w.attempts[c].at
  }

  lemma TimesStay(s: Settings, w: World, e: Event)
    requires Possible(s, w, e) && !e.Start?
    ensures SameTimes(w, Next(s, w, e))
  {
  }

  lemma NextStaysSpaced(s: Settings, w: World, e: Event)
    requires s.Valid() && Spaced(s, w) && Possible(s, w, e)
    ensures Spaced(s, Next(s, w, e))
  {
    if e.Start? {
      StartStaysSpaced(s, w, e.c);
    } else {
      TimesStay(s, w, e);
      hide Possible;
    }
  }

  lemma {:induction false} RunStaysSpaced(s: Settings, worlds: seq<World>, events: seq<Event>, k: nat)
    requires Run(s, worlds, events) && k <= |events|
    ensures Spaced(s, worlds[k])
  {
    if k > 0 {
      RunStaysSpaced(s, worlds, events, k - 1);
      NextStaysSpaced(s, worlds[k - 1], events[k - 1]);
    }
  }

  /**
   * Any two successful claims for an identity are at least the suppression time apart, also after crashes and
   * however late a certification finishes.
   */
  lemma ClaimsAreSpaced(s: Settings, worlds: seq<World>, events: seq<Event>, k: nat, c: int, d: int)
    requires Run(s, worlds, events) && k <= |events| && c in worlds[k].attempts && d in worlds[k].attempts && c != d
    ensures Apart(worlds[k].attempts[c], worlds[k].attempts[d], s.suppress)
  {
    RunStaysSpaced(s, worlds, events, k);
  }

  // ---- requests do not overlap -----------------------------------------

  /** A request is sent within the setup time, and a certification that moved on has its answer. */
  predicate Punctual(s: Settings, w: World, a: Attempt) {
    && (a.sentAt.Some? ==> a.at <= a.sentAt.value <= a.at + s.setup && a.sentAt.value <= w.now)
    && (a.phase == Setup ==> a.sentAt == None)
    && (a.phase in {Responded, Booked, Finished} ==> a.sentAt.None? || a.answered)
  }

  /** The certification has finished, or its claim has run out. */
  predicate Spent(s: Settings, a: Attempt, since: int) {
    a.phase == Finished || a.at + s.timeout + s.suppress <= since
  }

  predicate RequestOver(s: Settings, a: Attempt, since: int) {
    a.sentAt.Some? && !a.answered ==> a.sentAt.value + s.timeout <= since
  }

  /** The certifications before the claim's owner are spent, and only the owner can have moved the claim's expiry. */
  ghost predicate Orderly(s: Settings, w: World) {
    w.claim.Some? && w.claim.value.owner in w.attempts ==>
      var o := w.claim.value.owner;
      && (w.attempts[o].phase != Finished ==> w.claim.value.expiresAt == w.attempts[o].at + s.timeout + s.suppress)
      && forall c | c in w.attempts && c != o :: Spent(s, w.attempts[c], w.attempts[o].at)
  }

  ghost predicate AllPunctual(s: Settings, w: World) { forall c | c in w.attempts :: Punctual(s, w, w.attempts[c]) }

  /** The requests of the certifications before the claim's owner are over. */
  ghost predicate Exclusive(s: Settings, w: World) {
    w.claim.Some? && w.claim.value.owner in w.attempts ==>
      var o := w.claim.value.owner;
      forall c | c in w.attempts && c != o :: RequestOver(s, w.attempts[c], w.attempts[o].at)
  }

  predicate Timely(s: Settings) { s.booking <= s.timeout + s.suppress }

  lemma NextStaysPunctual(s: Settings, w: World, e: Event)
    requires Spaced(s, w) && AllPunctual(s, w) && Possible(s, w, e)
    ensures AllPunctual(s, Next(s, w, e))
  {
  }

  lemma NextStaysOrderly(s: Settings, w: World, e: Event)
    requires s.Valid() && Timely(s) && Spaced(s, w) && Orderly(s, w) && Possible(s, w, e)
    ensures Orderly(s, Next(s, w, e))
  {
  }

  lemma NextStaysExclusive(s: Settings, w: World, e: Event)
    requires s.Valid() && Timely(s) && s.setup <= s.suppress
    requires Spaced(s, w) && AllPunctual(s, w) && Orderly(s, w) && Exclusive(s, w) && Possible(s, w, e)
    ensures Exclusive(s, Next(s, w, e))
  {
  }

  lemma StartsInOrder(s: Settings, w: World)
    requires w.claim == None && w.attempts == map[]
    ensures Orderly(s, w) && Exclusive(s, w) && AllPunctual(s, w)
  {
  }

  lemma {:induction false} RunStaysOrderly(s: Settings, worlds: seq<World>, events: seq<Event>, k: nat)
    requires Run(s, worlds, events) && Timely(s) && k <= |events|
    ensures Orderly(s, worlds[k])
  {
    hide Orderly, Spaced, Next, Possible;
    if k == 0 {
      StartsInOrder(s, worlds[0]);
    } else {
      RunStaysOrderly(s, worlds, events, k - 1);
      RunStaysSpaced(s, worlds, events, k - 1);
      NextStaysOrderly(s, worlds[k - 1], events[k - 1]);
    }
  }

  lemma {:induction false} RunStaysPunctual(s: Settings, worlds: seq<World>, events: seq<Event>, k: nat)
    requires Run(s, worlds, events) && k <= |events|
    ensures AllPunctual(s, worlds[k])
  {
    hide AllPunctual, Spaced, Next, Possible;
    if k == 0 {
      StartsInOrder(s, worlds[0]);
    } else {
      RunStaysPunctual(s, worlds, events, k - 1);
      RunStaysSpaced(s, worlds, events, k - 1);
      NextStaysPunctual(s, worlds[k - 1], events[k - 1]);
    }
  }

  lemma {:induction false} RunStaysExclusive(s: Settings, worlds: seq<World>, events: seq<Event>, k: nat)
    requires Run(s, worlds, events) && Timely(s) && s.setup <= s.suppress && k <= |events|
    ensures Exclusive(s, worlds[k])
  {
    hide AllPunctual, Orderly, Exclusive, Spaced, Next, Possible;
    if k == 0 {
      StartsInOrder(s, worlds[0]);
    } else {
      RunStaysExclusive(s, worlds, events, k - 1);
      RunStaysOrderly(s, worlds, events, k - 1);
      RunStaysPunctual(s, worlds, events, k - 1);
      RunStaysSpaced(s, worlds, events, k - 1);
      NextStaysExclusive(s, worlds[k - 1], events[k - 1]);
    }
  }

  ghost predicate Overlap(s: Settings, w: World) {
    exists c, d :: c != d && InFlight(s, w, c) && InFlight(s, w, d)
  }

  /** No run of any number of certifications has two paid requests in flight for the identity. */
  ghost predicate NeverOverlaps(s: Settings) {
    forall worlds, events, k: nat | Run(s, worlds, events) && k <= |events| :: !Overlap(s, worlds[k])
  }

  /** Set-up is short enough, and either bookkeeping ends in time or the suppression outlasts any request. */
  predicate SafeTiming(s: Settings) {
    s.setup <= s.suppress && (Timely(s) || s.setup + s.timeout <= s.suppress)
  }

  lemma SafeTimingSuffices(s: Settings, worlds: seq<World>, events: seq<Event>, k: nat, c: int, d: int)
    requires Run(s, worlds, events) && k <= |events| && SafeTiming(s)
    requires InFlight(s, worlds[k], c) && InFlight(s, worlds[k], d)
    ensures c == d
  {
    RunStaysSpaced(s, worlds, events, k);
    RunStaysPunctual(s, worlds, events, k);
    if Timely(s) {
      RunStaysExclusive(s, worlds, events, k);
      hide Run, Possible, Next;
    } else {
      assert Punctual(s, worlds[k], worlds[k].attempts[c]) && Punctual(s, worlds[k], worlds[k].attempts[d]);
      assert c != d ==> Apart(worlds[k].attempts[c], worlds[k].attempts[d], s.suppress);
    }
  }

  // ---- late set-up, late bookkeeping -----------------------------------

  lemma Extend(s: Settings, worlds: seq<World>, events: seq<Event>, e: Event)
      returns (more: seq<World>, longer: seq<Event>)
    requires Run(s, worlds, events) && Possible(s, worlds[|events|], e)
    ensures Run(s, more, longer) && more[|longer|] == Next(s, worlds[|events|], e)
    ensures longer == events + [e] && more == worlds + [Next(s, worlds[|events|], e)]
  {
    more, longer := worlds + [Next(s, worlds[|events|], e)], events + [e];
    forall k | 0 <= k < |longer|
      ensures Possible(s, more[k], longer[k]) && more[k + 1] == Next(s, more[k], longer[k])
    {
      if k < |events| {
        assert more[k] == worlds[k] && more[k + 1] == worlds[k + 1];
      }
    }
  }

  const NOTHING := World(0, None, map[], map[], None)

  lemma EmptyRun(s: Settings)
    requires s.Valid()
    ensures Run(s, [NOTHING], [])
  {
  }

  /** The claim and the record of certification c, both written at the time of the claim. */
  lemma Begin(s: Settings, worlds: seq<World>, events: seq<Event>, c: int)
      returns (more: seq<World>, longer: seq<Event>)
    requires Run(s, worlds, events)
    requires var w := worlds[|events|]; Free(w.claim, w.now) && c !in w.attempts && c !in w.records
    ensures Run(s, more, longer)
    ensures var w := worlds[|events|];
      more[|longer|] == World(w.now, Some(Claim(c, w.now + s.timeout + s.suppress)),
        w.attempts[c := Attempt(w.now, Setup, None, false)], w.records[c := RUNNING], Some(c))
  {
    more, longer := Extend(s, worlds, events, Start(c));
    more, longer := Extend(s, more, longer, Insert(c));
  }

  /** A set-up longer than the suppression time lets a second request start while the first is in flight. */
  lemma LateSetupOverlaps(s: Settings)
    requires s.Valid() && s.setup > s.suppress
    ensures !NeverOverlaps(s)
  {
    hide Run;
    EmptyRun(s);
    var worlds, events := Begin(s, [NOTHING], [], 0);
    worlds, events := Extend(s, worlds, events, Tick(s.suppress + 1));
    worlds, events := Extend(s, worlds, events, Send(0));
    worlds, events := Extend(s, worlds, events, Tick(s.timeout + s.suppress));
    worlds, events := Begin(s, worlds, events, 1);
    worlds, events := Extend(s, worlds, events, Send(1));
    var w := worlds[|events|];
    assert InFlight(s, w, 0) && InFlight(s, w, 1);
    assert Overlap(s, w);
  }

  /** A certification that has its answer at once but is still to be booked. */
  lemma Answered(s: Settings) returns (worlds: seq<World>, events: seq<Event>)
    requires s.Valid()
    ensures Run(s, worlds, events)
    ensures worlds[|events|] == World(0, Some(Claim(0, s.timeout + s.suppress)),
              map[0 := Attempt(0, Responded, Some(0), true)], map[0 := RUNNING], Some(0))
  {
    hide Run;
    EmptyRun(s);
    worlds, events := Begin(s, [NOTHING], [], 0);
    worlds, events := Extend(s, worlds, events, Send(0));
    worlds, events := Extend(s, worlds, events, Answer(0));
  }

  /** A certification that finishes after its claim ran out cuts its successor's claim short. */
  lemma LateBookkeepingOverlaps(s: Settings)
    requires s.Valid() && !Timely(s) && s.setup <= s.suppress < s.setup + s.timeout
    ensures !NeverOverlaps(s)
  {
    hide Run;
    var worlds, events := Answered(s);
    var handover := s.timeout + s.suppress;
    worlds, events := Extend(s, worlds, events, Tick(handover));
    worlds, events := Begin(s, worlds, events, 1);
    worlds, events := Extend(s, worlds, events, Book(0, false));
    worlds, events := Extend(s, worlds, events, Finish(0));
    worlds, events := Extend(s, worlds, events, Tick(handover + s.setup));
    worlds, events := Extend(s, worlds, events, Send(1));
    worlds, events := Extend(s, worlds, events, Tick(handover + s.suppress));
    worlds, events := Begin(s, worlds, events, 2);
    worlds, events := Extend(s, worlds, events, Send(2));
    var w := worlds[|events|];
    assert InFlight(s, w, 1) && InFlight(s, w, 2);
    assert Overlap(s, w);
  }

  /** Two paid requests for an identity can never overlap exactly when the timing is safe. */
  lemma NoOverlapExactly(s: Settings)
    requires s.Valid()
    ensures NeverOverlaps(s) <==> SafeTiming(s)
  {
    if SafeTiming(s) {
      forall worlds, events, k: nat | Run(s, worlds, events) && k <= |events| ensures !Overlap(s, worlds[k]) {
        forall c, d | InFlight(s, worlds[k], c) && InFlight(s, worlds[k], d) ensures c == d {
          SafeTimingSuffices(s, worlds, events, k, c, d);
        }
      }
    } else if s.setup > s.suppress {
      LateSetupOverlaps(s);
    } else {
      LateBookkeepingOverlaps(s);
    }
  }

  // ---- recovery --------------------------------------------------------

  /** Records being worked on are RUNNING; an interrupted record's claim has run out. */
  ghost predicate RecordsTell(s: Settings, w: World) {
    && (forall c | c in w.records :: c in w.attempts)
    && (forall c | c in w.records && w.records[c] == RUNNING :: w.attempts[c].phase !in {Booked, Finished})
    && (forall c | c in w.records && w.records[c] == INTERRUPTED ::
          w.attempts[c].at + s.timeout + s.suppress <= w.now)
  }

  lemma NextKeepsRecords(s: Settings, w: World, e: Event)
    requires s.Valid() && Timely(s) && Spaced(s, w) && Orderly(s, w) && RecordsTell(s, w) && Possible(s, w, e)
    ensures RecordsTell(s, Next(s, w, e))
    ensures forall c | c in w.records && w.records[c] == INTERRUPTED ::
              c in Next(s, w, e).records && Next(s, w, e).records[c] == INTERRUPTED
  {
    if e == Recover {
      var c := w.latest.value;
      assert c in w.attempts && w.claim.Some?;
      if c != w.claim.value.owner {
        assert Spent(s, w.attempts[c], w.attempts[w.claim.value.owner].at);
      }
    }
  }

  lemma {:induction false} RunKeepsRecords(s: Settings, worlds: seq<World>, events: seq<Event>, k: nat)
    requires Run(s, worlds, events) && Timely(s) && k <= |events|
    ensures RecordsTell(s, worlds[k])
  {
    hide Orderly, Spaced, Next, Possible;
    if k > 0 {
      RunKeepsRecords(s, worlds, events, k - 1);
      RunStaysOrderly(s, worlds, events, k - 1);
      RunStaysSpaced(s, worlds, events, k - 1);
      NextKeepsRecords(s, worlds[k - 1], events[k - 1]);
    }
  }

  predicate IsInterrupted(w: World, c: int) { c in w.records && w.records[c] == INTERRUPTED }

  lemma {:induction false} InterruptedStays(s: Settings, worlds: seq<World>, events: seq<Event>, i: nat, k: nat, c: int)
    requires Run(s, worlds, events) && Timely(s) && i <= k <= |events| && IsInterrupted(worlds[i], c)
    ensures IsInterrupted(worlds[k], c)
  {
    hide Orderly, Spaced, Possible, RecordsTell;
    if i < k {
      InterruptedStays(s, worlds, events, i, k - 1, c);
      RunKeepsRecords(s, worlds, events, k - 1);
      RunStaysOrderly(s, worlds, events, k - 1);
      RunStaysSpaced(s, worlds, events, k - 1);
      NextKeepsRecords(s, worlds[k - 1], events[k - 1]);
    }
  }

  /** Recovery never gives up on a certification that still completes. */
  ghost predicate InterruptionIsFinal(s: Settings) {
    forall worlds, events, i: nat, k: nat, c |
      Run(s, worlds, events) && i <= k <= |events| && IsInterrupted(worlds[i], c) :: IsInterrupted(worlds[k], c)
  }

  lemma LateBookkeepingRevives(s: Settings)
    requires s.Valid() && !Timely(s)
    ensures !InterruptionIsFinal(s)
  {
    hide Run;
    var worlds, events := Answered(s);
    worlds, events := Extend(s, worlds, events, Tick(s.timeout + s.suppress));
    worlds, events := Extend(s, worlds, events, Recover);
    var i := |events|;
    assert IsInterrupted(worlds[i], 0);
    worlds, events := Extend(s, worlds, events, Book(0, true));
    assert Run(s, worlds, events) && i <= i + 1 <= |events| && IsInterrupted(worlds[i], 0);
    assert !IsInterrupted(worlds[i + 1], 0);
  }

  /** A record marked as interrupted stays so in every run exactly when bookkeeping ends before the claim does. */
  lemma InterruptionIsFinalExactly(s: Settings)
    requires s.Valid()
    ensures InterruptionIsFinal(s) <==> Timely(s)
  {
    if Timely(s) {
      forall worlds, events, i: nat, k: nat, c |
        Run(s, worlds, events) && i <= k <= |events| && IsInterrupted(worlds[i], c)
        ensures IsInterrupted(worlds[k], c)
      {
        InterruptedStays(s, worlds, events, i, k, c);
      }
    } else {
      LateBookkeepingRevives(s);
    }
  }
}
