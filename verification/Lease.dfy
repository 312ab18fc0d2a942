// The cross-process lease of database/database.py. Its guard compares stored
// ISO strings; that this is a comparison of times is IsoTime's result.
module Lease {
  import opened Common
  import opened IsoTime
  import opened Ordering

  datatype Lease = Lease(owner: string, expiresAt: string)

  predicate Granted(leases: map<string, Lease>, name: string, owner: string, now: DateTime)
    requires now.Valid()
  { name !in leases || !LexLess(Iso(now), leases[name].expiresAt) || leases[name].owner == owner }

  function AfterAcquire(
      leases: map<string, Lease>, name: string, owner: string, now: DateTime, expires: DateTime): map<string, Lease>
    requires now.Valid() && expires.Valid()
  { if Granted(leases, name, owner, now) then leases[name := Lease(owner, Iso(expires))] else leases }

  function AfterRelease(leases: map<string, Lease>, name: string, owner: string): map<string, Lease> {
    if name in leases && leases[name].owner == owner then leases - {name} else leases
  }

  /** `expires` is now + timedelta(seconds=max(30, ttl)); InstantIsInjective makes it the only such timestamp. */
  predicate ExpiresAfter(now: DateTime, ttl: int, expires: DateTime) {
    now.Valid() && expires.Valid() && Instant(expires) == Instant(now) + Max(30, ttl) * 1000000
  }

  /** The table distributed_leases. */
  class LeaseTable {
    var leases: map<string, Lease>

    constructor ()
      ensures leases == map[]
    { leases := map[]; }

    method Acquire(name: string, owner: string, ttl: int, now: DateTime, expires: DateTime) returns (acquired: bool)
      requires ExpiresAfter(now, ttl, expires)
      modifies this
      ensures acquired == old(Granted(leases, name, owner, now))
      ensures leases == old(AfterAcquire(leases, name, owner, now, expires))
    {
      acquired := false;
      if name !in leases {
        leases := leases[name := Lease(owner, Iso(expires))];
        acquired := true;
      } else {
        var row := leases[name];
        if row.expiresAt == Iso(now) || LexLess(row.expiresAt, Iso(now)) || row.owner == owner {
          leases := leases[name := Lease(owner, Iso(expires))];
          acquired := true;
        }
        LexTotal(row.expiresAt, Iso(now));
        LexIrreflexive(Iso(now));
        if LexLess(row.expiresAt, Iso(now)) {
          LexAsymmetric(row.expiresAt, Iso(now));
        }
      }
    }

    method Release(name: string, owner: string)
      modifies this
      ensures leases == AfterRelease(old(leases), name, owner)
    {
      if name in leases && leases[name].owner == owner {
        leases := leases - {name};
      }
    }
  }

  // ---- runs ------------------------------------------------------------

  /**
   * `held` remembers, per lease and owner, the expiry of the owner's latest grant until the owner releases it.
   * A process reads the clock at `at` and its statement takes effect at that moment or later.
   */
  datatype World = World(now: DateTime, leases: map<string, Lease>, held: map<(string, string), DateTime>)

  datatype Event =
    | Acquire(name: string, owner: string, ttl: int, at: DateTime, expires: DateTime)
    | Release(name: string, owner: string)
    | Tick(to: DateTime)

  predicate Possible(w: World, e: Event)
    requires w.now.Valid()
  {
    match e
    case Acquire(_, _, ttl, at, expires) => ExpiresAfter(at, ttl, expires) && Instant(at) <= Instant(w.now)
    case Release(_, _) => true
    case Tick(to) => to.Valid() && Instant(w.now) <= Instant(to)
  }

  function Next(w: World, e: Event): World
    requires w.now.Valid() && Possible(w, e)
  {
    match e
    case Acquire(name, owner, _, at, expires) =>
      w.(leases := AfterAcquire(w.leases, name, owner, at, expires),
         held := if Granted(w.leases, name, owner, at) then w.held[(name, owner) := expires] else w.held)
    case Release(name, owner) =>
      w.(leases := AfterRelease(w.leases, name, owner), held := w.held - {(name, owner)})
    case Tick(to) => w.(now := to)
  }

  ghost predicate Run(worlds: seq<World>, events: seq<Event>) {
    && |worlds| == |events| + 1
    && worlds[0].now.Valid() && worlds[0].leases == map[] && worlds[0].held == map[]
    && forall k | 0 <= k < |events| ::
         worlds[k].now.Valid() && Possible(worlds[k], events[k]) && worlds[k + 1] == Next(worlds[k], events[k])
  }

  ghost predicate Reachable(w: World) {
    exists worlds, events :: Run(worlds, events) && worlds[|events|] == w
  }

  /** The owner's latest grant is neither released nor expired. */
  predicate Holds(w: World, name: string, owner: string) {
    (name, owner) in w.held && Instant(w.now) < Instant(w.held[(name, owner)])
  }

  predicate OnRecord(w: World, n: string)
    requires n in w.leases
  {
    var key := (n, w.leases[n].owner);
    key in w.held && w.held[key].Valid() && w.leases[n].expiresAt == Iso(w.held[key])
  }

  /** Every row is the latest grant of its owner, and every live grant is on a row. */
  ghost predicate Recorded(w: World) {
    && w.now.Valid()
    && (forall n | n in w.leases :: OnRecord(w, n))
    && (forall n, o | Holds(w, n, o) :: n in w.leases && w.leases[n].owner == o)
  }

  /** What the string comparison decides: no other owner's grant outlives `at`. */
  lemma GrantedMeans(w: World, name: string, owner: string, at: DateTime)
    requires Recorded(w) && at.Valid()
    ensures Granted(w.leases, name, owner, at) <==>
              name in w.leases && w.leases[name].owner != owner
              ==> Instant(w.held[(name, w.leases[name].owner)]) <= Instant(at)
  {
    if name in w.leases {
      assert OnRecord(w, name);
      StringOrderIsTimeOrder(at, w.held[(name, w.leases[name].owner)]);
    }
  }

  lemma AcquireStaysRecorded(w: World, e: Event)
    requires Recorded(w) && e.Acquire? && Possible(w, e)
    ensures Recorded(Next(w, e))
  {
    hide LexLess, Iso, Instant;
    GrantedMeans(w, e.name, e.owner, e.at);
    var v := Next(w, e);
    forall n | n in v.leases ensures OnRecord(v, n) {
      if n != e.name {
        assert OnRecord(w, n);
      }
    }
    forall n, o | Holds(v, n, o) ensures n in v.leases && v.leases[n].owner == o {
      if (n, o) != (e.name, e.owner) {
        assert Holds(w, n, o);
      }
    }
  }

  lemma ReleaseStaysRecorded(w: World, e: Event)
    requires Recorded(w) && e.Release? && Possible(w, e)
    ensures Recorded(Next(w, e))
  {
    hide LexLess, Iso, Instant;
    var v := Next(w, e);
    forall n | n in v.leases ensures OnRecord(v, n) {
      assert OnRecord(w, n);
    }
    forall n, o | Holds(v, n, o) ensures n in v.leases && v.leases[n].owner == o {
      assert Holds(w, n, o);
    }
  }

  lemma TickStaysRecorded(w: World, e: Event)
    requires Recorded(w) && e.Tick? && Possible(w, e)
    ensures Recorded(Next(w, e))
  {
    hide LexLess, Iso, Instant;
    var v := Next(w, e);
    forall n | n in v.leases ensures OnRecord(v, n) {
      assert OnRecord(w, n);
    }
    forall n, o | Holds(v, n, o) ensures n in v.leases && v.leases[n].owner == o {
      assert Holds(w, n, o);
    }
  }

  lemma StartsRecorded(w: World)
    requires w.now.Valid() && w.leases == map[] && w.held == map[]
    ensures Recorded(w)
  {
  }

  lemma {:induction false} RunStaysRecorded(worlds: seq<World>, events: seq<Event>, k: nat)
    requires Run(worlds, events) && k <= |events|
    ensures Recorded(worlds[k])
  {
    hide Recorded, Next, Possible;
    if k == 0 {
      StartsRecorded(worlds[0]);
    } else {
      RunStaysRecorded(worlds, events, k - 1);
      match events[k - 1]
      case Acquire(_, _, _, _, _) => AcquireStaysRecorded(worlds[k - 1], events[k - 1]);
      case Release(_, _) => ReleaseStaysRecorded(worlds[k - 1], events[k - 1]);
      case Tick(_) => TickStaysRecorded(worlds[k - 1], events[k - 1]);
    }
  }

  lemma ReachableIsRecorded(w: World)
    requires Reachable(w)
    ensures Recorded(w)
  {
    hide Recorded;
    var worlds, events :| Run(worlds, events) && worlds[|events|] == w;
    RunStaysRecorded(worlds, events, |events|);
  }

  /** At every reachable state at most one owner holds a lease, whatever the owners, their ttls and their order. */
  lemma AtMostOneHolder(w: World, name: string, a: string, b: string)
    requires Reachable(w) && Holds(w, name, a) && Holds(w, name, b)
    ensures a == b
  {
    hide Reachable;
    ReachableIsRecorded(w);
  }

  /**
   * A call whose clock reading is current acquires the lease exactly when no other owner holds it; a call with an
   * older reading never takes the lease from a holder. A refused call changes nothing.
   */
  lemma AcquiresExactlyWhenFree(w: World, name: string, owner: string, ttl: int, at: DateTime, expires: DateTime)
    requires Reachable(w) && w.now.Valid() && Possible(w, Acquire(name, owner, ttl, at, expires))
    ensures var granted := Granted(w.leases, name, owner, at);
      && (granted ==> forall o | o != owner :: !Holds(w, name, o))
      && (at == w.now && (forall o | o != owner :: !Holds(w, name, o)) ==> granted)
      && (!granted ==> Next(w, Acquire(name, owner, ttl, at, expires)) == w)
  {
    hide Reachable, LexLess, Iso, Instant;
    ReachableIsRecorded(w);
    GrantedMeans(w, name, owner, at);
    if name in w.leases && OnRecord(w, name) {
      assert at == w.now && w.leases[name].owner != owner && !Granted(w.leases, name, owner, at)
        ==> Holds(w, name, w.leases[name].owner);
    }
  }

  /** A release ends the caller's own hold and nobody else's; from a caller that is not on the row it changes no row. */
  lemma ReleaseIsOwn(w: World, name: string, owner: string)
    requires Reachable(w) && w.now.Valid()
    ensures var v := Next(w, Release(name, owner));
      && !Holds(v, name, owner)
      && (forall n, o | (n, o) != (name, owner) :: Holds(v, n, o) <==> Holds(w, n, o))
      && (!(name in w.leases && w.leases[name].owner == owner) ==> v.leases == w.leases)
      && (forall n, o | Holds(v, n, o) :: n in v.leases && v.leases[n].owner == o)
  {
    hide Reachable, LexLess, Iso, Instant;
    ReachableIsRecorded(w);
    ReleaseStaysRecorded(w, Release(name, owner));
  }

  /** A granted lease is held for the longer of its ttl and half a minute from the clock reading of the call on. */
  lemma GrantLasts(w: World, name: string, owner: string, ttl: int, at: DateTime, expires: DateTime, later: DateTime)
    requires w.now.Valid() && later.Valid() && Instant(w.now) <= Instant(later)
    requires Possible(w, Acquire(name, owner, ttl, at, expires)) && Granted(w.leases, name, owner, at)
    ensures var v := Next(Next(w, Acquire(name, owner, ttl, at, expires)), Tick(later));
      Holds(v, name, owner)
      <==> Instant(later) < Instant(at) + 30 * 1000000 || Instant(later) < Instant(at) + ttl * 1000000
  {
    hide Instant, Iso, LexLess;
  }
}
