// The search for a database error code along an exception chain, and the
// retry loop of database/schema_management.py that depends on it.
module ErrorCodes {
  import opened Common

  /** An exception object. An absent or empty pgcode is "". Chains may be cyclic. */
  class Failure {
    var pgcode: string
    var cause: Failure?
    var context: Failure?

    constructor (pgcode: string)
      ensures this.pgcode == pgcode && cause == null && context == null
    {
      this.pgcode := pgcode;
      cause, context := null, null;
    }

    function Following(): Failure?
      reads this
    { if cause != null then cause else context }
  }

  ghost predicate Closed(heap: set<Failure>)
    reads heap
  {
    forall f | f in heap :: f.Following() != null ==> f.Following() in heap
  }

  /** The exception n links down the chain, for any n. */
  ghost function Link(heap: set<Failure>, f: Failure?, n: nat): (g: Failure?)
    requires Closed(heap) && (f != null ==> f in heap)
    reads heap
    ensures g != null ==> g in heap
  {
    if n == 0 || f == null then f else Link(heap, f.Following(), n - 1)
  }

  ghost predicate CodeAt(heap: set<Failure>, f: Failure, n: nat, code: string)
    requires Closed(heap) && f in heap
    reads heap
  {
    Link(heap, f, n) != null && Link(heap, f, n).pgcode == code
  }

  /** The chain goes from an exception to its cause, and to its context only where there is no cause. */
  lemma {:induction false} LinkStep(heap: set<Failure>, f: Failure, n: nat)
    requires Closed(heap) && f in heap
    ensures Link(heap, f, n + 1) == (if Link(heap, f, n) == null then null else Link(heap, f, n).Following())
    ensures var g := Link(heap, f, n);
      Link(heap, f, n + 1) == if g == null then null else if g.cause != null then g.cause else g.context
  {
    if n > 0 && f.Following() != null {
      LinkStep(heap, f.Following(), n - 1);
    }
  }

  /** A set that contains the start and is closed under the chain contains the whole chain. */
  lemma {:induction false} ChainStaysInside(heap: set<Failure>, f: Failure, seen: set<Failure>, n: nat)
    requires Closed(heap) && f in heap && f in seen && seen <= heap
    requires forall s | s in seen :: s.Following() != null ==> s.Following() in seen
    ensures Link(heap, f, n) != null ==> Link(heap, f, n) in seen
  {
    if n > 0 {
      ChainStaysInside(heap, f, seen, n - 1);
      LinkStep(heap, f, n - 1);
    }
  }

  /**
   * The walk ends on every chain, cyclic ones included, and returns the first non-empty code of the chain: no link
   * before it has one, and None means that no link has one.
   */
  method PostgresCode(f: Failure, ghost heap: set<Failure>) returns (code: Option<string>)
    requires Closed(heap) && f in heap
    ensures code.Some? ==>
              && code.value != ""
              && exists n: nat :: CodeAt(heap, f, n, code.value) && forall m: nat | m < n :: CodeAt(heap, f, m, "")
    ensures code.None? ==> forall n: nat :: Link(heap, f, n) != null ==> CodeAt(heap, f, n, "")
  {
    var current: Failure? := f;
    var seen: set<Failure> := {};
    ghost var n: nat := 0;
    while current != null && current !in seen
      invariant current == Link(heap, f, n) && seen <= heap
      invariant n > 0 ==> f in seen
      invariant n == 0 ==> current == f
      invariant forall s | s in seen :: s.pgcode == ""
      invariant forall s | s in seen :: s.Following() == null || s.Following() in seen || s.Following() == current
      invariant forall m: nat | m < n :: CodeAt(heap, f, m, "")
      decreases heap - seen
    {
      if current.pgcode != "" {
        assert CodeAt(heap, f, n, current.pgcode);
        return Some(current.pgcode);
      }
      LinkStep(heap, f, n);
      seen := seen + {current};
      current := current.Following();
      n := n + 1;
    }
    forall k: nat | Link(heap, f, k) != null ensures CodeAt(heap, f, k, "") {
      ChainStaysInside(heap, f, seen, k);
    }
    code := None;
  }

  // ---- the retry loop --------------------------------------------------

  const RETRYABLE_CODES: set<string> := {"40001", "40P01", "55P03"}

  predicate Retryable(code: Option<string>) { code.Some? && code.value in RETRYABLE_CODES }

  /** How one attempt under the lock ends: it returns after a passed ready check, or raises. */
  datatype Attempt = Returned | Raised(code: Option<string>)

  predicate Repeated(a: Attempt) { a.Raised? && Retryable(a.code) }

  /** The loop ends with attempt `last`: the first that is not a retryable failure, or the last allowed one. */
  ghost predicate EndsAt(maxAttempts: nat, attempts: nat -> Attempt, last: nat) {
    && 1 <= last <= maxAttempts
    && (forall k | 1 <= k < last :: Repeated(attempts(k)))
    && (!Repeated(attempts(last)) || last == maxAttempts)
  }

  /**
   * run_authoritative_migration: the answer is that of the first attempt that is not a retryable failure, or of the
   * last allowed attempt. `attempts` says how each attempt would end.
   */
  method RunAttempts(maxAttempts: nat, attempts: nat -> Attempt) returns (last: nat)
    requires maxAttempts >= 1
    ensures EndsAt(maxAttempts, attempts, last)
    ensures forall other :: EndsAt(maxAttempts, attempts, other) ==> other == last
  {
    for attempt := 1 to maxAttempts + 1
      invariant forall k | 1 <= k < attempt :: Repeated(attempts(k))
      invariant attempt <= maxAttempts
    {
      var outcome := attempts(attempt);
      if outcome.Returned? || !Retryable(outcome.code) || attempt >= maxAttempts {
        return attempt;
      }
    }
    assert false;
  }
}
