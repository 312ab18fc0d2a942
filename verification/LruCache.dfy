// The process-local TTL/LRU cache of services/cache.py. Time is read by the
// caller and passed in; the lock makes every operation one step.
module LruCache {
  import opened Common

  type Key = string

  datatype Entry<V> = Entry(key: Key, value: V, expires: real)

  /** An OrderedDict: each key once, least recently used first. */
  ghost predicate DistinctKeys<V>(entries: seq<Entry<V>>) {
    forall i, j | 0 <= i < j < |entries| :: entries[i].key != entries[j].key
  }

  function Find<V>(entries: seq<Entry<V>>, key: Key): (i: nat)
    ensures i <= |entries|
    ensures i < |entries| ==> entries[i].key == key
    ensures forall j | 0 <= j < i :: entries[j].key != key
  {
    if entries == [] then 0
    else if entries[0].key == key then 0
    else Find(entries[1..], key) + 1
  }

  function Without<V>(entries: seq<Entry<V>>, key: Key): seq<Entry<V>> {
    var i := Find(entries, key);
    if i == |entries| then entries else entries[..i] + entries[i + 1..]
  }

  /** Every entry that is not expired at `now`, in order. */
  function Unexpired<V>(entries: seq<Entry<V>>, now: real): seq<Entry<V>> {
    if entries == [] then []
    else
      var last := entries[|entries| - 1];
      Unexpired(entries[..|entries| - 1], now) + (if now > last.expires then [] else [last])
  }

  /** The `limit` most recently used entries. */
  function Newest<V>(entries: seq<Entry<V>>, limit: nat): seq<Entry<V>> {
    if |entries| <= limit then entries else entries[|entries| - limit..]
  }

  // ---- the operations on values ----------------------------------------

  /** What get leaves behind, and what it returns. */
  function AfterGet<V>(entries: seq<Entry<V>>, key: Key, now: real): (seq<Entry<V>>, Option<V>) {
    var i := Find(entries, key);
    if i == |entries| then (entries, None)
    else if now > entries[i].expires then (Without(entries, key), None)
    else (Without(entries, key) + [entries[i]], Some(entries[i].value))
  }

  function Expiry(ttl: real, now: real): real { now + RMax(0.01, ttl) }

  function AfterSet<V>(entries: seq<Entry<V>>, limit: nat, key: Key, value: V, ttl: real, now: real): seq<Entry<V>> {
    Newest(Unexpired(Without(entries, key) + [Entry(key, value, Expiry(ttl, now))], now), limit)
  }

  const MIN_ENTRIES := 8
  const MAX_ENTRIES := 2000

  // ---- key sets and the prune loops ------------------------------------

  /** Removing a key keeps the order and the distinctness of the rest. */
  lemma WithoutKeeps<V>(entries: seq<Entry<V>>, key: Key)
    requires DistinctKeys(entries)
    ensures DistinctKeys(Without(entries, key)) && |Without(entries, key)| <= |entries|
    ensures forall e | e in Without(entries, key) :: e in entries && e.key != key
  {
    var i, rest := Find(entries, key), Without(entries, key);
    if i < |entries| {
      forall j | 0 <= j < |rest| ensures rest[j] == entries[if j < i then j else j + 1] && rest[j].key != key {
      }
    }
  }

  function ExpiredKeys<V>(entries: seq<Entry<V>>, now: real): seq<Key> {
    if entries == [] then []
    else
      var last := entries[|entries| - 1];
      ExpiredKeys(entries[..|entries| - 1], now) + (if now > last.expires then [last.key] else [])
  }

  function PopAll<V>(entries: seq<Entry<V>>, keys: seq<Key>): seq<Entry<V>> {
    if keys == [] then entries else Without(PopAll(entries, keys[..|keys| - 1]), keys[|keys| - 1])
  }

  lemma {:induction false} ExpiredKeysAreKeys<V>(entries: seq<Entry<V>>, now: real)
    ensures forall k | k in ExpiredKeys(entries, now) :: exists i | 0 <= i < |entries| :: entries[i].key == k
  {
    if entries != [] {
      ExpiredKeysAreKeys(entries[..|entries| - 1], now);
    }
  }

  lemma FindIs<V>(entries: seq<Entry<V>>, key: Key, i: nat)
    requires i <= |entries| && (i < |entries| ==> entries[i].key == key)
    requires forall j | 0 <= j < i :: entries[j].key != key
    ensures Find(entries, key) == i
  {
  }

  lemma WithoutAppend<V>(entries: seq<Entry<V>>, last: Entry<V>, key: Key)
    requires DistinctKeys(entries + [last])
    ensures Without(entries + [last], key) == if last.key == key then entries else Without(entries, key) + [last]
  {
    var all := entries + [last];
    var i := Find(all, key);
    FindIs(all, key, if last.key == key then |entries|
                     else if Find(entries, key) < |entries| then Find(entries, key) else |all|);
    if last.key != key && i < |entries| {
      assert all[..i] + all[i + 1..] == entries[..i] + entries[i + 1..] + [last];
    }
  }

  lemma {:induction false} PopAllAppend<V>(entries: seq<Entry<V>>, last: Entry<V>, keys: seq<Key>)
    requires DistinctKeys(entries + [last]) && last.key !in keys
    ensures PopAll(entries + [last], keys) == PopAll(entries, keys) + [last]
    ensures DistinctKeys(PopAll(entries, keys) + [last])
  {
    if keys != [] {
      var init := keys[..|keys| - 1];
      PopAllAppend(entries, last, init);
      WithoutAppend(PopAll(entries, init), last, keys[|keys| - 1]);
      WithoutKeeps(PopAll(entries, init) + [last], keys[|keys| - 1]);
    }
  }

  /** Popping the collected keys one by one leaves exactly the unexpired entries. */
  lemma {:induction false} PopExpired<V>(entries: seq<Entry<V>>, now: real)
    requires DistinctKeys(entries)
    ensures PopAll(entries, ExpiredKeys(entries, now)) == Unexpired(entries, now)
  {
    if entries != [] {
      var init, last := entries[..|entries| - 1], entries[|entries| - 1];
      assert entries == init + [last];
      PopExpired(init, now);
      ExpiredKeysAreKeys(init, now);
      var keys := ExpiredKeys(init, now);
      PopAllAppend(init, last, keys);
      if now > last.expires {
        assert (keys + [last.key])[..|keys|] == keys;
        WithoutAppend(PopAll(init, keys), last, last.key);
      } else {
        assert keys + [] == keys;
      }
    }
  }

  lemma {:induction false} UnexpiredMembers<V>(entries: seq<Entry<V>>, now: real, e: Entry<V>)
    ensures e in Unexpired(entries, now) <==> e in entries && now <= e.expires
  {
    if entries != [] {
      var init := entries[..|entries| - 1];
      assert entries == init + [entries[|entries| - 1]];
      UnexpiredMembers(init, now, e);
    }
  }

  lemma {:induction false} UnexpiredKeeps<V>(entries: seq<Entry<V>>, now: real)
    requires DistinctKeys(entries)
    ensures DistinctKeys(Unexpired(entries, now))
  {
    if entries != [] {
      var init, last := entries[..|entries| - 1], entries[|entries| - 1];
      UnexpiredKeeps(init, now);
      var kept := Unexpired(init, now);
      forall i | 0 <= i < |kept| ensures kept[i].key != last.key {
        UnexpiredMembers(init, now, kept[i]);
        assert kept[i] in kept;
        var j :| 0 <= j < |init| && init[j] == kept[i];
        assert entries[j].key != last.key;
      }
    }
  }

  /** The cache object; `entries` is the OrderedDict it changes in place. */
  class Cache<V(==)> {
    const maxEntries: nat
    var entries: seq<Entry<V>>

    ghost predicate Valid()
      reads this
    {
      MIN_ENTRIES <= maxEntries <= MAX_ENTRIES && DistinctKeys(entries) && |entries| <= maxEntries
    }

    constructor (configured: int)
      ensures Valid() && entries == [] && maxEntries == Max(MIN_ENTRIES, Min(configured, MAX_ENTRIES))
    {
      maxEntries := Max(MIN_ENTRIES, Min(configured, MAX_ENTRIES));
      entries := [];
    }

    method Get(key: Key, now: real) returns (r: Option<V>)
      requires Valid()
      modifies this
      ensures Valid()
      ensures (entries, r) == AfterGet(old(entries), key, now)
    {
      WithoutKeeps(entries, key);
      var i := Find(entries, key);
      if i == |entries| {
        return None;
      }
      var item := entries[i];
      if now > item.expires {
        entries := Without(entries, key);
        return None;
      }
      entries := Without(entries, key) + [item];
      r := Some(item.value);
    }

    method ExpiredNow(now: real) returns (expired: seq<Key>)
      ensures expired == ExpiredKeys(entries, now)
    {
      expired := [];
      for n := 0 to |entries|
        invariant expired == ExpiredKeys(entries[..n], now)
      {
        assert entries[..n + 1][..n] == entries[..n];
        if now > entries[n].expires {
          expired := expired + [entries[n].key];
        }
      }
      assert entries[..|entries|] == entries;
    }

    method EvictOldest()
      modifies this
      ensures entries == Newest(old(entries), maxEntries)
    {
      ghost var dropped: nat := 0;
      while |entries| > maxEntries
        invariant dropped <= |old(entries)| && entries == old(entries)[dropped..]
        invariant dropped > 0 ==> |entries| >= maxEntries
      {
        entries := entries[1..];
        dropped := dropped + 1;
      }
    }

    /** _prune: first every expired key, then the oldest entries until the size fits. */
    method Prune(now: real)
      requires DistinctKeys(entries)
      modifies this
      ensures entries == Newest(Unexpired(old(entries), now), maxEntries)
    {
      ghost var before := entries;
      var expired := ExpiredNow(now);
      for n := 0 to |expired|
        invariant entries == PopAll(before, expired[..n])
      {
        assert expired[..n + 1][..n] == expired[..n];
        entries := Without(entries, expired[n]);
      }
      assert expired[..|expired|] == expired;
      PopExpired(before, now);
      EvictOldest();
    }

    method Set(key: Key, value: V, ttl: real, now: real)
      requires Valid()
      modifies this
      ensures Valid()
      ensures entries == AfterSet(old(entries), maxEntries, key, value, ttl, now)
    {
      WithoutKeeps(entries, key);
      entries := Without(entries, key) + [Entry(key, value, Expiry(ttl, now))];
      UnexpiredKeeps(entries, now);
      Prune(now);
    }
  }

  // ---- traces ----------------------------------------------------------

  datatype Op<V> = GetOp(key: Key, now: real) | SetOp(key: Key, value: V, ttl: real, now: real)

  function Apply<V>(entries: seq<Entry<V>>, limit: nat, op: Op<V>): seq<Entry<V>> {
    match op
    case GetOp(key, now) => AfterGet(entries, key, now).0
    case SetOp(key, value, ttl, now) => AfterSet(entries, limit, key, value, ttl, now)
  }

  function CacheAfter<V>(ops: seq<Op<V>>, limit: nat): seq<Entry<V>> {
    if ops == [] then [] else Apply(CacheAfter(ops[..|ops| - 1], limit), limit, ops[|ops| - 1])
  }

  /** The reference: an unbounded map that remembers the last value set under each key and until when it counts. */
  function Reference<V>(ops: seq<Op<V>>): map<Key, (V, real)> {
    if ops == [] then map[]
    else
      var before := Reference(ops[..|ops| - 1]);
      match ops[|ops| - 1]
      case GetOp(_, _) => before
      case SetOp(key, value, ttl, now) => before[key := (value, Expiry(ttl, now))]
  }

  ghost predicate Agrees<V>(entries: seq<Entry<V>>, m: map<Key, (V, real)>) {
    forall e | e in entries :: e.key in m && m[e.key] == (e.value, e.expires)
  }

  lemma NewestKeeps<V>(entries: seq<Entry<V>>, limit: nat)
    requires DistinctKeys(entries)
    ensures DistinctKeys(Newest(entries, limit)) && |Newest(entries, limit)| <= limit
    ensures forall e | e in Newest(entries, limit) :: e in entries
  {
  }

  lemma GetKeeps<V>(entries: seq<Entry<V>>, key: Key, now: real)
    requires DistinctKeys(entries)
    ensures var after := AfterGet(entries, key, now).0;
      DistinctKeys(after) && |after| <= |entries| && forall e | e in after :: e in entries
  {
    WithoutKeeps(entries, key);
    var i, rest := Find(entries, key), Without(entries, key);
    if i < |entries| {
      forall j | 0 <= j < |rest| ensures rest[j].key != key {
        assert rest[j] in rest;
      }
    }
  }

  lemma SetKeeps<V>(entries: seq<Entry<V>>, limit: nat, key: Key, value: V, ttl: real, now: real)
    requires DistinctKeys(entries)
    ensures var after := AfterSet(entries, limit, key, value, ttl, now);
      && DistinctKeys(after) && |after| <= limit
      && forall e | e in after :: (e in entries && e.key != key) || e == Entry(key, value, Expiry(ttl, now))
  {
    WithoutKeeps(entries, key);
    var x, rest := Entry(key, value, Expiry(ttl, now)), Without(entries, key);
    forall j | 0 <= j < |rest| ensures rest[j].key != key {
      assert rest[j] in rest;
    }
    UnexpiredKeeps(rest + [x], now);
    NewestKeeps(Unexpired(rest + [x], now), limit);
    forall e | e in AfterSet(entries, limit, key, value, ttl, now)
      ensures (e in entries && e.key != key) || e == x
    {
      UnexpiredMembers(rest + [x], now, e);
    }
  }

  lemma {:induction false} TraceAgrees<V>(ops: seq<Op<V>>, limit: nat)
    ensures DistinctKeys(CacheAfter(ops, limit)) && |CacheAfter(ops, limit)| <= limit
    ensures Agrees(CacheAfter(ops, limit), Reference(ops))
  {
    if ops != [] {
      var before := CacheAfter(ops[..|ops| - 1], limit);
      TraceAgrees(ops[..|ops| - 1], limit);
      match ops[|ops| - 1]
      case GetOp(key, now) => GetKeeps(before, key, now);
      case SetOp(key, value, ttl, now) => SetKeeps(before, limit, key, value, ttl, now);
    }
  }

  /**
   * After any trace, whatever the clock did: a hit returns the value of the last set of that key and only while that
   * value is unexpired; the size never exceeds the limit.
   */
  lemma HitsAreFresh<V>(ops: seq<Op<V>>, limit: nat, key: Key, now: real)
    ensures |CacheAfter(ops, limit)| <= limit
    ensures var r := AfterGet(CacheAfter(ops, limit), key, now).1;
      r.Some? ==> key in Reference(ops) && r.value == Reference(ops)[key].0 && now <= Reference(ops)[key].1
  {
    TraceAgrees(ops, limit);
  }

  // ---- what an unexpired key survives ----------------------------------

  /** e is cached and only keys in `touched` have been used more recently. */
  ghost predicate Held<V>(entries: seq<Entry<V>>, e: Entry<V>, touched: set<Key>) {
    exists p :: 0 <= p < |entries| && entries[p] == e && forall j | p < j < |entries| :: entries[j].key in touched
  }

  lemma WithoutHeld<V>(entries: seq<Entry<V>>, e: Entry<V>, touched: set<Key>, key: Key)
    requires Held(entries, e, touched) && key != e.key
    ensures Held(Without(entries, key), e, touched)
  {
    var p :| 0 <= p < |entries| && entries[p] == e && forall j | p < j < |entries| :: entries[j].key in touched;
    var i, rest := Find(entries, key), Without(entries, key);
    if i < |entries| {
      var q := if i < p then p - 1 else p;
      assert rest[q] == e;
      forall j | q < j < |rest| ensures rest[j].key in touched {
        assert rest[j] == entries[if j < i then j else j + 1];
      }
    }
  }

  lemma AppendHeld<V>(entries: seq<Entry<V>>, e: Entry<V>, touched: set<Key>, x: Entry<V>)
    requires Held(entries, e, touched)
    ensures Held(entries + [x], e, touched + {x.key})
  {
    var p :| 0 <= p < |entries| && entries[p] == e && forall j | p < j < |entries| :: entries[j].key in touched;
    assert (entries + [x])[p] == e;
  }

  lemma {:induction false} UnexpiredHeld<V>(entries: seq<Entry<V>>, e: Entry<V>, touched: set<Key>, now: real)
    requires Held(entries, e, touched) && now <= e.expires
    ensures Held(Unexpired(entries, now), e, touched)
  {
    var p :| 0 <= p < |entries| && entries[p] == e && forall j | p < j < |entries| :: entries[j].key in touched;
    var init, last := entries[..|entries| - 1], entries[|entries| - 1];
    var kept := Unexpired(init, now);
    if p == |init| {
      assert Unexpired(entries, now) == kept + [e];
      assert (kept + [e])[|kept|] == e;
    } else {
      assert init[p] == e;
      UnexpiredHeld(init, e, touched, now);
      if now <= last.expires {
        AppendHeld(kept, e, touched, last);
        assert touched + {last.key} == touched;
      } else {
        assert kept + [] == kept;
      }
    }
  }

  lemma {:induction false} DistinctKeysCount<V>(entries: seq<Entry<V>>, touched: set<Key>)
    requires DistinctKeys(entries) && forall e | e in entries :: e.key in touched
    ensures |entries| <= |touched|
  {
    if entries != [] {
      var init, last := entries[..|entries| - 1], entries[|entries| - 1];
      forall e | e in init ensures e.key in touched - {last.key} {
        var i :| 0 <= i < |init| && init[i] == e;
        assert entries[i].key != last.key;
      }
      DistinctKeysCount(init, touched - {last.key});
    }
  }

  lemma NewestHeld<V>(entries: seq<Entry<V>>, e: Entry<V>, touched: set<Key>, limit: nat)
    requires Held(entries, e, touched) && DistinctKeys(entries) && |touched| < limit
    ensures Held(Newest(entries, limit), e, touched)
  {
    var p :| 0 <= p < |entries| && entries[p] == e && forall j | p < j < |entries| :: entries[j].key in touched;
    DistinctKeysCount(entries[p + 1..], touched);
    if |entries| > limit {
      assert Newest(entries, limit)[p - (|entries| - limit)] == e;
    }
  }

  /** A set, or a get that hits, makes its key the most recently used one. */
  predicate Uses<V>(entries: seq<Entry<V>>, op: Op<V>) {
    op.SetOp? || AfterGet(entries, op.key, op.now).1.Some?
  }

  function TouchedKey<V>(entries: seq<Entry<V>>, op: Op<V>): set<Key> {
    if Uses(entries, op) then {op.key} else {}
  }

  /** The keys used after operation u. */
  function TouchedSince<V>(ops: seq<Op<V>>, limit: nat, u: nat): set<Key> {
    if |ops| <= u + 1 then {}
    else
      var init := ops[..|ops| - 1];
      TouchedSince(init, limit, u) + TouchedKey(CacheAfter(init, limit), ops[|ops| - 1])
  }

  lemma ApplyHeld<V>(entries: seq<Entry<V>>, limit: nat, op: Op<V>, e: Entry<V>, touched: set<Key>)
    requires DistinctKeys(entries) && Held(entries, e, touched) && op.key != e.key && op.now <= e.expires
    requires |touched + TouchedKey(entries, op)| < limit
    ensures Held(Apply(entries, limit, op), e, touched + TouchedKey(entries, op))
  {
    WithoutHeld(entries, e, touched, op.key);
    WithoutKeeps(entries, op.key);
    var rest := Without(entries, op.key);
    match op
    case GetOp(key, now) =>
      var i := Find(entries, key);
      if i < |entries| && now <= entries[i].expires {
        AppendHeld(rest, e, touched, entries[i]);
      } else {
        assert touched + {} == touched;
      }
    case SetOp(key, value, ttl, now) =>
      var x := Entry(key, value, Expiry(ttl, now));
      AppendHeld(rest, e, touched, x);
      UnexpiredHeld(rest + [x], e, touched + {key}, now);
      UnexpiredKeeps(rest + [x], now);
      NewestHeld(Unexpired(rest + [x], now), e, touched + {key}, limit);
  }

  /** Right after its use a key is held with nothing more recent. */
  lemma UseHolds<V>(entries: seq<Entry<V>>, limit: nat, op: Op<V>) returns (e: Entry<V>)
    requires DistinctKeys(entries) && |entries| <= limit && limit > 0 && Uses(entries, op)
    ensures e.key == op.key && Held(Apply(entries, limit, op), e, {})
    ensures op.SetOp? ==> e.value == op.value && e.expires == Expiry(op.ttl, op.now)
    ensures op.GetOp? ==> e in entries
  {
    var rest := Without(entries, op.key);
    WithoutKeeps(entries, op.key);
    match op
    case GetOp(key, now) =>
      e := entries[Find(entries, key)];
      assert (rest + [e])[|rest|] == e;
    case SetOp(key, value, ttl, now) =>
      e := Entry(key, value, Expiry(ttl, now));
      assert (rest + [e])[|rest|] == e;
      assert Held(rest + [e], e, {});
      UnexpiredHeld(rest + [e], e, {}, now);
      UnexpiredKeeps(rest + [e], now);
      NewestHeld(Unexpired(rest + [e], now), e, {}, limit);
  }

  lemma SubsetCount(a: set<Key>, b: set<Key>)
    requires a <= b
    ensures |a| <= |b|
  {
    assert b == a + (b - a);
  }

  lemma {:induction false} StaysHeld<V>(ops: seq<Op<V>>, limit: nat, u: nat, key: Key, now: real) returns (e: Entry<V>)
    requires limit > 0 && u < |ops| && ops[u].key == key && Uses(CacheAfter(ops[..u], limit), ops[u])
    requires forall i | u < i < |ops| :: ops[i].key != key && ops[i].now <= now
    requires key in Reference(ops) && now <= Reference(ops)[key].1
    requires |TouchedSince(ops, limit, u)| < limit
    ensures e == Entry(key, Reference(ops)[key].0, Reference(ops)[key].1)
    ensures Held(CacheAfter(ops, limit), e, TouchedSince(ops, limit, u))
  {
    var init, op := ops[..|ops| - 1], ops[|ops| - 1];
    TraceAgrees(init, limit);
    if u == |ops| - 1 {
      assert init == ops[..u];
      e := UseHolds(CacheAfter(init, limit), limit, op);
    } else {
      assert init[..u] == ops[..u];
      var before := TouchedSince(init, limit, u);
      SubsetCount(before, TouchedSince(ops, limit, u));
      assert Reference(ops)[key] == Reference(init)[key];
      e := StaysHeld(init, limit, u, key, now);
      ApplyHeld(CacheAfter(init, limit), limit, op, e, before);
    }
  }

  /**
   * With a clock that does not run backwards, a key that was used, not touched again, and is still unexpired hits if
   * fewer than `limit` distinct other keys were used since; the value is the one last set.
   */
  lemma RecentKeysHit<V>(ops: seq<Op<V>>, limit: nat, u: nat, key: Key, now: real)
    requires limit > 0 && u < |ops| && ops[u].key == key && Uses(CacheAfter(ops[..u], limit), ops[u])
    requires forall i | u < i < |ops| :: ops[i].key != key && ops[i].now <= now
    requires key in Reference(ops) && now <= Reference(ops)[key].1
    requires |TouchedSince(ops, limit, u)| < limit
    ensures AfterGet(CacheAfter(ops, limit), key, now).1 == Some(Reference(ops)[key].0)
  {
    var e := StaysHeld(ops, limit, u, key, now);
    TraceAgrees(ops, limit);
    var entries := CacheAfter(ops, limit);
    var p :| 0 <= p < |entries| && entries[p] == e;
    FindIs(entries, key, p);
  }

  // ---- lifetimes -------------------------------------------------------

  /** Operation u is the last set of the key. */
  ghost predicate LastSet<V>(ops: seq<Op<V>>, u: nat, key: Key) {
    && u < |ops| && ops[u].SetOp? && ops[u].key == key
    && forall i | u < i < |ops| && ops[i].SetOp? :: ops[i].key != key
  }

  /** A value lives for its ttl, and for at least a hundredth of a second, from the clock of its set on. */
  predicate Alive<V>(op: Op<V>, now: real)
    requires op.SetOp?
  { now <= op.now + op.ttl || now <= op.now + 0.01 }

  lemma {:induction false} ReferenceIsLastSet<V>(ops: seq<Op<V>>, u: nat, key: Key)
    requires LastSet(ops, u, key)
    ensures key in Reference(ops) && Reference(ops)[key].0 == ops[u].value
    ensures forall now: real :: now <= Reference(ops)[key].1 <==> Alive(ops[u], now)
  {
    var init := ops[..|ops| - 1];
    if u < |ops| - 1 {
      assert LastSet(init, u, key);
      ReferenceIsLastSet(init, u, key);
    }
  }

  lemma {:induction false} NeverSetNeverRemembered<V>(ops: seq<Op<V>>, key: Key)
    requires forall i | 0 <= i < |ops| && ops[i].SetOp? :: ops[i].key != key
    ensures key !in Reference(ops)
  {
    if ops != [] {
      NeverSetNeverRemembered(ops[..|ops| - 1], key);
    }
  }

  lemma {:induction false} FindLastSet<V>(ops: seq<Op<V>>, key: Key) returns (u: nat)
    requires exists i :: 0 <= i < |ops| && ops[i].SetOp? && ops[i].key == key
    ensures LastSet(ops, u, key)
  {
    var last := |ops| - 1;
    if ops[last].SetOp? && ops[last].key == key {
      u := last;
    } else {
      var i :| 0 <= i < |ops| && ops[i].SetOp? && ops[i].key == key;
      assert ops[..last][i] == ops[i];
      u := FindLastSet(ops[..last], key);
      assert ops[..last][u] == ops[u];
      forall j | u < j < |ops| && ops[j].SetOp? ensures ops[j].key != key {
        assert j < last ==> ops[..last][j] == ops[j];
      }
    }
  }

  /** After any trace a key that was never set misses, and a hit is on the last value set, within its lifetime. */
  lemma HitsOnlyWhileAlive<V>(ops: seq<Op<V>>, limit: nat, key: Key, now: real)
    ensures var r := AfterGet(CacheAfter(ops, limit), key, now).1;
      r.Some? ==> exists u: nat :: LastSet(ops, u, key) && r.value == ops[u].value && Alive(ops[u], now)
  {
    HitsAreFresh(ops, limit, key, now);
    hide AfterGet, CacheAfter, Reference;
    if key in Reference(ops) {
      if forall i | 0 <= i < |ops| && ops[i].SetOp? :: ops[i].key != key {
        NeverSetNeverRemembered(ops, key);
      } else {
        var u := FindLastSet(ops, key);
        ReferenceIsLastSet(ops, u, key);
      }
    }
  }

  /**
   * A key whose last use is operation v, with a clock that does not run backwards since and fewer than `limit` other
   * keys used since, hits exactly while its last set, operation u, is alive.
   */
  lemma RecentKeysHitExactly<V>(ops: seq<Op<V>>, limit: nat, u: nat, v: nat, key: Key, now: real)
    requires limit > 0 && LastSet(ops, u, key) && u <= v < |ops|
    requires ops[v].key == key && Uses(CacheAfter(ops[..v], limit), ops[v])
    requires forall i | v < i < |ops| :: ops[i].key != key && ops[i].now <= now
    requires |TouchedSince(ops, limit, v)| < limit
    ensures AfterGet(CacheAfter(ops, limit), key, now).1 == (if Alive(ops[u], now) then Some(ops[u].value) else None)
  {
    hide Uses, TouchedSince;
    ReferenceIsLastSet(ops, u, key);
    HitsAreFresh(ops, limit, key, now);
    if Alive(ops[u], now) {
      RecentKeysHit(ops, limit, v, key, now);
    }
  }

  // ---- pruning ---------------------------------------------------------

  lemma WithoutKeepsOthers<V>(entries: seq<Entry<V>>, key: Key, e: Entry<V>)
    ensures e in entries && e.key != key ==> e in Without(entries, key)
  {
    var i := Find(entries, key);
    if i < |entries| && e in entries && e.key != key {
      var j :| 0 <= j < |entries| && entries[j] == e;
      assert Without(entries, key)[if j < i then j else j - 1] == e;
    }
  }

  /**
   * After a set nothing is left that has expired by its clock, and an unexpired entry of another key is given up only
   * if the cache is full without it.
   */
  lemma SetPrunes<V>(entries: seq<Entry<V>>, limit: nat, key: Key, value: V, ttl: real, now: real, e: Entry<V>)
    requires DistinctKeys(entries)
    ensures var after := AfterSet(entries, limit, key, value, ttl, now);
      && (e in after ==> now <= e.expires)
      && (e in entries && e.key != key && now <= e.expires && e !in after ==> |after| == limit)
  {
    var x := Entry(key, value, Expiry(ttl, now));
    var all := Without(entries, key) + [x];
    UnexpiredMembers(all, now, e);
    WithoutKeepsOthers(entries, key, e);
    var kept := Unexpired(all, now);
    assert e in Newest(kept, limit) ==> e in kept;
    assert |kept| <= limit ==> Newest(kept, limit) == kept;
  }
}
