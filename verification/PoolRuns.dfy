/** The pool cache under every interleaving of overlapping calls. */
module PoolRuns {
  import opened Wrappers
  import opened Sequences
  import opened PoolCache

  /** A pool `getOrCreate` returned to the call that found or created it. */
  datatype Served = Served(key: Key, pool: Pool)

  /** `peak` is the most creations that were ever in flight at once, `served` what calls have been given. */
  datatype System = System(c: Cache, now: int, calls: seq<Call>, peak: nat, served: seq<Served>)

  datatype Action =
    | Tick(to: int)
    | Request(key: Key)
    | EvictNext(call: nat)
    | Expired(call: nat)
    | RoomMade(call: nat)
    | Arrives(call: nat)
    | Fails(call: nat)
    | Peek(seen: Key)
    | ClearAll

  ghost predicate Enabled(s: System, a: Action) {
    match a
    case Tick(to) => to >= s.now
    case EvictNext(i) => i < |s.calls| && s.calls[i].Expiring? && s.calls[i].stale != []
    case Expired(i) => i < |s.calls| && s.calls[i].Expiring? && s.calls[i].stale == []
    case RoomMade(i) => i < |s.calls| && s.calls[i].Evicting?
    case Arrives(i) => i < |s.calls| && s.calls[i].Creating?
    case Fails(i) => i < |s.calls|
    case _ => true
  }

  /** A call moves on to its next suspension, or is over. */
  function Resume(calls: seq<Call>, i: nat, next: Option<Call>): seq<Call>
    requires i < |calls|
  {
    if next.Some? then calls[i := next.value] else calls[..i] + calls[i + 1..]
  }

  function CreatingCount(calls: seq<Call>): nat {
    if calls == [] then 0 else CreatingCount(calls[..|calls| - 1]) + if calls[|calls| - 1].Creating? then 1 else 0
  }

  function Max(a: nat, b: nat): nat {
    if a > b then a else b
  }

  function WithCalls(s: System, c: Cache, calls: seq<Call>): System {
    s.(c := c, calls := calls, peak := Max(s.peak, CreatingCount(calls)))
  }

  /** The pool the cache holds for the key is returned, if it holds one. */
  function Serve(s: System, c: Cache, key: Key): System {
    if key in c.entries then s.(served := s.served + [Served(key, c.entries[key].pool)]) else s
  }

  function Step(limits: Limits, s: System, a: Action): System
    requires Enabled(s, a)
  {
    match a
    case Tick(to) => s.(now := to)
    case Request(key) =>
      WithCalls(s, s.c, s.calls + [Expiring(key, Stale(s.c.order, s.c.entries, limits, s.now))])
    case EvictNext(i) =>
      var call := s.calls[i];
      WithCalls(s, EvictKey(s.c, call.stale[0]), s.calls[i := Expiring(call.key, call.stale[1..])])
    case Expired(i) =>
      var (c, next) := Proceed(s.c, limits, s.calls[i].key, s.now);
      WithCalls(Serve(s, s.c, s.calls[i].key), c, Resume(s.calls, i, next))
    case RoomMade(i) =>
      var (c, next) := MakeRoom(s.c, limits, s.calls[i].key, s.now);
      WithCalls(if next.None? then Serve(s, s.c, s.calls[i].key) else s, c, Resume(s.calls, i, next))
    case Arrives(i) =>
      var c := Created(s.c, s.calls[i].key, s.now);
      WithCalls(Serve(s, c, s.calls[i].key), c, Resume(s.calls, i, None))
    case Fails(i) =>
      WithCalls(s, if s.calls[i].Expiring? then s.c else Abandon(s.c, s.calls[i].key), Resume(s.calls, i, None))
    case Peek(key) => s.(c := Touch(s.c, key, s.now))
    case ClearAll => s.(c := Clear(s.c))
  }

  // ---- the invariant ----

  predicate Creator(call: Call) {
    !call.Expiring?
  }

  /** The pending keys are those of the creators, one creator each, and none of them has an entry. */
  ghost predicate CreatorsOk(c: Cache, calls: seq<Call>) {
    && (forall i, j :: 0 <= i < j < |calls| && Creator(calls[i]) && Creator(calls[j]) ==> calls[i].key != calls[j].key)
    && (forall i :: 0 <= i < |calls| && Creator(calls[i]) ==> calls[i].key in c.pending && calls[i].key !in c.entries)
    && (forall k :: k in c.pending ==> CreatorOf(calls, k))
  }

  ghost predicate CreatorOf(calls: seq<Call>, k: Key) {
    exists i :: 0 <= i < |calls| && Creator(calls[i]) && calls[i].key == k
  }

  ghost predicate Bounded(limits: Limits, s: System) {
    && CreatingCount(s.calls) <= s.peak
    && |s.c.order| + CreatingCount(s.calls) <= limits.maxPools - 1 + s.peak
  }

  ghost predicate Inv(limits: Limits, s: System) {
    CacheOk(s.c, s.now) && CreatorsOk(s.c, s.calls) && Bounded(limits, s)
  }

  // ---- counting creations in flight ----

  lemma {:induction false} CountConcat(a: seq<Call>, b: seq<Call>)
    ensures CreatingCount(a + b) == CreatingCount(a) + CreatingCount(b)
  {
    if b == [] {
      assert a + b == a;
    } else {
      assert (a + b)[..|a + b| - 1] == a + b[..|b| - 1];
      CountConcat(a, b[..|b| - 1]);
    }
  }

  lemma CountMiddle(a: seq<Call>, one: Call, b: seq<Call>)
    ensures CreatingCount(a + [one] + b) == CreatingCount(a) + (if one.Creating? then 1 else 0) + CreatingCount(b)
  {
    CountConcat(a, [one]);
    CountConcat(a + [one], b);
    assert [one][..0] == [];
  }

  lemma CountAt(calls: seq<Call>, i: nat, next: Option<Call>)
    requires i < |calls|
    ensures CreatingCount(Resume(calls, i, next)) == CreatingCount(calls)
      - (if calls[i].Creating? then 1 else 0) + (if next.Some? && next.value.Creating? then 1 else 0)
  {
    hide CreatingCount;
    var a, b := calls[..i], calls[i + 1..];
    assert calls == a + [calls[i]] + b;
    CountMiddle(a, calls[i], b);
    if next.Some? {
      assert Resume(calls, i, next) == a + [next.value] + b;
      CountMiddle(a, next.value, b);
    } else {
      CountConcat(a, b);
    }
  }

  // ---- creators, step by step ----

  /** A call that ends takes nothing with it but its own claim to its key. */
  lemma LeaveKeepsCreators(c: Cache, d: Cache, calls: seq<Call>, i: nat)
    requires CreatorsOk(c, calls) && i < |calls|
    requires d.pending == if Creator(calls[i]) then c.pending - {calls[i].key} else c.pending
    requires forall k :: k in d.entries ==> k in c.entries || (Creator(calls[i]) && k == calls[i].key)
    ensures CreatorsOk(d, Resume(calls, i, None))
  {
    var rest := Resume(calls, i, None);
    forall j | 0 <= j < |rest| ensures rest[j] == calls[if j < i then j else j + 1] {}
    forall k | k in d.pending ensures CreatorOf(rest, k) {
      assert CreatorOf(calls, k);
      var j :| 0 <= j < |calls| && Creator(calls[j]) && calls[j].key == k;
      assert rest[if j < i then j else j - 1] == calls[j];
    }
  }

  /** A call that moves on without changing what it claims. */
  lemma MoveKeepsCreators(c: Cache, d: Cache, calls: seq<Call>, i: nat, next: Call)
    requires CreatorsOk(c, calls) && i < |calls| && next.key == calls[i].key && Creator(next) == Creator(calls[i])
    requires d.pending == c.pending && forall k :: k in d.entries ==> k in c.entries
    ensures CreatorsOk(d, calls[i := next])
  {
    forall k | k in d.pending ensures CreatorOf(calls[i := next], k) {
      assert CreatorOf(calls, k);
      var j :| 0 <= j < |calls| && Creator(calls[j]) && calls[j].key == k;
      assert Creator(calls[i := next][j]) && calls[i := next][j].key == k;
    }
  }

  /** A call becomes the creator of a key that has neither an entry nor a creation in flight. */
  lemma ClaimKeepsCreators(c: Cache, d: Cache, calls: seq<Call>, i: nat, next: Call)
    requires CreatorsOk(c, calls) && i < |calls| && calls[i].Expiring?
    requires Creator(next) && next.key !in c.pending && next.key !in c.entries
    requires d.pending == c.pending + {next.key} && forall k :: k in d.entries ==> k in c.entries
    ensures CreatorsOk(d, calls[i := next])
  {
    var now := calls[i := next];
    forall k | k in d.pending ensures CreatorOf(now, k) {
      if k == next.key {
        assert Creator(now[i]) && now[i].key == k;
      } else {
        assert CreatorOf(calls, k);
        var j :| 0 <= j < |calls| && Creator(calls[j]) && calls[j].key == k;
        assert Creator(now[j]) && now[j].key == k;
      }
    }
  }

  lemma SameKeysKeepsCreators(c: Cache, d: Cache, calls: seq<Call>)
    requires CreatorsOk(c, calls) && d.pending == c.pending && forall k :: k in d.entries ==> k in c.entries
    ensures CreatorsOk(d, calls)
  {
  }

  // ---- steps ----

  lemma RequestKeeps(limits: Limits, s: System, key: Key)
    requires Inv(limits, s)
    ensures Inv(limits, Step(limits, s, Request(key)))
  {
    var call := Expiring(key, Stale(s.c.order, s.c.entries, limits, s.now));
    var calls := s.calls + [call];
    assert calls[..|s.calls|] == s.calls;
    forall k | k in s.c.pending ensures CreatorOf(calls, k) {
      assert CreatorOf(s.calls, k);
      var j :| 0 <= j < |s.calls| && Creator(s.calls[j]) && s.calls[j].key == k;
      assert calls[j] == s.calls[j];
    }
  }

  lemma EvictNextKeeps(limits: Limits, s: System, i: nat)
    requires Inv(limits, s) && Enabled(s, EvictNext(i))
    ensures Inv(limits, Step(limits, s, EvictNext(i)))
  {
    var call := s.calls[i];
    var next := Expiring(call.key, call.stale[1..]);
    EvictOk(s.c, call.stale[0], s.now);
    MoveKeepsCreators(s.c, EvictKey(s.c, call.stale[0]), s.calls, i, next);
    CountAt(s.calls, i, Some(next));
  }

  /** A creator making room, or going on to create. The branch that finds an entry is not taken. */
  lemma MakeRoomFacts(c: Cache, limits: Limits, key: Key, now: int)
    requires CacheOk(c, now) && key !in c.entries && limits.maxPools >= 1
    ensures var (d, next) := MakeRoom(c, limits, key, now);
      && next.Some? && Creator(next.value) && next.value.key == key
      && CacheOk(d, now) && d.pending == c.pending && (forall k :: k in d.entries ==> k in c.entries)
      && |d.order| <= |c.order|
      && (next.value.Creating? ==> |d.order| < limits.maxPools)
  {
    if c.order != [] {
      assert c.order[0] in c.order;
      EvictOk(c, c.order[0], now);
    }
  }

  lemma ExpiredKeeps(limits: Limits, s: System, i: nat)
    requires Inv(limits, s) && Enabled(s, Expired(i)) && limits.maxPools >= 1
    ensures Inv(limits, Step(limits, s, Expired(i)))
  {
    hide CacheOk, Bounded, CreatorsOk;
    var key := s.calls[i].key;
    Parts(limits, s);
    if key in s.c.entries || key in s.c.pending {
      TouchOk(s.c, key, s.now);
      CountAt(s.calls, i, None);
      LeaveKeepsCreators(s.c, if key in s.c.entries then Touch(s.c, key, s.now) else s.c, s.calls, i);
      StaysBounded(limits, s, Step(limits, s, Expired(i)));
    } else {
      var claimed := s.c.(pending := s.c.pending + {key});
      PendingFree(s.c, claimed, s.now);
      MakeRoomFacts(claimed, limits, key, s.now);
      var (d, next) := MakeRoom(claimed, limits, key, s.now);
      ClaimKeepsCreators(s.c, d, s.calls, i, next.value);
      CountAt(s.calls, i, next);
      StaysBounded(limits, s, Step(limits, s, Expired(i)));
    }
  }

  lemma Parts(limits: Limits, s: System)
    requires Inv(limits, s)
    ensures CacheOk(s.c, s.now) && CreatorsOk(s.c, s.calls) && Bounded(limits, s)
  {
  }

  lemma PendingFree(c: Cache, d: Cache, now: int)
    requires CacheOk(c, now) && d == c.(pending := d.pending)
    ensures CacheOk(d, now)
  {
    SamePools(c, d);
  }

  /** Pools plus creations grow only when a creation starts, and then there is room. */
  lemma StaysBounded(limits: Limits, s: System, t: System)
    requires Bounded(limits, s) && limits.maxPools >= 1 && t.peak == Max(s.peak, CreatingCount(t.calls))
    requires |t.c.order| + CreatingCount(t.calls) <= |s.c.order| + CreatingCount(s.calls)
               || |t.c.order| < limits.maxPools
    ensures Bounded(limits, t)
  {
  }

  lemma RoomMadeKeeps(limits: Limits, s: System, i: nat)
    requires Inv(limits, s) && Enabled(s, RoomMade(i)) && limits.maxPools >= 1
    ensures Inv(limits, Step(limits, s, RoomMade(i)))
  {
    var key := s.calls[i].key;
    MakeRoomFacts(s.c, limits, key, s.now);
    var (d, next) := MakeRoom(s.c, limits, key, s.now);
    MoveKeepsCreators(s.c, d, s.calls, i, next.value);
    CountAt(s.calls, i, next);
    StaysBounded(limits, s, Step(limits, s, RoomMade(i)));
  }

  /** The creator stores its pool: no other entry for the key can have appeared, so the
      branch that disposes of a duplicate is never taken. */
  lemma ArrivesKeeps(limits: Limits, s: System, i: nat)
    requires Inv(limits, s) && Enabled(s, Arrives(i)) && limits.maxPools >= 1
    ensures s.calls[i].key !in s.c.entries
    ensures Inv(limits, Step(limits, s, Arrives(i)))
  {
    var key := s.calls[i].key;
    CreatedOk(s.c, key, s.now);
    LeaveKeepsCreators(s.c, Created(s.c, key, s.now), s.calls, i);
    CountAt(s.calls, i, None);
    StaysBounded(limits, s, Step(limits, s, Arrives(i)));
  }

  lemma FailsKeeps(limits: Limits, s: System, i: nat)
    requires Inv(limits, s) && Enabled(s, Fails(i)) && limits.maxPools >= 1
    ensures Inv(limits, Step(limits, s, Fails(i)))
  {
    var d := if s.calls[i].Expiring? then s.c else Abandon(s.c, s.calls[i].key);
    PendingFree(s.c, d, s.now);
    LeaveKeepsCreators(s.c, d, s.calls, i);
    CountAt(s.calls, i, None);
    StaysBounded(limits, s, Step(limits, s, Fails(i)));
  }

  lemma StepKeeps(limits: Limits, s: System, a: Action)
    requires Inv(limits, s) && Enabled(s, a) && limits.maxPools >= 1
    ensures Inv(limits, Step(limits, s, a))
  {
    match a {
      case Tick(to) =>
      case Request(key) => RequestKeeps(limits, s, key);
      case EvictNext(i) => EvictNextKeeps(limits, s, i);
      case Expired(i) => ExpiredKeeps(limits, s, i);
      case RoomMade(i) => RoomMadeKeeps(limits, s, i);
      case Arrives(i) => ArrivesKeeps(limits, s, i);
      case Fails(i) => FailsKeeps(limits, s, i);
      case Peek(key) =>
        TouchOk(s.c, key, s.now);
        SameKeysKeepsCreators(s.c, Touch(s.c, key, s.now), s.calls);
      case ClearAll =>
        ClearOk(s.c, s.now);
        SameKeysKeepsCreators(s.c, Clear(s.c), s.calls);
    }
  }

  ghost predicate Run(limits: Limits, s: System, trace: seq<Action>, t: System)
    decreases |trace|
  {
    if trace == [] then s == t
    else Enabled(s, trace[0]) && Run(limits, Step(limits, s, trace[0]), trace[1..], t)
  }

  function Start(now: int): System {
    System(Empty(), now, [], 0, [])
  }

  lemma {:induction false} RunKeeps(limits: Limits, s: System, trace: seq<Action>, t: System)
    requires Inv(limits, s) && limits.maxPools >= 1 && Run(limits, s, trace, t)
    ensures Inv(limits, t)
    decreases |trace|
  {
    if trace != [] {
      StepKeeps(limits, s, trace[0]);
      RunKeeps(limits, Step(limits, s, trace[0]), trace[1..], t);
    }
  }

  /** In every interleaving: every pool created is live or disposed of exactly once, each key has at most
      one creation in flight and then no pool, the map is in order of last use, and pools plus creations
      never exceed `maxPools - 1` plus the peak of overlapping creations. */
  lemma PoolsConserved(limits: Limits, now: int, trace: seq<Action>, s: System)
    ensures limits.maxPools >= 1 && Run(limits, Start(now), trace, s) ==>
      && Conserved(s.c)
      && CreatorsOk(s.c, s.calls)
      && ByLastUse(s.c, s.now)
      && |s.c.order| + CreatingCount(s.calls) <= limits.maxPools - 1 + s.peak
  {
    if limits.maxPools >= 1 && Run(limits, Start(now), trace, s) {
      forall p: Pool ensures !Live(Empty(), p) {}
      RunKeeps(limits, Start(now), trace, s);
    }
  }

  // ---- what a call is given ----

  /** Whatever a call is given is the live pool of its key at that moment. */
  lemma ServedIsLive(limits: Limits, s: System, a: Action)
    requires Enabled(s, a)
    ensures var t := Step(limits, s, a);
            && s.served <= t.served
            && forall i :: |s.served| <= i < |t.served| ==>
                 t.served[i].key in t.c.entries && t.c.entries[t.served[i].key].pool == t.served[i].pool
  {
  }

  // ---- a call on its own ----

  function Evictions(call: nat, n: nat): seq<Action> {
    if n == 0 then [] else [EvictNext(call)] + Evictions(call, n - 1)
  }

  /** A request and all its own steps up to the lookup, with nothing in between. */
  function Undisturbed(s: System, key: Key, n: nat): seq<Action> {
    [Request(key)] + Evictions(|s.calls|, n) + [Expired(|s.calls|)]
  }

  function EvictAll(c: Cache, keys: seq<Key>): Cache
    decreases |keys|
  {
    if keys == [] then c else EvictAll(EvictKey(c, keys[0]), keys[1..])
  }

  /** The state while the call still has these expired keys to evict. */
  function Waiting(s: System, key: Key, stale: seq<Key>): System {
    s.(calls := s.calls + [Expiring(key, stale)], peak := Max(s.peak, CreatingCount(s.calls)))
  }

  lemma WaitingCounts(s: System, key: Key, stale: seq<Key>)
    ensures CreatingCount(s.calls + [Expiring(key, stale)]) == CreatingCount(s.calls)
  {
    assert (s.calls + [Expiring(key, stale)])[..|s.calls|] == s.calls;
  }

  lemma {:induction false} EvictionsRun(limits: Limits, s: System, key: Key, stale: seq<Key>, n: nat, rest: seq<Action>,
                                        t: System)
    requires Run(limits, Waiting(s, key, stale), Evictions(|s.calls|, n) + rest, t)
    requires rest != [] && rest[0] == Expired(|s.calls|)
    ensures n == |stale| && Run(limits, Waiting(s.(c := EvictAll(s.c, stale)), key, []), rest, t)
    decreases n
  {
    var i, u := |s.calls|, Waiting(s, key, stale);
    var all := Evictions(i, n) + rest;
    assert u.calls[i] == Expiring(key, stale);
    if n == 0 {
      assert all == rest;
      assert Enabled(u, rest[0]);
    } else {
      assert all[0] == EvictNext(i) && all[1..] == Evictions(i, n - 1) + rest;
      assert stale != [];
      WaitingCounts(s, key, stale);
      WaitingCounts(s, key, stale[1..]);
      var v := s.(c := EvictKey(s.c, stale[0]));
      assert u.calls[i := Expiring(key, stale[1..])] == v.calls + [Expiring(key, stale[1..])];
      assert Step(limits, u, EvictNext(i)) == Waiting(v, key, stale[1..]);
      EvictionsRun(limits, v, key, stale[1..], n - 1, rest, t);
    }
  }

  /** The pools of some keys, in order, if they are live. */
  lemma {:induction false} EvictAllIs(c: Cache, keys: seq<Key>, now: int)
    requires CacheOk(c, now) && Distinct(keys) && forall k :: k in keys ==> k in c.entries
    ensures var d := EvictAll(c, keys);
            && CacheOk(d, now) && d.pending == c.pending && d.nextPool == c.nextPool
            && (forall k :: k in d.entries <==> k in c.entries && k !in keys)
            && (forall k :: k in d.entries ==> d.entries[k] == c.entries[k])
            && d.disposed == c.disposed + PoolsOf(keys, c.entries)
    decreases |keys|
  {
    if keys == [] {
      assert c.disposed + [] == c.disposed;
    } else {
      var first, rest := keys[0], keys[1..];
      assert first in keys && keys == [first] + rest;
      EvictOk(c, first, now);
      var d := EvictKey(c, first);
      EvictAllIs(d, rest, now);
      SamePoolsOf(rest, c.entries, d.entries);
      Associative(c.disposed, [c.entries[first].pool], PoolsOf(rest, c.entries));
    }
  }

  lemma {:induction false} SamePoolsOf(keys: seq<Key>, a: map<Key, Entry>, b: map<Key, Entry>)
    requires forall k :: k in keys ==> k in a && k in b && a[k] == b[k]
    ensures PoolsOf(keys, a) == PoolsOf(keys, b)
    decreases |keys|
  {
    if keys != [] {
      assert keys[0] in keys && forall k :: k in keys[1..] ==> k in keys;
      SamePoolsOf(keys[1..], a, b);
    }
  }

  /** A call of its own run, asking for a pool used lately: it is given that pool, creates none, and disposes of
      exactly the pools that had not been used for as long as the limit says, the least recently used first. */
  lemma UndisturbedReuse(limits: Limits, s: System, key: Key, n: nat, t: System)
    requires CacheOk(s.c, s.now) && key in s.c.entries && s.now - s.c.entries[key].lastUsed < limits.idleTtlMs
    requires Run(limits, s, Undisturbed(s, key, n), t)
    ensures t.served == s.served + [Served(key, s.c.entries[key].pool)]
    ensures t.calls == s.calls && t.c.nextPool == s.c.nextPool && t.c.pending == s.c.pending
    ensures forall k :: k in t.c.entries
              <==> k in s.c.entries && s.now - s.c.entries[k].lastUsed < limits.idleTtlMs
    ensures forall k :: k in t.c.entries ==>
              t.c.entries[k] == if k == key then s.c.entries[k].(lastUsed := s.now) else s.c.entries[k]
    ensures n <= |s.c.order| && t.c.disposed == s.c.disposed + PoolsOf(s.c.order[..n], s.c.entries)
    ensures forall k :: k in s.c.order[..n]
              <==> k in s.c.entries && limits.idleTtlMs <= s.now - s.c.entries[k].lastUsed
  {
    hide Run, Touch, Stale, EvictAll, PoolsOf, Undisturbed, CacheOk, Ordered, ByLastUse, Waiting;
    var i := |s.calls|;
    var stale := Stale(s.c.order, s.c.entries, limits, s.now);
    CacheParts(s.c, s.now);
    StaleAre(s.c, limits, s.now);
    RequestRuns(limits, s, key, n, t);
    EvictionsRun(limits, s, key, stale, n, [Expired(i)], t);
    EvictAllIs(s.c, stale, s.now);
    var c := EvictAll(s.c, stale);
    LookupRuns(limits, s.(c := c), key, t);
    TouchGives(c, key, s.now);
  }

  lemma TouchGives(c: Cache, key: Key, now: int)
    requires key in c.entries
    ensures var d := Touch(c, key, now);
            && d.nextPool == c.nextPool && d.pending == c.pending && d.disposed == c.disposed
            && (forall k :: k in d.entries <==> k in c.entries)
            && (forall k :: k in c.entries ==>
                  d.entries[k] == if k == key then c.entries[k].(lastUsed := now) else c.entries[k])
  {
  }

  lemma CacheParts(c: Cache, now: int)
    requires CacheOk(c, now)
    ensures Ordered(c) && ByLastUse(c, now)
  {
  }

  lemma RequestRuns(limits: Limits, s: System, key: Key, n: nat, t: System)
    requires Run(limits, s, Undisturbed(s, key, n), t)
    ensures Run(limits, Waiting(s, key, Stale(s.c.order, s.c.entries, limits, s.now)),
                Evictions(|s.calls|, n) + [Expired(|s.calls|)], t)
  {
    var all := Undisturbed(s, key, n);
    assert all[0] == Request(key) && all[1..] == Evictions(|s.calls|, n) + [Expired(|s.calls|)];
    WaitingCounts(s, key, Stale(s.c.order, s.c.entries, limits, s.now));
  }

  lemma LookupRuns(limits: Limits, s: System, key: Key, t: System)
    requires key in s.c.entries && Run(limits, Waiting(s, key, []), [Expired(|s.calls|)], t)
    ensures t.c == Touch(s.c, key, s.now) && t.calls == s.calls
    ensures t.served == s.served + [Served(key, s.c.entries[key].pool)]
  {
    var u := Waiting(s, key, []);
    assert [Expired(|s.calls|)][1..] == [];
    assert u.calls[..|s.calls|] + u.calls[|s.calls| + 1..] == s.calls;
  }

  // ---- the bound is reached ----

  ghost predicate Reached(limits: Limits, now: int, s: System) {
    exists trace :: Run(limits, Start(now), trace, s)
  }

  lemma {:induction false} RunSnoc(limits: Limits, s: System, trace: seq<Action>, t: System, a: Action)
    requires Run(limits, s, trace, t) && Enabled(t, a)
    ensures Run(limits, s, trace + [a], Step(limits, t, a))
    decreases |trace|
  {
    hide Step;
    if trace == [] {
      assert [] + [a] == [a] && [a][1..] == [];
    } else {
      RunSnoc(limits, Step(limits, s, trace[0]), trace[1..], t, a);
      assert (trace + [a])[1..] == trace[1..] + [a];
    }
  }

  lemma ReachedStep(limits: Limits, now: int, s: System, a: Action)
    requires Reached(limits, now, s) && Enabled(s, a)
    ensures Reached(limits, now, Step(limits, s, a))
  {
    hide Step, Run;
    var trace :| Run(limits, Start(now), trace, s);
    RunSnoc(limits, Start(now), trace, s, a);
  }

  lemma ReachedAtStart(limits: Limits, now: int)
    ensures Reached(limits, now, Start(now))
  {
    assert Run(limits, Start(now), [], Start(now));
  }

  /** As many keys as needed, all different. */
  function KeyAt(i: nat): (key: Key)
    ensures |key| == i
  {
    seq(i, _ => 'k')
  }

  /** The calls for the keys from `a` to `n`: those below `j` are creating, the others about to look. */
  function CallsFrom(a: nat, j: nat, n: nat): seq<Call>
    requires a <= j <= n
  {
    seq(n - a, i requires 0 <= i < n - a => if a + i < j then Creating(KeyAt(a + i)) else Expiring(KeyAt(a + i), []))
  }

  lemma {:induction false} CreatingFrom(a: nat, j: nat, n: nat)
    requires a <= j <= n
    ensures CreatingCount(CallsFrom(a, j, n)) == j - a
    decreases n
  {
    if n > a {
      var before := CallsFrom(a, if j < n then j else n - 1, n - 1);
      assert CallsFrom(a, j, n)[..n - 1 - a] == before;
      CreatingFrom(a, if j < n then j else n - 1, n - 1);
    }
  }

  /** The first `a` of `n` keys have their pools, those up to `j` are being created, the rest wait. */
  ghost predicate Stands(s: System, a: nat, j: nat, n: nat, peak: nat) {
    && a <= j <= n && s.calls == CallsFrom(a, j, n) && |s.c.order| == a && s.peak == peak
    && (forall i: nat :: KeyAt(i) in s.c.entries <==> i < a)
    && (forall i: nat :: KeyAt(i) in s.c.pending <==> a <= i < j)
  }

  lemma {:induction false} Requested(limits: Limits, now: int, n: nat) returns (s: System)
    ensures Reached(limits, now, s) && s == System(Empty(), now, CallsFrom(0, 0, n), 0, [])
  {
    hide Reached;
    if n == 0 {
      s := Start(now);
      ReachedAtStart(limits, now);
    } else {
      var before := Requested(limits, now, n - 1);
      ReachedStep(limits, now, before, Request(KeyAt(n - 1)));
      s := Step(limits, before, Request(KeyAt(n - 1)));
      assert s.calls == CallsFrom(0, 0, n);
      CreatingFrom(0, 0, n);
    }
  }

  /** With room left, the next call becomes a creator. */
  lemma Starts(limits: Limits, now: int, s: System, a: nat, j: nat, n: nat, peak: nat) returns (t: System)
    requires Reached(limits, now, s) && Stands(s, a, j, n, peak) && a < limits.maxPools && j < n
    ensures Reached(limits, now, t) && Stands(t, a, j + 1, n, Max(peak, j + 1 - a))
  {
    hide Reached, CreatingCount;
    var key, at := KeyAt(j), j - a;
    assert s.calls[at] == Expiring(key, []);
    ReachedStep(limits, now, s, Expired(at));
    t := Step(limits, s, Expired(at));
    assert Proceed(s.c, limits, key, s.now) == (s.c.(pending := s.c.pending + {key}), Some(Creating(key)));
    assert t.calls == CallsFrom(a, j + 1, n);
    CreatingFrom(a, j + 1, n);
    OtherKeys(s.c.pending, j);
  }

  lemma OtherKeys(keys: set<Key>, j: nat)
    ensures forall i: nat :: KeyAt(i) in keys + {KeyAt(j)} <==> KeyAt(i) in keys || i == j
    ensures forall i: nat :: KeyAt(i) in keys - {KeyAt(j)} <==> KeyAt(i) in keys && i != j
  {
    forall i: nat | KeyAt(i) == KeyAt(j)
      ensures i == j
    {
      assert |KeyAt(i)| == |KeyAt(j)|;
    }
  }

  /** The oldest creation arrives. */
  lemma Lands(limits: Limits, now: int, s: System, a: nat, j: nat, n: nat, peak: nat) returns (t: System)
    requires Reached(limits, now, s) && Stands(s, a, j, n, peak) && a < j && j - a <= peak
    ensures Reached(limits, now, t) && Stands(t, a + 1, j, n, peak)
  {
    hide Reached, CreatingCount;
    var key := KeyAt(a);
    assert s.calls[0] == Creating(key);
    ReachedStep(limits, now, s, Arrives(0));
    t := Step(limits, s, Arrives(0));
    assert t.calls == CallsFrom(a + 1, j, n);
    CreatingFrom(a + 1, j, n);
    OtherKeys(s.c.pending, a);
    OtherKeys(s.c.entries.Keys, a);
    assert t.c.entries.Keys == s.c.entries.Keys + {key};
  }

  /** One after another, the first `a` calls get their pools. */
  lemma {:induction false} OneByOne(limits: Limits, now: int, a: nat, n: nat) returns (s: System, peak: nat)
    requires a < limits.maxPools && a <= n
    ensures Reached(limits, now, s) && Stands(s, a, a, n, peak) && peak <= 1
  {
    hide Reached;
    if a == 0 {
      s := Requested(limits, now, n);
      peak := 0;
    } else {
      hide Stands;
      s, peak := OneByOne(limits, now, a - 1, n);
      s := Starts(limits, now, s, a - 1, a - 1, n, peak);
      peak := Max(peak, 1);
      s := Lands(limits, now, s, a - 1, a, n, peak);
    }
  }

  /** The calls from `a` on all start, none of them waiting for another. */
  lemma {:induction false} AllStart(limits: Limits, now: int, a: nat, j: nat, n: nat) returns (s: System, peak: nat)
    requires a < limits.maxPools && a <= j <= n
    ensures Reached(limits, now, s) && Stands(s, a, j, n, peak) && peak <= Max(1, j - a) && j - a <= peak
    decreases j
  {
    hide Reached, Stands;
    if j == a {
      s, peak := OneByOne(limits, now, a, n);
    } else {
      s, peak := AllStart(limits, now, a, j - 1, n);
      s := Starts(limits, now, s, a, j - 1, n, peak);
      peak := Max(peak, j - a);
    }
  }

  lemma {:induction false} AllLand(limits: Limits, now: int, s: System, a: nat, n: nat, peak: nat) returns (t: System)
    requires Reached(limits, now, s) && Stands(s, a, n, n, peak) && a <= n && n - a <= peak
    ensures Reached(limits, now, t) && Stands(t, n, n, n, peak)
    decreases n - a
  {
    hide Reached, Stands;
    if a == n {
      t := s;
    } else {
      t := Lands(limits, now, s, a, n, n, peak);
      t := AllLand(limits, now, t, a + 1, n, peak);
    }
  }

  /** For every limit and every number of overlapping creations, the bound of PoolsConserved is reached by live
      pools. */
  lemma PeakBoundReached(limits: Limits, now: int, overlap: nat)
    ensures limits.maxPools >= 1 && overlap >= 1 ==>
              exists s :: Reached(limits, now, s) && s.peak == overlap && |s.c.order| == limits.maxPools - 1 + overlap
  {
    if limits.maxPools >= 1 && overlap >= 1 {
      hide Reached;
      var first, n := limits.maxPools - 1, limits.maxPools - 1 + overlap;
      var s, peak := AllStart(limits, now, first, n, n);
      var t := AllLand(limits, now, s, first, n, peak);
      assert t.peak == overlap && |t.c.order| == n;
    }
  }

  /** `maxPools` bounds the live pools in every run with at most `overlap` creations at once exactly when
      that allows no two. */
  lemma MaxPoolsKeptIff(limits: Limits, now: int, overlap: nat)
    ensures limits.maxPools >= 1 ==>
              ((forall s :: Reached(limits, now, s) && s.peak <= overlap ==> |s.c.order| <= limits.maxPools)
               <==> overlap <= 1)
  {
    if limits.maxPools >= 1 {
      if overlap <= 1 {
        forall s | Reached(limits, now, s) && s.peak <= overlap
          ensures |s.c.order| <= limits.maxPools
        {
          var trace :| Run(limits, Start(now), trace, s);
          PoolsConserved(limits, now, trace, s);
        }
      } else {
        hide Reached;
        PeakBoundReached(limits, now, overlap);
      }
    }
  }
}
