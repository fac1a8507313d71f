/** The bounded pool cache as values: what each synchronous stretch of `getOrCreate`
    and its helpers does to the maps. */
module PoolCache {
  import opened Wrappers
  import opened Sequences

  type Key = string
  type Pool = nat

  datatype Entry = Entry(pool: Pool, lastUsed: int)

  /** `order` is the insertion order of `entries`. `nextPool` numbers the pools created so far and
      `disposed` lists the pools handed to `dispose`: a history the code does not keep. */
  datatype Cache = Cache(order: seq<Key>, entries: map<Key, Entry>, pending: set<Key>, nextPool: Pool,
                         disposed: seq<Pool>)

  datatype Limits = Limits(maxPools: nat, idleTtlMs: int)

  /** Where a `getOrCreate` call is suspended: evicting expired entries (these keys are left), making
      room for its own pool, or waiting for `create`. */
  datatype Call = Expiring(key: Key, stale: seq<Key>) | Evicting(key: Key) | Creating(key: Key)

  function Empty(): Cache {
    Cache([], map[], {}, 0, [])
  }

  /** `entries.delete(key)`. */
  function Drop(c: Cache, key: Key): Cache {
    c.(order := Without(c.order, key), entries := c.entries - {key})
  }

  /** `entries.set` on a key that is not there: it goes last. */
  function Append(c: Cache, key: Key, e: Entry): Cache {
    c.(order := c.order + [key], entries := c.entries[key := e])
  }

  /** `peek`: touch an entry, which makes it the newest. */
  function Touch(c: Cache, key: Key, now: int): Cache {
    if key in c.entries then Append(Drop(c, key), key, c.entries[key].(lastUsed := now)) else c
  }

  /** `evictKey`: forget the entry and dispose of its pool. */
  function EvictKey(c: Cache, key: Key): Cache {
    if key in c.entries then Drop(c, key).(disposed := c.disposed + [c.entries[key].pool]) else c
  }

  function EvictOldest(c: Cache): Cache {
    if c.order == [] then c else EvictKey(c, c.order[0])
  }

  /** The keys whose entries have been idle too long, oldest first. */
  function Stale(order: seq<Key>, entries: map<Key, Entry>, limits: Limits, now: int): seq<Key> {
    if order == [] then [] else
      var rest := Stale(order[1..], entries, limits, now);
      if order[0] in entries && now - entries[order[0]].lastUsed >= limits.idleTtlMs then [order[0]] + rest else rest
  }

  /** The creator's loop test, each time round: make room, or go on to `create`. */
  function MakeRoom(c: Cache, limits: Limits, key: Key, now: int): (Cache, Option<Call>) {
    if |c.order| >= limits.maxPools then (EvictOldest(c), Some(Evicting(key)))
    else if key in c.entries then (Touch(c, key, now).(pending := c.pending - {key}), None)
    else (c, Some(Creating(key)))
  }

  /** `getOrCreate` once expired entries are gone: return the live pool, join the creation in flight,
      or become its creator. `None` where the call needs no further step of its own. */
  function Proceed(c: Cache, limits: Limits, key: Key, now: int): (Cache, Option<Call>) {
    if key in c.entries then (Touch(c, key, now), None)
    else if key in c.pending then (c, None)
    else MakeRoom(c.(pending := c.pending + {key}), limits, key, now)
  }

  /** `create` resolved with a new pool: keep it, unless the key got one meanwhile. */
  function Created(c: Cache, key: Key, now: int): Cache {
    var pool := c.nextPool;
    var d := c.(nextPool := pool + 1, pending := c.pending - {key});
    if key in c.entries then
      d.(disposed := d.disposed + [pool], entries := d.entries[key := d.entries[key].(lastUsed := now)])
    else Append(d, key, Entry(pool, now))
  }

  /** The creation failed: `finally` forgets it. */
  function Abandon(c: Cache, key: Key): Cache {
    c.(pending := c.pending - {key})
  }

  function PoolsOf(order: seq<Key>, entries: map<Key, Entry>): seq<Pool> {
    if order == [] then []
    else (if order[0] in entries then [entries[order[0]].pool] else []) + PoolsOf(order[1..], entries)
  }

  /** `clear`: dispose of everything live. Creations in flight are not affected. */
  function Clear(c: Cache): Cache {
    c.(order := [], entries := map[], disposed := c.disposed + PoolsOf(c.order, c.entries))
  }

  // ---- well-formed caches ----

  /** The order lists the keys of the map once each. */
  ghost predicate Ordered(c: Cache) {
    Distinct(c.order) && forall k :: k in c.order <==> k in c.entries
  }

  /** Entries stand in order of last use. */
  ghost predicate ByLastUse(c: Cache, now: int) {
    && (forall k :: k in c.order ==> k in c.entries && c.entries[k].lastUsed <= now)
    && (forall i, j :: 0 <= i < j < |c.order| ==> c.entries[c.order[i]].lastUsed <= c.entries[c.order[j]].lastUsed)
  }

  ghost predicate Live(c: Cache, p: Pool) {
    exists k :: k in c.entries && c.entries[k].pool == p
  }

  /** Every pool created is live under one key or disposed of once, never both. */
  ghost predicate Conserved(c: Cache) {
    && Distinct(c.disposed)
    && (forall k, m :: k in c.entries && m in c.entries && k != m ==> c.entries[k].pool != c.entries[m].pool)
    && (forall p: Pool :: p < c.nextPool <==> (Live(c, p) || p in c.disposed))
    && (forall p: Pool :: !(Live(c, p) && p in c.disposed))
  }

  ghost predicate CacheOk(c: Cache, now: int) {
    Ordered(c) && ByLastUse(c, now) && Conserved(c)
  }

  /** Leaving one key out keeps the rest in place. */
  lemma {:induction false} WithoutKeepsOrder(order: seq<Key>, key: Key, i: nat, j: nat) returns (a: nat, b: nat)
    requires i < j < |Without(order, key)|
    ensures a < b < |order| && order[a] == Without(order, key)[i] && order[b] == Without(order, key)[j]
  {
    var rest := order[1..];
    if order[0] == key {
      a, b := WithoutKeepsOrder(rest, key, i, j);
      a, b := a + 1, b + 1;
    } else if i == 0 {
      WithoutIsSub(rest, key, j - 1);
      a := 0;
      var k :| 0 <= k < |rest| && rest[k] == Without(rest, key)[j - 1];
      b := k + 1;
    } else {
      a, b := WithoutKeepsOrder(rest, key, i - 1, j - 1);
      a, b := a + 1, b + 1;
    }
  }

  lemma {:induction false} WithoutIsSub(order: seq<Key>, key: Key, j: nat)
    requires j < |Without(order, key)|
    ensures Without(order, key)[j] in order
  {
    if order[0] == key {
      WithoutIsSub(order[1..], key, j);
    } else if j > 0 {
      WithoutIsSub(order[1..], key, j - 1);
    }
  }

  lemma DropOk(c: Cache, key: Key, now: int)
    requires Ordered(c) && ByLastUse(c, now)
    ensures Ordered(Drop(c, key)) && ByLastUse(Drop(c, key), now)
    ensures |Drop(c, key).order| == |c.order| - (if key in c.entries then 1 else 0)
  {
    WithoutMembers(c.order, key);
    var d := Drop(c, key);
    forall i, j | 0 <= i < j < |d.order| ensures d.entries[d.order[i]].lastUsed <= d.entries[d.order[j]].lastUsed {
      var a, b := WithoutKeepsOrder(c.order, key, i, j);
      assert d.order[i] in d.order && d.order[j] in d.order;
    }
  }

  lemma AppendOk(c: Cache, key: Key, e: Entry, now: int)
    requires Ordered(c) && ByLastUse(c, now) && key !in c.entries && e.lastUsed == now
    ensures Ordered(Append(c, key, e)) && ByLastUse(Append(c, key, e), now)
  {
    var d := Append(c, key, e);
    forall i, j | 0 <= i < j < |d.order| ensures d.entries[d.order[i]].lastUsed <= d.entries[d.order[j]].lastUsed {
      assert d.order[i] in c.order;
      assert j < |c.order| ==> d.order[j] in c.order;
    }
  }

  lemma TouchOk(c: Cache, key: Key, now: int)
    requires CacheOk(c, now)
    ensures CacheOk(Touch(c, key, now), now)
    ensures |Touch(c, key, now).order| == |c.order|
    ensures forall k :: k in Touch(c, key, now).entries <==> k in c.entries
  {
    if key in c.entries {
      DropOk(c, key, now);
      var e := c.entries[key].(lastUsed := now);
      AppendOk(Drop(c, key), key, e, now);
      var d := Touch(c, key, now);
      SamePools(c, d);
    }
  }

  lemma SamePools(c: Cache, d: Cache)
    requires Conserved(c) && d.nextPool == c.nextPool && d.disposed == c.disposed
    requires forall k :: k in d.entries <==> k in c.entries
    requires forall k :: k in c.entries ==> d.entries[k].pool == c.entries[k].pool
    ensures Conserved(d)
  {
    forall p ensures Live(d, p) <==> Live(c, p) {
      if Live(c, p) {
        var k :| k in c.entries && c.entries[k].pool == p;
        assert k in d.entries && d.entries[k].pool == p;
      }
    }
  }

  lemma EvictOk(c: Cache, key: Key, now: int)
    requires CacheOk(c, now)
    ensures CacheOk(EvictKey(c, key), now)
    ensures |EvictKey(c, key).order| == |c.order| - (if key in c.entries then 1 else 0)
    ensures forall k :: k in EvictKey(c, key).entries <==> k in c.entries && k != key
  {
    if key in c.entries {
      DropOk(c, key, now);
      var d, gone := EvictKey(c, key), c.entries[key].pool;
      assert Live(c, gone);
      forall p ensures Live(d, p) <==> Live(c, p) && p != gone {
        if Live(c, p) && p != gone {
          var k :| k in c.entries && c.entries[k].pool == p;
          assert k in d.entries && d.entries[k].pool == p;
        }
        if Live(d, p) {
          var k :| k in d.entries && d.entries[k].pool == p;
          assert k in c.entries && k != key;
        }
      }
    }
  }

  /** The entry `evictOldest` takes is the least recently used one. */
  lemma OldestIsLeastRecentlyUsed(c: Cache, now: int)
    requires CacheOk(c, now) && c.order != []
    ensures EvictOldest(c) == EvictKey(c, c.order[0]) && c.order[0] in c.entries
    ensures forall k :: k in c.entries ==> c.entries[c.order[0]].lastUsed <= c.entries[k].lastUsed
  {
    assert c.order[0] in c.order;
    forall k | k in c.entries ensures c.entries[c.order[0]].lastUsed <= c.entries[k].lastUsed {
      var i :| 0 <= i < |c.order| && c.order[i] == k;
    }
  }

  lemma CreatedOk(c: Cache, key: Key, now: int)
    requires CacheOk(c, now) && key !in c.entries
    ensures CacheOk(Created(c, key, now), now)
    ensures Created(c, key, now).entries.Keys == c.entries.Keys + {key}
    ensures |Created(c, key, now).order| == |c.order| + 1
  {
    var pool := c.nextPool;
    var base := c.(nextPool := pool + 1, pending := c.pending - {key});
    AppendOk(base, key, Entry(pool, now), now);
    var d := Created(c, key, now);
    forall p ensures Live(d, p) <==> Live(c, p) || p == pool {
      if Live(c, p) {
        var k :| k in c.entries && c.entries[k].pool == p;
        assert k in d.entries && d.entries[k].pool == p;
      }
      assert d.entries[key].pool == pool;
      if Live(d, p) {
        var k :| k in d.entries && d.entries[k].pool == p;
        assert k != key ==> k in c.entries;
      }
    }
    forall k | k in c.entries ensures c.entries[k].pool < pool {
      assert Live(c, c.entries[k].pool);
    }
    assert forall p: Pool :: p in c.disposed ==> p < pool;
  }

  lemma {:induction false} PoolsOfMembers(order: seq<Key>, entries: map<Key, Entry>)
    requires Distinct(order) && forall k :: k in order ==> k in entries
    requires forall k, m :: k in entries && m in entries && k != m ==> entries[k].pool != entries[m].pool
    ensures forall p :: p in PoolsOf(order, entries) <==> exists k :: k in order && entries[k].pool == p
    ensures Distinct(PoolsOf(order, entries))
  {
    if order != [] {
      var rest := order[1..];
      assert order == [order[0]] + rest;
      PoolsOfMembers(rest, entries);
      assert order[0] !in rest;
      assert order[0] in order;
      forall p ensures p in PoolsOf(order, entries) <==> exists k :: k in order && entries[k].pool == p {
        if p in PoolsOf(rest, entries) {
          var k :| k in rest && entries[k].pool == p;
          assert k in order;
        }
      }
      assert entries[order[0]].pool !in PoolsOf(rest, entries);
    }
  }

  lemma ClearOk(c: Cache, now: int)
    requires CacheOk(c, now)
    ensures CacheOk(Clear(c), now)
  {
    PoolsOfMembers(c.order, c.entries);
    var d, pools := Clear(c), PoolsOf(c.order, c.entries);
    forall p ensures p in pools <==> Live(c, p) {
      if Live(c, p) {
        var k :| k in c.entries && c.entries[k].pool == p;
        assert k in c.order;
      }
    }
    forall i, j | 0 <= i < j < |d.disposed| ensures d.disposed[i] != d.disposed[j] {
      if i < |c.disposed| <= j {
        assert d.disposed[i] in c.disposed && d.disposed[j] in pools;
      }
    }
    forall p: Pool ensures !Live(d, p) {}
  }

  // ---- what counts as expired ----

  /** Not used for as long as the limit says. */
  predicate IdleTooLong(e: Entry, limits: Limits, now: int) {
    limits.idleTtlMs <= now - e.lastUsed
  }

  lemma {:induction false} StaleMembers(order: seq<Key>, entries: map<Key, Entry>, limits: Limits, now: int)
    ensures forall k :: k in Stale(order, entries, limits, now)
              <==> k in order && k in entries && IdleTooLong(entries[k], limits, now)
    ensures |Stale(order, entries, limits, now)| <= |order|
  {
    if order != [] {
      assert order == [order[0]] + order[1..];
      StaleMembers(order[1..], entries, limits, now);
    }
  }

  lemma SomeMember(keys: seq<Key>)
    requires keys != []
    ensures exists k :: k in keys
  {
    assert keys[0] in keys;
  }

  /** After one that has not expired none has. */
  lemma NoneStale(order: seq<Key>, entries: map<Key, Entry>, limits: Limits, now: int)
    requires order != [] && forall k :: k in order ==> k in entries
    requires forall i, j :: 0 <= i < j < |order| ==> entries[order[i]].lastUsed <= entries[order[j]].lastUsed
    requires !IdleTooLong(entries[order[0]], limits, now)
    ensures Stale(order[1..], entries, limits, now) == []
  {
    var rest := Stale(order[1..], entries, limits, now);
    StaleMembers(order[1..], entries, limits, now);
    forall k | k in order[1..]
      ensures !IdleTooLong(entries[k], limits, now)
    {
      var j :| 0 <= j < |order| - 1 && order[1..][j] == k;
      assert order[j + 1] == k;
    }
    if rest != [] {
      SomeMember(rest);
    }
  }

  lemma {:induction false} StaleComesFirst(order: seq<Key>, entries: map<Key, Entry>, limits: Limits, now: int)
    requires forall k :: k in order ==> k in entries
    requires forall i, j :: 0 <= i < j < |order| ==> entries[order[i]].lastUsed <= entries[order[j]].lastUsed
    ensures var stale := Stale(order, entries, limits, now); |stale| <= |order| && stale == order[..|stale|]
  {
    if order != [] {
      assert order[0] in order && forall k :: k in order[1..] ==> k in order;
      if IdleTooLong(entries[order[0]], limits, now) {
        StaleComesFirst(order[1..], entries, limits, now);
      } else {
        NoneStale(order, entries, limits, now);
      }
    }
  }

  /** The expired keys are exactly those not used for as long as the limit says, each once and the least recently
      used first. */
  lemma StaleAre(c: Cache, limits: Limits, now: int)
    requires Ordered(c) && ByLastUse(c, now)
    ensures var stale := Stale(c.order, c.entries, limits, now);
            && (forall k :: k in stale <==> k in c.entries && IdleTooLong(c.entries[k], limits, now))
            && |stale| <= |c.order| && stale == c.order[..|stale|] && Distinct(stale)
  {
    StaleMembers(c.order, c.entries, limits, now);
    StaleComesFirst(c.order, c.entries, limits, now);
  }
}
