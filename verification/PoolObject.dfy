/** The cache as the object it is. Each method is one synchronous stretch of the code;
    PoolRuns says what any interleaving of them keeps. */
module PoolObject {
  import opened Wrappers
  import opened Sequences
  import opened PoolCache

  class BoundedPoolCache {
    const limits: Limits
    var order: seq<Key>
    var entries: map<Key, Entry>
    var pending: set<Key>
    var nextPool: Pool
    var disposed: seq<Pool>

    ghost function Now(): Cache
      reads this
    {
      Cache(order, entries, pending, nextPool, disposed)
    }

    constructor (limits: Limits)
      ensures this.limits == limits && Now() == Empty()
    {
      this.limits := limits;
      order, entries, pending, nextPool, disposed := [], map[], {}, 0, [];
    }

    method Delete(key: Key)
      modifies this
      ensures Now() == Drop(old(Now()), key)
    {
      order := Without(order, key);
      entries := entries - {key};
    }

    method SetLast(key: Key, e: Entry)
      modifies this
      ensures Now() == Append(old(Now()), key, e)
    {
      order := order + [key];
      entries := entries[key := e];
    }

    /** `peek`: the live pool of the key, touched, or nothing. */
    method Peek(key: Key, now: int) returns (pool: Option<Pool>)
      modifies this
      ensures Now() == Touch(old(Now()), key, now)
      ensures pool == if key in old(entries) then Some(old(entries)[key].pool) else None
    {
      if key !in entries { return None; }
      var hit := entries[key].(lastUsed := now);
      Delete(key);
      SetLast(key, hit);
      pool := Some(hit.pool);
    }

    /** `evictKey` up to its await: the pool is handed to `dispose`. */
    method Evict(key: Key)
      modifies this
      ensures Now() == EvictKey(old(Now()), key)
    {
      if key !in entries { return; }
      var hit := entries[key];
      Delete(key);
      disposed := disposed + [hit.pool];
    }

    method EvictTheOldest()
      modifies this
      ensures Now() == EvictOldest(old(Now()))
    {
      if |order| == 0 { return; }
      Evict(order[0]);
    }

    /** The expired keys, collected before any of them is evicted. */
    method ExpiredKeys(now: int) returns (stale: seq<Key>)
      requires forall k :: k in order <==> k in entries
      ensures stale == Stale(order, entries, limits, now)
      ensures forall k :: k in stale <==> k in entries && limits.idleTtlMs <= now - entries[k].lastUsed
    {
      stale := [];
      assert order[0..] == order;
      for i := 0 to |order|
        invariant stale + Stale(order[i..], entries, limits, now) == Stale(order, entries, limits, now)
      {
        assert order[i..][1..] == order[i + 1..];
        assert order[i] in order;
        if now - entries[order[i]].lastUsed >= limits.idleTtlMs { stale := stale + [order[i]]; }
      }
      StaleMembers(order, entries, limits, now);
    }

    /** The creator's loop: evict once more, or leave it for `create`. `key` has an entry only if the
        creator lost a race that PoolRuns shows cannot happen. */
    method LoopForRoom(key: Key, now: int) returns (next: Option<Call>)
      modifies this
      ensures (Now(), next) == MakeRoom(old(Now()), limits, key, now)
    {
      if |order| >= limits.maxPools {
        EvictTheOldest();
        return Some(Evicting(key));
      }
      var again := Peek(key, now);
      if again.Some? {
        pending := pending - {key};
        return None;
      }
      next := Some(Creating(key));
    }

    /** `getOrCreate` after expired entries are gone, up to its next await. */
    method Lookup(key: Key, now: int) returns (next: Option<Call>)
      modifies this
      ensures (Now(), next) == Proceed(old(Now()), limits, key, now)
    {
      var existing := Peek(key, now);
      if existing.Some? { return None; }
      if key in pending { return None; }
      pending := pending + {key};
      next := LoopForRoom(key, now);
    }

    /** `create` resolved. */
    method Keep(key: Key, now: int)
      modifies this
      ensures Now() == Created(old(Now()), key, now)
    {
      var pool := nextPool;
      nextPool := nextPool + 1;
      pending := pending - {key};
      if key in entries {
        disposed := disposed + [pool];
        entries := entries[key := entries[key].(lastUsed := now)];
        return;
      }
      SetLast(key, Entry(pool, now));
    }

    method DisposeAll()
      requires forall k :: k in order ==> k in entries
      modifies this
      ensures Now() == Clear(old(Now()))
    {
      var keys, all := order, entries;
      var pools: seq<Pool> := [];
      assert keys[0..] == keys;
      for i := 0 to |keys|
        invariant pools + PoolsOf(keys[i..], all) == PoolsOf(keys, all) && Now() == old(Now())
      {
        assert keys[i..][1..] == keys[i + 1..];
        assert keys[i] in keys;
        pools := pools + [all[keys[i]].pool];
      }
      order, entries, disposed := [], map[], disposed + pools;
    }
  }
}
