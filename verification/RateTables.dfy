/** The rate limiter's tables as app/rate_limit.py updates them in place. A bucket is an object: a check in
    progress keeps its reference when the table's entry is replaced or evicted. RateGate is the same with
    bucket objects numbered, and tasks. */
module RateTables {
  import opened AsyncLock
  import opened ReentrantLock
  import opened Sums

  type Key = (int, int)

  /** A cached daily count, served until it expires and kept for a while after as the last one known. */
  datatype CachedCount = CachedCount(count: nat, expiresAt: real)

  const RPD_CACHE_RETENTION := 300.0

  /** The locks a sweep keeps. */
  function Needed(locks: map<int, Lock>, listed: set<Key>): map<int, Lock> {
    map u | u in locks && ((u, 0) in listed || locks[u].InUse()) :: locks[u]
  }

  /** The cached counts a sweep keeps. */
  function Unexpired<K>(cache: map<K, CachedCount>, cutoff: real): map<K, CachedCount> {
    map k | k in cache && cache[k].expiresAt >= cutoff :: cache[k]
  }

  method SweepCache<K(==, !new)>(cache: map<K, CachedCount>, cutoff: real) returns (kept: map<K, CachedCount>)
    ensures kept == Unexpired(cache, cutoff)
  {
    var keys := ListKeys(cache);
    kept := cache;
    for i := 0 to |keys|
      invariant forall k :: k in kept <==> k in cache && (k in keys[..i] ==> cache[k].expiresAt >= cutoff)
      invariant forall k | k in kept :: kept[k] == cache[k]
    {
      var k := keys[i];
      assert keys[..i + 1] == keys[..i] + [k];
      if cache[k].expiresAt < cutoff {
        kept := kept - {k};
      }
    }
    assert keys[..|keys|] == keys;
  }

  method WithoutGroup(cache: map<Key, CachedCount>, group: int) returns (kept: map<Key, CachedCount>)
    ensures kept == map k | k in cache && k.1 != group :: cache[k]
  {
    var keys := ListKeys(cache);
    kept := cache;
    for i := 0 to |keys|
      invariant forall k :: k in kept <==> k in cache && (k in keys[..i] ==> k.1 != group)
      invariant forall k | k in kept :: kept[k] == cache[k]
    {
      var k := keys[i];
      assert keys[..i + 1] == keys[..i] + [k];
      if k.1 == group {
        kept := kept - {k};
      }
    }
    assert keys[..|keys|] == keys;
  }

  class MinuteBucket {
    const window: int
    var count: nat

    constructor (w: int)
      ensures window == w && count == 0
    {
      window, count := w, 0;
    }
  }

  class RateLimiter {
    var buckets: map<Key, MinuteBucket>
    var userLocks: map<int, Lock>
    var poolLocks: map<int, TaskReentrantLock>
    var dailyCounts: map<int, CachedCount>
    var groupDailyCounts: map<Key, CachedCount>

    /** The key's bucket of this minute, put in place of an older one if need be. */
    method CurrentBucket(k: Key, minute: int) returns (b: MinuteBucket)
      modifies this`buckets
      ensures if k in old(buckets) && old(buckets)[k].window == minute
              then b == old(buckets)[k] && buckets == old(buckets)
              else fresh(b) && b.count == 0 && buckets == old(buckets)[k := b]
      ensures b.window == minute
    {
      if k in buckets && buckets[k].window == minute {
        return buckets[k];
      }
      b := new MinuteBucket(minute);
      buckets := buckets[k := b];
    }

    /** The end of a check that passed: the bucket it holds is counted, listed or not. */
    method Admit(b: MinuteBucket)
      modifies b
      ensures b.count == old(b.count) + 1
    {
      b.count := b.count + 1;
    }

    /** _evict_stale_buckets: buckets older than the last minute go, then counts expired for longer than
        the retention, the locks of users left without a Default bucket that nobody holds or awaits, and
        the pool locks nobody holds or awaits. */
    method EvictStale(now: real)
      modifies this
      ensures var minute := (now / 60.0).Floor;
        buckets == map k | k in old(buckets) && old(buckets)[k].window >= minute - 1 :: old(buckets)[k]
      // a lock goes exactly when nobody holds it, nobody queues for it, and its user has no Default bucket left
      ensures forall u :: u in userLocks <==>
        u in old(userLocks)
        && (old(userLocks)[u].holder.Some? || |old(userLocks)[u].waiters| > 0 || (u, 0) in buckets)
      ensures forall u | u in userLocks :: userLocks[u] == old(userLocks)[u]
      ensures forall p :: p in poolLocks <==>
        p in old(poolLocks)
        && (old(poolLocks)[p].lock.holder.Some? || |old(poolLocks)[p].lock.waiters| > 0)
      ensures forall p | p in poolLocks :: poolLocks[p] == old(poolLocks)[p]
      // a cached count goes exactly when it expired more than five minutes ago
      ensures forall k :: k in dailyCounts <==> k in old(dailyCounts) && old(dailyCounts)[k].expiresAt >= now - 300.0
      ensures forall k | k in dailyCounts :: dailyCounts[k] == old(dailyCounts)[k]
      ensures forall k :: k in groupDailyCounts <==>
        k in old(groupDailyCounts) && old(groupDailyCounts)[k].expiresAt >= now - 300.0
      ensures forall k | k in groupDailyCounts :: groupDailyCounts[k] == old(groupDailyCounts)[k]
    {
      DropStale((now / 60.0).Floor);
      dailyCounts := SweepCache(dailyCounts, now - RPD_CACHE_RETENTION);
      groupDailyCounts := SweepCache(groupDailyCounts, now - RPD_CACHE_RETENTION);
      DropIdle();
      DropIdlePools();
    }

    /** invalidate_group, the part on buckets and counts. Default's are not a group's. */
    method InvalidateGroup(group: int)
      requires group != 0
      modifies this`buckets, this`groupDailyCounts
      ensures buckets == map k | k in old(buckets) && k.1 != group :: old(buckets)[k]
      ensures groupDailyCounts == map k | k in old(groupDailyCounts) && k.1 != group :: old(groupDailyCounts)[k]
    {
      var keys := ListKeys(buckets);
      ghost var b := buckets;
      for i := 0 to |keys|
        invariant forall k :: k in buckets <==> k in b && (k in keys[..i] ==> k.1 != group)
        invariant forall k | k in buckets :: buckets[k] == b[k]
        invariant groupDailyCounts == old(groupDailyCounts)
      {
        var k := keys[i];
        assert keys[..i + 1] == keys[..i] + [k];
        if k.1 == group {
          buckets := buckets - {k};
        }
      }
      assert keys[..|keys|] == keys;
      groupDailyCounts := WithoutGroup(groupDailyCounts, group);
    }

    method DropIdlePools()
      modifies this`poolLocks
      ensures poolLocks == map p | p in old(poolLocks) && old(poolLocks)[p].InUse() :: old(poolLocks)[p]
    {
      var pools := ListKeys(poolLocks);
      ghost var locks := poolLocks;
      for i := 0 to |pools|
        invariant forall p :: p in poolLocks <==> p in locks && (p in pools[..i] ==> locks[p].InUse())
        invariant forall p | p in poolLocks :: poolLocks[p] == locks[p]
      {
        var p := pools[i];
        assert pools[..i + 1] == pools[..i] + [p];
        assert p !in pools[..i];
        if !poolLocks[p].InUse() {
          poolLocks := poolLocks - {p};
        }
      }
      assert pools[..|pools|] == pools;
      ghost var wanted := map p | p in locks && locks[p].InUse() :: locks[p];
      forall p ensures p in poolLocks <==> p in wanted {
        assert p in locks ==> p in pools[..|pools|];
      }
      assert poolLocks.Keys == wanted.Keys;
      assert forall p | p in poolLocks :: poolLocks[p] == wanted[p];
      assert locks == old(poolLocks);
    }

    method DropStale(minute: int)
      modifies this`buckets
      ensures buckets == map k | k in old(buckets) && old(buckets)[k].window >= minute - 1 :: old(buckets)[k]
    {
      var keys := ListKeys(buckets);
      ghost var b := buckets;
      for i := 0 to |keys|
        invariant forall k :: k in buckets <==> k in b && (k in keys[..i] ==> b[k].window >= minute - 1)
        invariant forall k | k in buckets :: buckets[k] == b[k]
      {
        var k := keys[i];
        assert keys[..i + 1] == keys[..i] + [k];
        assert k !in keys[..i];
        if buckets[k].window < minute - 1 {
          buckets := buckets - {k};
        }
      }
      assert keys[..|keys|] == keys;
    }

    method DropIdle()
      modifies this`userLocks
      ensures userLocks == Needed(old(userLocks), buckets.Keys)
    {
      var users := ListKeys(userLocks);
      ghost var locks := userLocks;
      for i := 0 to |users|
        invariant forall u ::
          u in userLocks <==> u in locks && (u in users[..i] ==> (u, 0) in buckets || locks[u].InUse())
        invariant forall u | u in userLocks :: userLocks[u] == locks[u]
        invariant buckets == old(buckets)
      {
        var u := users[i];
        assert users[..i + 1] == users[..i] + [u];
        assert u !in users[..i];
        if (u, 0) !in buckets && !userLocks[u].InUse() {
          userLocks := userLocks - {u};
        }
      }
      assert users[..|users|] == users;
      forall u ensures u in userLocks <==> u in Needed(locks, buckets.Keys) {
        assert u in locks ==> u in users[..|users|];
      }
      assert userLocks.Keys == Needed(locks, buckets.Keys).Keys;
      assert forall u | u in userLocks :: userLocks[u] == Needed(locks, buckets.Keys)[u];
      assert locks == old(userLocks);
    }
  }
}
