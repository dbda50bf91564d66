/** The limiter's tables behind a state of RateGate: they go along with the steps that use them, and what RateGate
    proves of every run holds of them. */
module RateSteps {
  import opened AsyncLock
  import RateGate
  import opened RateTables
  import opened Sums
  import UserLocks

  ghost predicate ObjectsAre(objects: map<int, MinuteBucket>, heap: map<int, RateGate.Bucket>)
    reads objects.Values
  {
    && objects.Keys == heap.Keys
    && (forall a, b | a in objects && b in objects && objects[a] == objects[b] :: a == b)
    && (forall b | b in objects :: objects[b].window == heap[b].window && objects[b].count == heap[b].count)
  }

  ghost predicate ListedAre(listed: map<Key, MinuteBucket>, objects: map<int, MinuteBucket>, buckets: map<Key, int>) {
    && listed.Keys == buckets.Keys
    && (forall k | k in listed :: buckets[k] in objects && listed[k] == objects[buckets[k]])
  }

  ghost predicate LocksAre(locks: map<int, Lock>, table: UserLocks.Table) {
    && locks.Keys == table.userLocks.Keys
    && (forall u | u in locks :: table.userLocks[u] in table.locks && locks[u] == table.locks[table.userLocks[u]])
  }

  /** The bucket objects there have been, by the numbers RateGate knows them under, in the table or still held. */
  ghost predicate Represents(l: RateLimiter, objects: map<int, MinuteBucket>, s: RateGate.State)
    reads l, objects.Values
  {
    && ObjectsAre(objects, s.counts.heap)
    && ListedAre(l.buckets, objects, s.counts.buckets)
    && LocksAre(l.userLocks, s.table)
  }

  lemma Listed(l: RateLimiter, objects: map<int, MinuteBucket>, s: RateGate.State, k: Key)
    requires Represents(l, objects, s) && k in l.buckets
    ensures k in s.counts.buckets && s.counts.buckets[k] in s.counts.heap
    ensures l.buckets[k].window == s.counts.heap[s.counts.buckets[k]].window
  {
    var b := s.counts.buckets[k];
    assert b in objects && l.buckets[k] == objects[b];
    assert objects[b].window == s.counts.heap[b].window;
  }

  /** The sweep is RateGate's eviction. */
  method FollowEvict(l: RateLimiter, ghost objects: map<int, MinuteBucket>, ghost s: RateGate.State, now: real)
    requires RateGate.Inv(s) && Represents(l, objects, s) && s.counts.clock == (now / 60.0).Floor
    modifies l
    ensures RateGate.Enabled(s, RateGate.Evict)
    ensures Represents(l, objects, RateGate.Step(s, RateGate.Evict))
  {
    hide UserLocks.Inv, RateGate.CountsOk, RateGate.TaskOk;
    RateGate.SweptSpots(s.table, {});
    forall k | k in l.buckets
      ensures k in s.counts.buckets && s.counts.buckets[k] in s.counts.heap
      ensures l.buckets[k].window == s.counts.heap[s.counts.buckets[k]].window
    {
      Listed(l, objects, s, k);
    }
    l.EvictStale(now);
    ghost var s' := RateGate.Step(s, RateGate.Evict);
    assert l.buckets.Keys == s'.counts.buckets.Keys;
    forall u ensures u in l.userLocks <==> u in s'.table.userLocks {
      assert (u, 0) in l.buckets <==> (u, 0) in s'.counts.buckets;
    }
    assert l.userLocks.Keys == s'.table.userLocks.Keys;
  }

  /** An invalidation drops the same buckets. */
  method FollowInvalidate(l: RateLimiter, ghost objects: map<int, MinuteBucket>, ghost s: RateGate.State, group: int)
    requires RateGate.Inv(s) && Represents(l, objects, s) && group != 0
    modifies l
    ensures RateGate.Enabled(s, RateGate.Invalidate(group))
    ensures Represents(l, objects, RateGate.Step(s, RateGate.Invalidate(group)))
  {
    hide UserLocks.Inv, RateGate.CountsOk, RateGate.TaskOk;
    l.InvalidateGroup(group);
    ghost var s' := RateGate.Step(s, RateGate.Invalidate(group));
    assert l.buckets.Keys == s'.counts.buckets.Keys;
  }

  /** Choosing the bucket of this minute is RateGate's pick. */
  method FollowPick(l: RateLimiter, ghost objects: map<int, MinuteBucket>, ghost s: RateGate.State, k: Key,
                    ghost number: int, minute: int) returns (b: MinuteBucket, ghost objects': map<int, MinuteBucket>)
    requires Represents(l, objects, s) && number !in s.counts.heap && s.counts.clock == minute
    modifies l`buckets
    ensures Represents(l, objects', s.(counts := RateGate.Pick(s.counts, k, number)))
    ensures RateGate.Picked(s.counts, k, number) in objects' && objects'[RateGate.Picked(s.counts, k, number)] == b
  {
    hide LocksAre;
    if k in l.buckets {
      Listed(l, objects, s, k);
    }
    b := l.CurrentBucket(k, minute);
    if RateGate.HasCurrent(s.counts, k, minute) {
      objects' := objects;
    } else {
      objects' := objects[number := b];
      forall x | x in objects ensures objects[x] != b {
        assert objects[x] in objects.Values;
      }
      assert objects'.Keys == objects.Keys + {number};
      assert forall x | x in objects :: objects'[x] == objects[x];
      assert ListedAre(l.buckets, objects', s.counts.buckets[k := number]);
    }
  }

  /** Counting a check that passed is counting in the bucket it holds, listed or not. */
  method FollowAdmit(l: RateLimiter, ghost objects: map<int, MinuteBucket>, ghost s: RateGate.State, b: MinuteBucket,
                     ghost number: int)
    requires Represents(l, objects, s) && number in objects && objects[number] == b
    modifies b
    ensures Represents(l, objects, s.(counts := RateGate.Counted(s.counts, number)))
  {
    l.Admit(b);
  }
}
