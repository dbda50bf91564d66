/** The per-minute limit over whole runs of the gate: among the checks begun in one minute a key is admitted
    at most as often as its limit, once more over for each invalidation of its group in that minute. */
module RateBound {
  import opened Arith
  import opened Options
  import opened RateGate
  import opened Sums
  import opened UserLocks

  function AdmittedIn(c: Counts, k: Key, minute: int): int { At(c.admitted, (k, minute)) }
  function MadeIn(c: Counts, k: Key, minute: int): int { At(c.made, (k, minute)) }
  function DroppedIn(c: Counts, group: int, minute: int): int { At(c.dropped, (group, minute)) }

  // ----- buckets made ---------------------------------------------------------------------

  /** A key gets one bucket a minute, and another for each invalidation of its group. */
  ghost predicate MadeOk(c: Counts) {
    && (forall k, m :: 0 <= MadeIn(c, k, m) <= 1 + DroppedIn(c, k.1, m))
    && (forall k :: !HasCurrent(c, k, c.clock) ==> MadeIn(c, k, c.clock) <= DroppedIn(c, k.1, c.clock))
    && (forall k, m | m > c.clock :: MadeIn(c, k, m) == 0)
    && (forall g, m :: 0 <= DroppedIn(c, g, m) && (m > c.clock || g == DEFAULT_GROUP ==> DroppedIn(c, g, m) == 0))
  }

  /** What picking does to the buckets of this minute and to the histories. */
  lemma PickFacts(c: Counts, k: Key, nb: int, j: Key, m: int)
    requires CountsOk(c) && nb !in c.heap
    ensures var c' := Pick(c, k, nb);
      && (HasCurrent(c', j, c.clock) <==> j == k || HasCurrent(c, j, c.clock)) && c'.clock == c.clock
           && c'.dropped == c.dropped
      && MadeIn(c', j, m) == MadeIn(c, j, m) + if j == k && m == c.clock && !HasCurrent(c, k, c.clock) then 1 else 0
  {
    assert j in c.buckets ==> Faithful(c, j, c.buckets[j]);
  }

  lemma PickMade(c: Counts, k: Key, nb: int)
    requires MadeOk(c) && CountsOk(c) && nb !in c.heap
    ensures MadeOk(Pick(c, k, nb))
  {
    hide Pick, HasCurrent, CountsOk, MadeIn;
    var c' := Pick(c, k, nb);
    PickFacts(c, k, nb, k, c.clock);
    forall g, m ensures DroppedIn(c', g, m) == DroppedIn(c, g, m) {
    }
    forall j, m ensures 0 <= MadeIn(c', j, m) <= 1 + DroppedIn(c', j.1, m) && (m > c.clock ==> MadeIn(c', j, m) == 0) {
      PickFacts(c, k, nb, j, m);
      assert 0 <= MadeIn(c, j, m) <= 1 + DroppedIn(c, j.1, m);
    }
    forall j | !HasCurrent(c', j, c.clock) ensures MadeIn(c', j, c.clock) <= DroppedIn(c', j.1, c.clock) {
      PickFacts(c, k, nb, j, c.clock);
    }
  }

  lemma SameMade(c: Counts, c': Counts)
    requires MadeOk(c) && c'.made == c.made && c'.dropped == c.dropped && c'.clock == c.clock
    requires forall k | HasCurrent(c, k, c.clock) :: HasCurrent(c', k, c.clock)
    ensures MadeOk(c')
  {
    forall j, m ensures MadeIn(c', j, m) == MadeIn(c, j, m) {
    }
    forall g, m ensures DroppedIn(c', g, m) == DroppedIn(c, g, m) {
    }
  }

  lemma TickMade(c: Counts, n: nat)
    requires MadeOk(c)
    ensures MadeOk(c.(clock := c.clock + n))
  {
    var c' := c.(clock := c.clock + n);
    if n == 0 {
      assert c' == c;
    } else {
      forall j, m ensures MadeIn(c', j, m) == MadeIn(c, j, m) {
      }
      forall g, m ensures DroppedIn(c', g, m) == DroppedIn(c, g, m) {
      }
    }
  }

  lemma WithoutGroupFacts(c: Counts, g: int, k: Key, m: int)
    ensures var c' := WithoutGroup(c, g);
      && MadeIn(c', k, m) == MadeIn(c, k, m) && c'.clock == c.clock
      && DroppedIn(c', k.1, m) == DroppedIn(c, k.1, m) + (if k.1 == g && m == c.clock then 1 else 0)
      && (k.1 != g && HasCurrent(c, k, c.clock) ==> HasCurrent(c', k, c.clock))
  {
  }

  lemma WithoutGroupMade(c: Counts, g: int)
    requires MadeOk(c) && g != DEFAULT_GROUP
    ensures MadeOk(WithoutGroup(c, g))
  {
    hide WithoutGroup, MadeIn, DroppedIn, HasCurrent;
    var c' := WithoutGroup(c, g);
    forall k: Key, m
      ensures 0 <= MadeIn(c', k, m) <= 1 + DroppedIn(c', k.1, m) && (m > c'.clock ==> MadeIn(c', k, m) == 0)
    {
      WithoutGroupFacts(c, g, k, m);
    }
    forall k: Key | !HasCurrent(c', k, c'.clock) ensures MadeIn(c', k, c'.clock) <= DroppedIn(c', k.1, c'.clock) {
      WithoutGroupFacts(c, g, k, c.clock);
    }
    forall h, m ensures 0 <= DroppedIn(c', h, m) && (m > c'.clock || h == DEFAULT_GROUP ==> DroppedIn(c', h, m) == 0) {
      WithoutGroupFacts(c, g, (0, h), m);
    }
  }

  // ----- admissions per bucket ----------------------------------------------------------------

  /** Each bucket of the key was filled to the limit r at most; the one in the map still counts. */
  ghost predicate BoundOk(c: Counts, k: Key, r: int) {
    forall m :: Bounded(c, k, r, m)
  }

  ghost predicate Bounded(c: Counts, k: Key, r: int, m: int) {
    if HasCurrent(c, k, m) then
      && 0 <= c.heap[c.buckets[k]].count <= r
      && AdmittedIn(c, k, m) + r <= r * MadeIn(c, k, m) + c.heap[c.buckets[k]].count
    else AdmittedIn(c, k, m) <= r * MadeIn(c, k, m)
  }

  /** There is room for one more in the bucket of a check in progress. */
  ghost predicate HasRoom(c: Counts, k: Key, r: int, b: int) {
    && b in c.heap && c.heap[b].count < r
    && (k in c.buckets ==> c.buckets[k] == b)
    && (k !in c.buckets ==> AdmittedIn(c, k, c.heap[b].window) + 1 <= r * MadeIn(c, k, c.heap[b].window))
  }

  /** Picking for the key when nobody holds one of its buckets. */
  lemma PickBound(c: Counts, k: Key, r: int, nb: int)
    requires BoundOk(c, k, r) && CountsOk(c) && nb !in c.heap && 0 <= r
    ensures BoundOk(Pick(c, k, nb), k, r)
  {
    var c' := Pick(c, k, nb);
    forall m ensures Bounded(c', k, r, m) {
      assert Bounded(c, k, r, m);
      if !HasCurrent(c, k, c.clock) {
        MadeOnce(c, c', k, r, m);
      }
    }
  }

  lemma MadeOnce(c: Counts, c': Counts, k: Key, r: int, m: int)
    requires c'.made == Bumped(c.made, (k, c.clock))
    ensures r * MadeIn(c', k, m) == r * MadeIn(c, k, m) + if m == c.clock then r else 0
  {
    Distribute(r, MadeIn(c, k, m), if m == c.clock then 1 else 0);
  }

  lemma PickOtherBound(c: Counts, j: Key, nb: int, k: Key, r: int)
    requires j != k && BoundOk(c, k, r) && CountsOk(c) && nb !in c.heap
    ensures BoundOk(Pick(c, j, nb), k, r)
  {
    var c' := Pick(c, j, nb);
    forall m ensures Bounded(c', k, r, m) {
      assert Bounded(c, k, r, m);
      SameForKey(c, c', k, m);
    }
  }

  /** A key whose entry, bucket and histories are as before. */
  lemma SameForKey(c: Counts, c': Counts, k: Key, m: int)
    requires (k in c.buckets <==> k in c'.buckets) && (k in c.buckets ==> c'.buckets[k] == c.buckets[k])
    requires k in c.buckets ==>
      c.buckets[k] in c.heap && c.buckets[k] in c'.heap && c'.heap[c.buckets[k]] == c.heap[c.buckets[k]]
    requires At(c'.admitted, (k, m)) == At(c.admitted, (k, m)) && At(c'.made, (k, m)) == At(c.made, (k, m))
    ensures HasCurrent(c', k, m) <==> HasCurrent(c, k, m)
    ensures AdmittedIn(c', k, m) == AdmittedIn(c, k, m) && MadeIn(c', k, m) == MadeIn(c, k, m)
  {
  }

  /** Counting in the bucket a check of the key holds. */
  lemma CountBound(c: Counts, k: Key, r: int, b: int)
    requires BoundOk(c, k, r) && CountsOk(c) && HasRoom(c, k, r, b) && c.heap[b].owner == k
    ensures BoundOk(Counted(c, b), k, r)
  {
    var c' := Counted(c, b);
    forall m ensures Bounded(c', k, r, m) {
      assert Bounded(c, k, r, m);
      assert AdmittedIn(c', k, m) == AdmittedIn(c, k, m) + if m == c.heap[b].window then 1 else 0;
      assert MadeIn(c', k, m) == MadeIn(c, k, m);
    }
  }

  lemma CountOtherBound(c: Counts, b: int, k: Key, r: int)
    requires BoundOk(c, k, r) && CountsOk(c) && b in c.heap && c.heap[b].owner != k
    ensures BoundOk(Counted(c, b), k, r)
  {
    var c' := Counted(c, b);
    forall m ensures Bounded(c', k, r, m) {
      assert Bounded(c, k, r, m);
      assert k in c.buckets ==> Faithful(c, k, c.buckets[k]);
      SameForKey(c, c', k, m);
    }
  }

  /** The map losing entries, the clock moving on, groups being invalidated. */
  lemma FewerBound(c: Counts, c': Counts, k: Key, r: int)
    requires BoundOk(c, k, r) && c'.heap == c.heap && c'.admitted == c.admitted && c'.made == c.made
    requires forall j | j in c'.buckets :: j in c.buckets && c'.buckets[j] == c.buckets[j]
    ensures BoundOk(c', k, r)
    ensures forall b | HasRoom(c, k, r, b) && CountsOk(c) && b in c.heap && c.heap[b].owner == k :: HasRoom(c', k, r, b)
  {
    forall m ensures Bounded(c', k, r, m) {
      assert Bounded(c, k, r, m);
      assert AdmittedIn(c', k, m) == AdmittedIn(c, k, m) && MadeIn(c', k, m) == MadeIn(c, k, m);
    }
    forall b | HasRoom(c, k, r, b) && CountsOk(c) && b in c.heap && c.heap[b].owner == k ensures HasRoom(c', k, r, b) {
      var m := c.heap[b].window;
      assert Bounded(c, k, r, m);
      assert AdmittedIn(c', k, m) == AdmittedIn(c, k, m) && MadeIn(c', k, m) == MadeIn(c, k, m);
    }
  }

  // ----- along a run ----------------------------------------------------------------------------

  /** Every check of the key reads a limit of at most r. */
  predicate Limited(e: Event, k: Key, r: int) {
    e.Arrive? && e.user == k.0 && e.check.group == k.1 ==> e.check.limits.rpm.Some? && e.check.limits.rpm.value <= r
  }

  ghost predicate KeyOk(s: State, k: Key, r: int) {
    && MadeOk(s.counts) && BoundOk(s.counts, k, r)
    && (forall t | t in s.table.spots && t in s.checks && KeyOf(s, t) == k ::
          s.checks[t].limits.rpm.Some? && s.checks[t].limits.rpm.value <= r)
    && (forall t | t in s.picked && t in s.table.spots && t in s.checks && KeyOf(s, t) == k ::
         HasRoom(s.counts, k, r, s.picked[t]))
  }

  /** Fewer tasks, and buckets as they were but for the map. */
  lemma FewerTasks(s: State, s': State, k: Key, r: int)
    requires KeyOk(s, k, r) && MadeOk(s'.counts) && BoundOk(s'.counts, k, r)
    requires forall t | t in s'.table.spots && t in s'.checks ::
      && t in s.table.spots && t in s.checks
      && s'.table.spots[t].user == s.table.spots[t].user && s'.checks[t] == s.checks[t]
    requires forall t | t in s'.picked && t in s'.table.spots && t in s'.checks && KeyOf(s', t) == k ::
      t in s.picked && s'.picked[t] == s.picked[t] && HasRoom(s'.counts, k, r, s.picked[t])
    ensures KeyOk(s', k, r)
  {
    hide MadeOk, BoundOk, HasRoom;
  }

  lemma QuietKeyOk(s: State, e: Event, k: Key, r: int)
    requires RateGate.Inv(s) && Enabled(s, e) && KeyOk(s, k, r)
    requires e.CancelWait? || e.LeaveQueue? || e.Refuse?
    ensures KeyOk(Step(s, e), k, r)
  {
    hide MadeOk, BoundOk, HasRoom, CountsOk, TaskOk, AsyncLock.Cancel, AsyncLock.Withdraw, AsyncLock.Release;
    FewerTasks(s, Step(s, e), k, r);
  }

  lemma MapKeyOk(s: State, e: Event, k: Key, r: int)
    requires RateGate.Inv(s) && Enabled(s, e) && KeyOk(s, k, r)
    requires e.Tick? || e.Evict? || e.Invalidate?
    ensures KeyOk(Step(s, e), k, r)
  {
    hide MadeOk, BoundOk, HasRoom, CountsOk, UserLocks.Inv;
    var s' := Step(s, e);
    FewerBound(s.counts, s'.counts, k, r);
    assert MadeOk(s'.counts) by { MapMade(s, e); }
    forall t | t in s.picked
      ensures t in s.table.spots && t in s.checks && s.picked[t] in s.counts.heap
      ensures s.counts.heap[s.picked[t]].owner == KeyOf(s, t)
    {
      assert TaskOk(s, t);
    }
    if e.Evict? { LocksThere(s.table); }
    FewerTasks(s, s', k, r);
  }

  lemma MapMade(s: State, e: Event)
    requires RateGate.Inv(s) && Enabled(s, e) && MadeOk(s.counts)
    requires e.Tick? || e.Evict? || e.Invalidate?
    ensures MadeOk(Step(s, e).counts)
  {
    hide MadeOk, CountsOk, UserLocks.Inv, TaskOk;
    match e {
      case Tick(n) => TickMade(s.counts, n);
      case Invalidate(g) => WithoutGroupMade(s.counts, g);
      case Evict => SweptMade(s.counts); LocksThere(s.table);
    }
  }

  lemma SweptMade(c: Counts)
    requires MadeOk(c)
    ensures MadeOk(RateGate.Swept(c))
  {
    hide MadeOk;
    SameMade(c, RateGate.Swept(c));
  }

  /** Task t leaves with its bucket counted. */
  lemma PassKeyOk(s: State, t: int, b: int, k: Key, r: int)
    requires UserLocks.Inv(s.table) && CountsOk(s.counts) && KeyOk(s, k, r) && Placed(s, t) && s.table.spots[t].inside
    requires Faithful(s.counts, KeyOf(s, t), b)
    requires KeyOf(s, t) == k ==> HasRoom(s.counts, k, r, b)
    requires forall x | x in s.picked && x != t ::
      x in s.table.spots && x in s.checks && s.table.spots[x].inside && Faithful(s.counts, KeyOf(s, x), s.picked[x])
    ensures KeyOk(Pass(s, t, b), k, r)
  {
    hide MadeOk, BoundOk, CountsOk, UserLocks.Inv, AsyncLock.Release;
    var c, c', s' := s.counts, Counted(s.counts, b), Pass(s, t, b);
    if KeyOf(s, t) == k { CountBound(c, k, r, b); } else { CountOtherBound(c, b, k, r); }
    assert MadeOk(c') by { CountedMade(c, b); }
    forall x | x in s'.picked && x in s'.table.spots && x in s'.checks && KeyOf(s', x) == k
      ensures x in s.picked && s'.picked[x] == s.picked[x] && HasRoom(c', k, r, s.picked[x])
    {
      if s.table.spots[x].user == s.table.spots[t].user { OnePerUser(s.table, x, t); }
      assert HasRoom(c, k, r, s.picked[x]);
    }
    FewerTasks(s, s', k, r);
  }

  lemma CountedMade(c: Counts, b: int)
    requires MadeOk(c) && b in c.heap
    ensures MadeOk(Counted(c, b))
  {
    hide MadeOk;
    SameMade(c, Counted(c, b));
  }

  lemma EnterKeyOk(s: State, t: int, nb: int, k: Key, r: int)
    requires UserLocks.Inv(s.table) && CountsOk(s.counts) && KeyOk(s, k, r) && nb !in s.counts.heap && 0 <= r
    requires Placed(s, t) && s.table.spots[t].inside && t !in s.picked
    requires forall x | x in s.picked ::
      x in s.table.spots && x in s.checks && s.table.spots[x].inside && Faithful(s.counts, KeyOf(s, x), s.picked[x])
    ensures KeyOk(Enter(s, t, nb), k, r)
  {
    hide MadeOk, BoundOk, HasRoom, CountsOk, UserLocks.Inv, Pick, Picked, Leave, Pass;
    var c, limits := s.counts, s.checks[t].limits;
    var c', b := Pick(c, KeyOf(s, t), nb), Picked(c, KeyOf(s, t), nb);
    PickKeeps(c, KeyOf(s, t), nb);
    var s1 := s.(counts := c');
    PickedKeyOk(s, t, nb, k, r);
    if limits.rpm.Some? && c'.heap[b].count >= limits.rpm.value {
      GoneKeyOk(s1, t, k, r);
    } else {
      if KeyOf(s, t) == k { assert HasRoom(c', k, r, b) by { FreshRoom(c', k, r, b); } }
      if !limits.daily {
        PassKeyOk(s1, t, b, k, r);
      }
    }
  }

  lemma FreshRoom(c: Counts, k: Key, r: int, b: int)
    requires b in c.heap && c.heap[b].count < r && k in c.buckets && c.buckets[k] == b
    ensures HasRoom(c, k, r, b)
  {
  }

  lemma GoneKeyOk(s: State, t: int, k: Key, r: int)
    requires KeyOk(s, k, r) && Placed(s, t)
    ensures KeyOk(Leave(s, t), k, r)
  {
    hide MadeOk, BoundOk, HasRoom, AsyncLock.Release;
    FewerTasks(s, Leave(s, t), k, r);
  }

  lemma PickedKeyOk(s: State, t: int, nb: int, k: Key, r: int)
    requires UserLocks.Inv(s.table) && CountsOk(s.counts) && KeyOk(s, k, r) && nb !in s.counts.heap && 0 <= r
    requires Placed(s, t) && s.table.spots[t].inside && t !in s.picked
    requires forall x | x in s.picked ::
      x in s.table.spots && x in s.checks && s.table.spots[x].inside && Faithful(s.counts, KeyOf(s, x), s.picked[x])
    ensures KeyOk(s.(counts := Pick(s.counts, KeyOf(s, t), nb)), k, r)
  {
    hide MadeOk, BoundOk, CountsOk, UserLocks.Inv;
    var c, j := s.counts, KeyOf(s, t);
    var c', s' := Pick(c, j, nb), s.(counts := Pick(c, j, nb));
    PickKeeps(c, j, nb);
    PickMade(c, j, nb);
    if j == k { PickBound(c, k, r, nb); } else { PickOtherBound(c, j, nb, k, r); }
    forall x | x in s.picked && KeyOf(s, x) == k ensures HasRoom(c', k, r, s.picked[x]) {
      if s.table.spots[x].user == s.table.spots[t].user { OnePerUser(s.table, x, t); }
      assert HasRoom(c, k, r, s.picked[x]);
    }
    FewerTasks(s, s', k, r);
  }

  lemma PickedFacts(s: State)
    requires RateGate.Inv(s)
    ensures forall x | x in s.picked ::
      x in s.table.spots && x in s.checks && s.table.spots[x].inside && Faithful(s.counts, KeyOf(s, x), s.picked[x])
  {
    hide UserLocks.Inv, CountsOk;
    forall x | x in s.picked
      ensures x in s.table.spots && x in s.checks && s.table.spots[x].inside
      ensures Faithful(s.counts, KeyOf(s, x), s.picked[x])
    {
      assert TaskOk(s, x);
    }
  }

  lemma ArriveKeyOk(s: State, e: Event, k: Key, r: int)
    requires RateGate.Inv(s) && Enabled(s, e) && e.Arrive? && KeyOk(s, k, r) && Limited(e, k, r) && 0 <= r
    ensures KeyOk(Step(s, e), k, r)
  {
    hide MadeOk, BoundOk, HasRoom, CountsOk, UserLocks.Inv, Enter, Arrived, TaskOk;
    var t := e.task;
    LocksThere(s.table);
    ArrivedKeeps(s.table, t, e.user, e.newLock);
    PickedFacts(s);
    var s1 := s.(table := Arrived(s.table, t, e.user, e.newLock), checks := s.checks[t := e.check]);
    forall x | x in s1.table.spots && x != t ensures x in s.table.spots && s1.table.spots[x] == s.table.spots[x] {
      assert x in s1.table.spots - {t} && (s1.table.spots - {t})[x] == s1.table.spots[x];
    }
    forall x | x in s.picked ensures x != t && x in s1.table.spots && s1.table.spots[x] == s.table.spots[x] {
      assert x in s.table.spots && x in s1.table.spots - {t};
    }
    JoinedKeyOk(s, s1, t, k, r);
    if s1.table.spots[t].inside {
      SpotPlaced(s1, t);
      EnterKeyOk(s1, t, e.newBucket, k, r);
    }
  }

  lemma JoinedKeyOk(s: State, s1: State, t: int, k: Key, r: int)
    requires KeyOk(s, k, r) && s1.counts == s.counts && s1.picked == s.picked && t !in s.picked
    requires forall x | x in s1.table.spots && x != t :: x in s.table.spots && s1.table.spots[x] == s.table.spots[x]
    requires t in s1.checks && s1.checks == s.checks[t := s1.checks[t]]
    requires t in s1.table.spots
    requires KeyOf(s1, t) == k ==> s1.checks[t].limits.rpm.Some? && s1.checks[t].limits.rpm.value <= r
    ensures KeyOk(s1, k, r)
  {
    hide MadeOk, BoundOk, HasRoom;
  }

  lemma WakeKeyOk(s: State, e: Event, k: Key, r: int)
    requires RateGate.Inv(s) && Enabled(s, e) && e.Wake? && KeyOk(s, k, r) && 0 <= r
    ensures KeyOk(Step(s, e), k, r)
  {
    hide MadeOk, BoundOk, HasRoom, CountsOk, UserLocks.Inv, Enter, AsyncLock.Take;
    var t := e.task;
    WokeKeeps(s.table, t);
    assert TaskOk(s, t);
    PickedFacts(s);
    var s1 := s.(table := Woke(s.table, t));
    FewerTasks(s, s1, k, r);
    SpotPlaced(s1, t);
    EnterKeyOk(s1, t, e.newBucket, k, r);
  }

  lemma AdmitKeyOk(s: State, t: int, k: Key, r: int)
    requires RateGate.Inv(s) && t in s.picked && KeyOk(s, k, r)
    ensures KeyOk(Step(s, Admit(t)), k, r)
  {
    hide MadeOk, BoundOk, HasRoom, CountsOk, UserLocks.Inv, Pass;
    PickedFacts(s);
    PickedPlaced(s, t);
    PassKeyOk(s, t, s.picked[t], k, r);
  }

  lemma StepKeyOk(s: State, e: Event, k: Key, r: int)
    requires RateGate.Inv(s) && Enabled(s, e) && KeyOk(s, k, r) && Limited(e, k, r) && 0 <= r
    ensures KeyOk(Step(s, e), k, r)
  {
    hide RateGate.Inv, KeyOk;
    match e {
      case Arrive(_, _, _, _, _) => ArriveKeyOk(s, e, k, r);
      case Wake(_, _) => WakeKeyOk(s, e, k, r);
      case Admit(t) => AdmitKeyOk(s, t, k, r);
      case Tick(_) => MapKeyOk(s, e, k, r);
      case Evict => MapKeyOk(s, e, k, r);
      case Invalidate(_) => MapKeyOk(s, e, k, r);
      case _ => QuietKeyOk(s, e, k, r);
    }
  }

  lemma {:induction false} RunKeyOk(s: State, events: seq<Event>, k: Key, r: int)
    requires RateGate.Inv(s) && KeyOk(s, k, r) && 0 <= r && forall e | e in events :: Limited(e, k, r)
    ensures KeyOk(Run(s, events), k, r)
    decreases |events|
  {
    hide RateGate.Inv, Enabled, Step, KeyOk, Limited;
    if events != [] {
      assert forall e | e in events[1..] :: e in events;
      if Enabled(s, events[0]) {
        StepKeepsInv(s, events[0]);
        StepKeyOk(s, events[0], k, r);
        RunKeyOk(Step(s, events[0]), events[1..], k, r);
      } else {
        RunKeyOk(s, events[1..], k, r);
      }
    }
  }

  lemma StartKeyOk(k: Key, r: nat)
    ensures KeyOk(START, k, r)
  {
    var c := START.counts;
    forall j, m ensures MadeIn(c, j, m) == 0 {
    }
    forall g, m ensures DroppedIn(c, g, m) == 0 {
    }
    forall m ensures Bounded(c, k, r, m) {
      assert r * MadeIn(c, k, m) == 0;
    }
  }

  /** Whatever happens to limits and groups: when no check of a key reads a limit above r, the key is admitted
      among the checks begun in one minute at most r times, and r more for each invalidation of its group
      in that minute. Default cannot be invalidated. */
  lemma RpmIsNeverExceeded(events: seq<Event>, k: Key, r: nat, minute: int)
    requires forall e | e in events :: Limited(e, k, r)
    ensures RateGate.Inv(START)
    ensures var c := Run(START, events).counts;
      && AdmittedIn(c, k, minute) <= r * (1 + DroppedIn(c, k.1, minute))
      && (k.1 == DEFAULT_GROUP ==> AdmittedIn(c, k, minute) <= r)
  {
    hide Run, RateGate.Inv, HasCurrent;
    StartInv();
    StartKeyOk(k, r);
    RunKeyOk(START, events, k, r);
    var c := Run(START, events).counts;
    assert Bounded(c, k, r, minute);
    MulMono(MadeIn(c, k, minute), 1 + DroppedIn(c, k.1, minute), r);
  }
}
