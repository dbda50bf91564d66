/** The per-user critical section of app/rate_limit.py (check_and_increment, check_group_limit) with the
    eviction sweep, changing limits and the invalidation of groups between any two steps. Keys are
    (user, group); group 0 is Default. */
module RateGate {
  import opened Options
  import opened Sums
  import opened UserLocks

  type Key = (int, int)

  const DEFAULT_GROUP := 0

  /** A minute bucket object. A task keeps a reference across its daily-count read, so a bucket can
      outlive its entry in the bucket map. */
  datatype Bucket = Bucket(owner: Key, window: int, count: int)

  /** What a check read of its limits before queueing for the user's lock: the per-minute limit, and
      whether there is a daily one, whose count it must await. */
  datatype Limits = Limits(rpm: Option<int>, daily: bool)

  datatype Check = Check(group: int, limits: Limits)

  /** The buckets, and three histories: admissions by key and the minute of the bucket they count in,
      buckets made by key and minute, and invalidations by group and minute. */
  datatype Counts = Counts(
    clock: int,
    buckets: map<Key, int>,
    heap: map<int, Bucket>,
    admitted: map<(Key, int), int>,
    made: map<(Key, int), int>,
    dropped: map<(int, int), int>)

  /** Admissions by the minute they are let through: those whose check began in it, those whose check
      began earlier, and, by the minute their check began, those let through later. */
  datatype Clocked = Clocked(
    through: map<(Key, int), int>,
    onTime: map<(Key, int), int>,
    late: map<(Key, int), int>,
    overdue: map<(Key, int), int>)

  datatype State = State(
    counts: Counts,
    table: Table,
    checks: map<int, Check>,          // by task
    picked: map<int, int>,            // the bucket of a task that awaits its daily count
    clocked: Clocked)

  datatype Event =
    | Tick(minutes: nat)
    | Arrive(task: int, user: int, check: Check, newLock: int, newBucket: int)
    | Wake(task: int, newBucket: int)
    | CancelWait(task: int)
    | LeaveQueue(task: int)
    | Admit(task: int)
    | Refuse(task: int)
    | Evict
    | Invalidate(group: int)

  ghost predicate Enabled(s: State, e: Event) {
    match e
    case Tick(_) => true
    case Evict => true
    case Invalidate(g) => g != DEFAULT_GROUP
    case Arrive(t, _, _, nl, nb) => t !in s.table.spots && nl !in s.table.locks && nb !in s.counts.heap
    case Wake(t, nb) => AtLock(s.table, t) && s.table.locks[s.table.spots[t].lock].Is(t, AsyncLock.Woken)
      && nb !in s.counts.heap
    case CancelWait(t) => AtLock(s.table, t)
    case LeaveQueue(t) => AtLock(s.table, t)
      && (s.table.locks[s.table.spots[t].lock].Is(t, AsyncLock.Cancelled)
           || s.table.locks[s.table.spots[t].lock].Is(t, AsyncLock.WokenCancelled))
    case Admit(t) => t in s.picked
    case Refuse(t) => t in s.picked
  }

  // ----- buckets -----------------------------------------------------------------

  function Bumped<K>(m: map<K, int>, k: K): map<K, int> { m[k := At(m, k) + 1] }

  /** This minute's bucket of the key is in the map. */
  predicate HasCurrent(c: Counts, k: Key, minute: int) {
    k in c.buckets && c.buckets[k] in c.heap && c.heap[c.buckets[k]].window == minute
  }

  /** The bucket a key's check uses this minute. */
  function Picked(c: Counts, k: Key, nb: int): int {
    if HasCurrent(c, k, c.clock) then c.buckets[k] else nb
  }

  /** Reusing this minute's bucket, or putting a new one in the map. */
  function Pick(c: Counts, k: Key, nb: int): Counts {
    if HasCurrent(c, k, c.clock) then c
    else c.(heap := c.heap[nb := Bucket(k, c.clock, 0)], buckets := c.buckets[k := nb],
      made := Bumped(c.made, (k, c.clock)))
  }

  function Counted(c: Counts, b: int): Counts
    requires b in c.heap
  {
    var bucket := c.heap[b];
    c.(heap := c.heap[b := bucket.(count := bucket.count + 1)],
      admitted := Bumped(c.admitted, (bucket.owner, bucket.window)))
  }

  function Swept(c: Counts): Counts {
    c.(buckets := map k | k in c.buckets && c.buckets[k] in c.heap && c.heap[c.buckets[k]].window >= c.clock - 1 ::
      c.buckets[k])
  }

  function WithoutGroup(c: Counts, g: int): Counts {
    c.(buckets := map k | k in c.buckets && k.1 != g :: c.buckets[k], dropped := Bumped(c.dropped, (g, c.clock)))
  }

  // ----- steps ----------------------------------------------------------------------

  function KeyOf(s: State, t: int): Key
    requires t in s.table.spots && t in s.checks
  {
    (s.table.spots[t].user, s.checks[t].group)
  }

  predicate Placed(s: State, t: int) {
    t in s.table.spots && s.table.spots[t].lock in s.table.locks && t in s.checks
  }

  function Leave(s: State, t: int): State
    requires Placed(s, t)
  {
    s.(table := Left(s.table, t), checks := s.checks - {t}, picked := s.picked - {t})
  }

  /** History: an admission in the bucket's minute or after it. */
  function Stamped(h: Clocked, k: Key, window: int, now: int): Clocked {
    var h1 := h.(through := Bumped(h.through, (k, now)));
    if window == now then h1.(onTime := Bumped(h.onTime, (k, now)))
    else h1.(late := Bumped(h.late, (k, now)), overdue := Bumped(h.overdue, (k, window)))
  }

  /** The check passed: the bucket is counted and the section left. */
  function Pass(s: State, t: int, b: int): State
    requires Placed(s, t) && b in s.counts.heap
  {
    Leave(s.(counts := Counted(s.counts, b),
      clocked := Stamped(s.clocked, KeyOf(s, t), s.counts.heap[b].window, s.counts.clock)), t)
  }

  /** From taking the lock to the first await, or the end: pick the bucket, go if it is full, pass at once
      if there is no daily limit to look up. */
  function Enter(s: State, t: int, nb: int): State
    requires Placed(s, t)
  {
    var k, limits := KeyOf(s, t), s.checks[t].limits;
    var b := Picked(s.counts, k, nb);
    var s1 := s.(counts := Pick(s.counts, k, nb));
    if b !in s1.counts.heap || (limits.rpm.Some? && s1.counts.heap[b].count >= limits.rpm.value) then Leave(s1, t)
    else if !limits.daily then Pass(s1, t, b)
    else s1.(picked := s.picked[t := b])
  }

  ghost function Step(s: State, e: Event): State
    requires Enabled(s, e) && Inv(s)
  {
    match e
    case Tick(n) => s.(counts := s.counts.(clock := s.counts.clock + n))
    case Invalidate(g) => s.(counts := WithoutGroup(s.counts, g))
    case Evict =>
      // buckets first, then the locks of users left without a Default bucket
      LocksThere(s.table);
      var c := Swept(s.counts);
      s.(counts := c, table := UserLocks.Swept(s.table, set k | k in c.buckets && k.1 == DEFAULT_GROUP :: k.0))
    case Arrive(t, u, check, nl, nb) =>
      LocksThere(s.table);
      ArrivedKeeps(s.table, t, u, nl);
      var s1 := s.(table := Arrived(s.table, t, u, nl), checks := s.checks[t := check]);
      if s1.table.spots[t].inside then SpotPlaced(s1, t); Enter(s1, t, nb) else s1
    case Wake(t, nb) =>
      WokeKeeps(s.table, t);
      assert TaskOk(s, t);
      var s1 := s.(table := Woke(s.table, t));
      SpotPlaced(s1, t);
      Enter(s1, t, nb)
    case CancelWait(t) => s.(table := Cancelling(s.table, t))
    case LeaveQueue(t) => s.(table := LeftQueue(s.table, t), checks := s.checks - {t})
    case Admit(t) =>
      PickedPlaced(s, t);
      Pass(s, t, s.picked[t])
    case Refuse(t) =>
      PickedPlaced(s, t);
      Leave(s, t)
  }

  lemma SpotPlaced(s: State, t: int)
    requires UserLocks.Inv(s.table) && t in s.table.spots && t in s.checks
    ensures Placed(s, t)
  {
    assert SpotOk(s.table, t);
  }

  lemma PickedPlaced(s: State, t: int)
    requires Inv(s) && t in s.picked
    ensures Placed(s, t) && s.picked[t] in s.counts.heap
  {
    assert TaskOk(s, t);
    SpotPlaced(s, t);
  }

  // ----- the invariant -----------------------------------------------------------

  /** The bucket is the key's, and of no later minute than this. */
  ghost predicate Faithful(c: Counts, k: Key, b: int) {
    b in c.heap && c.heap[b].owner == k && c.heap[b].window <= c.clock
  }

  ghost predicate CountsOk(c: Counts) {
    forall k | k in c.buckets :: Faithful(c, k, c.buckets[k])
  }

  /** A bucket a task has checked is below the limit it read, and no other has taken its place. */
  ghost predicate Checked(c: Counts, k: Key, b: int, limits: Limits) {
    && Faithful(c, k, b)
    && (k in c.buckets ==> c.buckets[k] == b)
    && (limits.rpm.Some? ==> c.heap[b].count < limits.rpm.value)
  }

  /** Inside the section is who awaits a daily count for a bucket that was not full. */
  ghost predicate TaskOk(s: State, t: int)
    requires t in s.table.spots
  {
    && t in s.checks
    && (t in s.picked <==> s.table.spots[t].inside)
    && (t in s.picked ==> s.checks[t].limits.daily && Checked(s.counts, KeyOf(s, t), s.picked[t], s.checks[t].limits))
  }

  ghost predicate Inv(s: State) {
    && UserLocks.Inv(s.table)
    && CountsOk(s.counts)
    && (forall t | t in s.table.spots :: TaskOk(s, t))
    && s.picked.Keys <= s.table.spots.Keys
  }

  const START := State(Counts(0, map[], map[], map[], map[], map[]), Table(map[], map[], map[]), map[], map[],
                       Clocked(map[], map[], map[], map[]))

  // ----- how a check is decided -----------------------------------------------------

  /** A check that has the section goes by what its bucket of this minute holds, an older one counting for nothing:
      refused if and only if it read a limit and that many are there; else let through and counted there and then,
      unless it has a daily count to await. */
  lemma CheckIsDecided(s: State, t: int, nb: int)
    requires CountsOk(s.counts) && nb !in s.counts.heap && Placed(s, t)
    ensures forall k | k in s.counts.buckets :: s.counts.buckets[k] in s.counts.heap
    ensures var k: Key := (s.table.spots[t].user, s.checks[t].group);
      var limits, clock, c := s.checks[t].limits, s.counts.clock, s.counts;
      var here := if k in c.buckets && c.heap[c.buckets[k]].window == clock then c.heap[c.buckets[k]].count else 0;
      var s' := Enter(s, t, nb);
      && k in s'.counts.buckets && s'.counts.buckets[k] in s'.counts.heap
      && var b := s'.counts.heap[s'.counts.buckets[k]];
         && b.window == clock && s'.counts.clock == clock
         && if limits.rpm.Some? && here >= limits.rpm.value then
              t !in s'.checks && t !in s'.picked && b.count == here
              && s'.counts.admitted == c.admitted && s'.clocked == s.clocked
            else if limits.daily then
              t in s'.checks && t in s'.picked && s'.picked[t] == s'.counts.buckets[k] && b.count == here
              && s'.counts.admitted == c.admitted && s'.clocked == s.clocked
            else
              t !in s'.checks && t !in s'.picked && b.count == here + 1
              && s'.counts.admitted == c.admitted[(k, clock) := At(c.admitted, (k, clock)) + 1]
              && At(s'.clocked.through, (k, clock)) == At(s.clocked.through, (k, clock)) + 1
  {
    hide AsyncLock.Release, CountsOk, Pick, Picked, Stamped;
    var k := KeyOf(s, t);
    forall j | j in s.counts.buckets ensures s.counts.buckets[j] in s.counts.heap {
      PickIs(s.counts, j, nb);
    }
    PickIs(s.counts, k, nb);
    StampedThrough(s.clocked, k, s.counts.clock, s.counts.clock);
  }

  lemma PickIs(c: Counts, k: Key, nb: int)
    requires CountsOk(c) && nb !in c.heap
    ensures k in c.buckets ==> c.buckets[k] in c.heap
    ensures var c', b := Pick(c, k, nb), Picked(c, k, nb);
      && k in c'.buckets && c'.buckets[k] == b && b in c'.heap && c'.heap[b].owner == k
      && c'.heap[b].window == c.clock == c'.clock && c'.admitted == c.admitted
      && c'.heap[b].count ==
           if k in c.buckets && c.heap[c.buckets[k]].window == c.clock then c.heap[c.buckets[k]].count else 0
  {
    assert k in c.buckets ==> Faithful(c, k, c.buckets[k]);
  }

  lemma StampedThrough(h: Clocked, k: Key, window: int, now: int)
    ensures At(Stamped(h, k, window, now).through, (k, now)) == At(h.through, (k, now)) + 1
  {
  }

  // ----- buckets keep it ---------------------------------------------------------

  lemma PickKeeps(c: Counts, k: Key, nb: int)
    requires CountsOk(c) && nb !in c.heap
    ensures var c', b := Pick(c, k, nb), Picked(c, k, nb);
      && CountsOk(c') && Faithful(c', k, b) && c'.buckets == c.buckets[k := b] && c'.heap[b].window == c.clock
           && c'.clock == c.clock
      && forall x | x in c.heap :: x in c'.heap && c'.heap[x] == c.heap[x]
  {
    var c', b := Pick(c, k, nb), Picked(c, k, nb);
    forall j | j in c'.buckets ensures Faithful(c', j, c'.buckets[j]) {
      if j != k { assert Faithful(c, j, c.buckets[j]); }
    }
  }

  lemma CountedKeeps(c: Counts, b: int)
    requires CountsOk(c) && b in c.heap
    ensures CountsOk(Counted(c, b)) && Counted(c, b).clock == c.clock && Counted(c, b).buckets == c.buckets
  {
    forall k | k in c.buckets ensures Faithful(Counted(c, b), k, c.buckets[k]) {
      assert Faithful(c, k, c.buckets[k]);
    }
  }

  /** The bucket of another key is not touched. */
  lemma CheckedStays(c: Counts, c': Counts, k: Key, b: int, limits: Limits)
    requires Checked(c, k, b, limits) && c'.clock >= c.clock
    requires b in c'.heap && c'.heap[b] == c.heap[b]
    requires k in c'.buckets ==> k in c.buckets && c'.buckets[k] == c.buckets[k]
    ensures Checked(c', k, b, limits)
  {
  }

  lemma FewerBuckets(c: Counts, c': Counts)
    requires CountsOk(c) && c'.heap == c.heap && c'.clock >= c.clock
    requires forall k | k in c'.buckets :: k in c.buckets && c'.buckets[k] == c.buckets[k]
    ensures CountsOk(c')
    ensures forall k, b, limits | Checked(c, k, b, limits) :: Checked(c', k, b, limits)
  {
    forall k | k in c'.buckets ensures Faithful(c', k, c'.buckets[k]) {
      assert Faithful(c, k, c.buckets[k]);
    }
  }

  // ----- each step keeps the invariant ------------------------------------------------

  lemma LeaveKeepsInv(s: State, t: int, s1: State)
    requires UserLocks.Inv(s.table) && Placed(s, t) && s.table.spots[t].inside
    requires s1.table == s.table && s1.checks == s.checks && s1.picked.Keys <= s.table.spots.Keys
    requires CountsOk(s1.counts)
    requires forall x | x in s.table.spots && x != t :: TaskOk(s1, x)
    ensures Placed(s1, t) && Inv(Leave(s1, t))
  {
    hide UserLocks.Inv, CountsOk, Checked, AsyncLock.Release;
    LeftKeeps(s.table, t);
    forall x | x in Leave(s1, t).table.spots ensures TaskOk(Leave(s1, t), x) {
      assert TaskOk(s1, x);
    }
  }

  /** Another task's check is not disturbed by counting in the bucket of task t. */
  lemma OthersAfterCount(s: State, t: int, b: int, x: int)
    requires UserLocks.Inv(s.table) && Placed(s, t) && s.table.spots[t].inside && Faithful(s.counts, KeyOf(s, t), b)
    requires x in s.table.spots && x != t && TaskOk(s, x)
    ensures TaskOk(s.(counts := Counted(s.counts, b)), x)
  {
    hide UserLocks.Inv, CountsOk;
    if x in s.picked {
      if s.table.spots[x].user == s.table.spots[t].user {
        OnePerUser(s.table, x, t);
      }
      CheckedStays(s.counts, Counted(s.counts, b), KeyOf(s, x), s.picked[x], s.checks[x].limits);
    }
  }

  lemma PassKeepsInv(s: State, t: int, b: int)
    requires UserLocks.Inv(s.table) && CountsOk(s.counts) && Placed(s, t) && s.table.spots[t].inside
    requires Faithful(s.counts, KeyOf(s, t), b)
    requires forall x | x in s.table.spots && x != t :: TaskOk(s, x)
    requires s.picked.Keys <= s.table.spots.Keys
    ensures Inv(Pass(s, t, b))
  {
    hide UserLocks.Inv, CountsOk, Checked, Counted, Leave;
    CountedKeeps(s.counts, b);
    var s0 := s.(counts := Counted(s.counts, b));
    var s1 := s0.(clocked := Stamped(s.clocked, KeyOf(s, t), s.counts.heap[b].window, s.counts.clock));
    forall x | x in s.table.spots && x != t ensures TaskOk(s1, x) {
      OthersAfterCount(s, t, b, x);
      assert TaskOk(s0, x);
    }
    LeaveKeepsInv(s, t, s1);
  }

  lemma EnterKeepsInv(s: State, t: int, nb: int)
    requires UserLocks.Inv(s.table) && CountsOk(s.counts) && nb !in s.counts.heap
    requires t in s.table.spots && s.table.spots[t].inside && t in s.checks
    requires forall x | x in s.table.spots && x != t :: TaskOk(s, x)
    requires s.picked.Keys <= s.table.spots.Keys
    ensures Placed(s, t) && Inv(Enter(s, t, nb))
  {
    hide UserLocks.Inv, CountsOk, Checked, Pick, Picked, Leave, Pass;
    SpotPlaced(s, t);
    var c, k, limits := s.counts, KeyOf(s, t), s.checks[t].limits;
    PickKeeps(c, k, nb);
    var b := Picked(c, k, nb);
    var s1 := s.(counts := Pick(c, k, nb));
    forall x | x in s.table.spots && x != t ensures TaskOk(s1, x) {
      assert TaskOk(s, x);
      OthersAfterPick(s, t, nb, x);
    }
    if limits.rpm.Some? && s1.counts.heap[b].count >= limits.rpm.value {
      LeaveKeepsInv(s, t, s1);
    } else if !limits.daily {
      PassKeepsInv(s1, t, b);
    } else {
      var s2 := s1.(picked := s.picked[t := b]);
      FreshlyChecked(s1.counts, k, b, limits);
      forall x | x in s2.table.spots ensures TaskOk(s2, x) {
        assert x != t ==> TaskOk(s1, x);
      }
    }
  }

  lemma OthersAfterPick(s: State, t: int, nb: int, x: int)
    requires UserLocks.Inv(s.table) && CountsOk(s.counts) && Placed(s, t) && s.table.spots[t].inside
    requires nb !in s.counts.heap
    requires x in s.table.spots && x != t && TaskOk(s, x)
    ensures TaskOk(s.(counts := Pick(s.counts, KeyOf(s, t), nb)), x)
  {
    hide UserLocks.Inv, CountsOk, Pick, Picked;
    PickKeeps(s.counts, KeyOf(s, t), nb);
    if x in s.picked {
      if s.table.spots[x].user == s.table.spots[t].user {
        OnePerUser(s.table, x, t);
      }
      CheckedStays(s.counts, Pick(s.counts, KeyOf(s, t), nb), KeyOf(s, x), s.picked[x], s.checks[x].limits);
    }
  }

  lemma FreshlyChecked(c: Counts, k: Key, b: int, limits: Limits)
    requires Faithful(c, k, b) && k in c.buckets && c.buckets[k] == b
    requires limits.rpm.Some? ==> c.heap[b].count < limits.rpm.value
    ensures Checked(c, k, b, limits)
  {
  }

  /** Tasks see the same when locks are all that changed. */
  lemma OnlyLocks(s: State, table: Table, checks: map<int, Check>, t: int)
    requires Inv(s) && UserLocks.Inv(table)
    requires forall x | x in table.spots && x != t ::
      x in s.table.spots && table.spots[x] == s.table.spots[x] && x in checks && checks[x] == s.checks[x]
    ensures forall x | x in table.spots && x != t :: TaskOk(s.(table := table, checks := checks), x)
  {
    hide UserLocks.Inv, CountsOk, Checked;
    var s' := s.(table := table, checks := checks);
    forall x | x in table.spots && x != t ensures TaskOk(s', x) {
      assert TaskOk(s, x);
    }
  }

  lemma ArriveKeepsInv(s: State, t: int, u: int, check: Check, nl: int, nb: int)
    requires Inv(s) && Enabled(s, Arrive(t, u, check, nl, nb))
    ensures Inv(Step(s, Arrive(t, u, check, nl, nb)))
  {
    hide UserLocks.Inv, CountsOk, Checked, Enter, Arrived;
    LocksThere(s.table);
    ArrivedKeeps(s.table, t, u, nl);
    var s1 := s.(table := Arrived(s.table, t, u, nl), checks := s.checks[t := check]);
    forall x | x in s1.table.spots && x != t
      ensures x in s.table.spots && s1.table.spots[x] == s.table.spots[x] && x in s.checks
    {
      assert x in s1.table.spots - {t};
      assert s1.table.spots[x] == (s1.table.spots - {t})[x];
      assert TaskOk(s, x);
    }
    OnlyLocks(s, s1.table, s1.checks, t);
    assert s.table.spots.Keys == (s1.table.spots - {t}).Keys;
    if s1.table.spots[t].inside {
      SpotPlaced(s1, t);
      EnterKeepsInv(s1, t, nb);
    }
  }

  lemma WakeKeepsInv(s: State, t: int, nb: int)
    requires Inv(s) && Enabled(s, Wake(t, nb))
    ensures Inv(Step(s, Wake(t, nb)))
  {
    hide UserLocks.Inv, CountsOk, Checked, Enter, AsyncLock.Take;
    WokeKeeps(s.table, t);
    var s1 := s.(table := Woke(s.table, t));
    assert TaskOk(s, t);
    forall x | x in s.table.spots ensures x in s.checks {
      assert TaskOk(s, x);
    }
    OnlyLocks(s, s1.table, s1.checks, t);
    SpotPlaced(s1, t);
    EnterKeepsInv(s1, t, nb);
  }

  lemma QueueKeepsInv(s: State, t: int)
    requires Inv(s) && AtLock(s.table, t)
    ensures Inv(s.(table := Cancelling(s.table, t)))
    ensures Inv(s.(table := LeftQueue(s.table, t), checks := s.checks - {t}))
  {
    hide UserLocks.Inv, CountsOk, Checked, AsyncLock.Cancel, AsyncLock.Withdraw;
    CancellingKeeps(s.table, t);
    LeftQueueKeeps(s.table, t);
    assert TaskOk(s, t);
    forall x | x in s.table.spots ensures x in s.checks {
      assert TaskOk(s, x);
    }
    OnlyLocks(s, Cancelling(s.table, t), s.checks, t);
    OnlyLocks(s, LeftQueue(s.table, t), s.checks - {t}, t);
  }

  lemma AdmitKeepsInv(s: State, t: int)
    requires Inv(s) && t in s.picked
    ensures Inv(Step(s, Admit(t))) && Inv(Step(s, Refuse(t)))
  {
    hide UserLocks.Inv, CountsOk, Leave, Pass;
    assert TaskOk(s, t);
    PickedPlaced(s, t);
    PassKeepsInv(s, t, s.picked[t]);
    LeaveKeepsInv(s, t, s);
  }

  /** Nothing but the clock and the bucket map changed, and the map only lost entries. */
  lemma FewerBucketsKeepInv(s: State, c: Counts)
    requires Inv(s) && c.heap == s.counts.heap && c.clock >= s.counts.clock
    requires forall k | k in c.buckets :: k in s.counts.buckets && c.buckets[k] == s.counts.buckets[k]
    ensures Inv(s.(counts := c))
  {
    hide UserLocks.Inv, CountsOk, Checked;
    FewerBuckets(s.counts, c);
    var s' := s.(counts := c);
    forall t | t in s'.table.spots ensures TaskOk(s', t) {
      assert TaskOk(s, t);
    }
  }

  /** Eviction drops no lock that a task holds or awaits. */
  lemma EvictKeepsInv(s: State)
    requires Inv(s)
    ensures Inv(Step(s, Evict))
  {
    hide UserLocks.Inv, CountsOk, Checked, UserLocks.Swept;
    LocksThere(s.table);
    var c := Swept(s.counts);
    var busy := set k | k in c.buckets && k.1 == DEFAULT_GROUP :: k.0;
    FewerBucketsKeepInv(s, c);
    var s0 := s.(counts := c);
    SweptKeeps(s.table, busy);
    SweptSpots(s.table, busy);
    var s' := s0.(table := UserLocks.Swept(s.table, busy));
    forall t | t in s'.table.spots ensures TaskOk(s', t) {
      assert TaskOk(s0, t);
    }
  }

  lemma SweptSpots(tb: Table, busy: set<int>)
    requires UserLocks.Inv(tb)
    ensures forall u | u in tb.userLocks :: tb.userLocks[u] in tb.locks
    ensures UserLocks.Swept(tb, busy).spots == tb.spots
  {
  }

  lemma StepKeepsInv(s: State, e: Event)
    requires Inv(s) && Enabled(s, e)
    ensures Inv(Step(s, e))
  {
    hide UserLocks.Inv, CountsOk, TaskOk, Enter, Leave, Pass, UserLocks.Swept, Cancelling, LeftQueue;
    match e {
      case Tick(n) => FewerBucketsKeepInv(s, s.counts.(clock := s.counts.clock + n));
      case Invalidate(g) => FewerBucketsKeepInv(s, WithoutGroup(s.counts, g));
      case Evict => EvictKeepsInv(s);
      case Arrive(t, u, check, nl, nb) => ArriveKeepsInv(s, t, u, check, nl, nb);
      case Wake(t, nb) => WakeKeepsInv(s, t, nb);
      case CancelWait(t) => QueueKeepsInv(s, t);
      case LeaveQueue(t) => QueueKeepsInv(s, t);
      case Admit(t) => AdmitKeepsInv(s, t);
      case Refuse(t) => AdmitKeepsInv(s, t);
    }
  }

  /** The other ways out of a check count nothing: one refused, or cancelled while it waits, is gone once it has run,
      and a cancelled waiter is still there until it has. */
  lemma OthersLeave(s: State, e: Event)
    requires Inv(s) && Enabled(s, e)
    ensures var s' := Step(s, e);
      && (e.Refuse? || e.LeaveQueue? ==>
            e.task !in s'.table.spots && e.task !in s'.checks && e.task !in s'.picked && s'.counts == s.counts)
      && (e.Refuse? ==> s'.clocked == s.clocked)
      && (e.CancelWait? ==> s' == s.(table := s'.table) && s'.table.spots == s.table.spots)
      && (e.Admit? ==> e.task !in s'.table.spots && e.task !in s'.checks && e.task !in s'.picked)
      && (e.Tick? ==> s' == s.(counts := s.counts.(clock := s.counts.clock + e.minutes)))
  {
    hide UserLocks.Inv, CountsOk, AsyncLock.Release, AsyncLock.Cancel, AsyncLock.Withdraw, Counted, Stamped;
    if e.Refuse? || e.Admit? { PickedPlaced(s, e.task); }
  }

  /** A check can begin at any time, the sweep run, a group be invalidated, and a waiting check be cancelled, which
      then leaves; one in the section can be let through or refused; and wherever one waits, some check of that user
      can go on. */
  lemma NobodyIsStuck(s: State, t: int, u: int, check: Check, newLock: int, newBucket: int, group: int)
    requires Inv(s) && newLock !in s.table.locks && newBucket !in s.counts.heap && group != 0
    ensures Enabled(s, Tick(1)) && Enabled(s, Evict) && Enabled(s, Invalidate(group))
    ensures t !in s.table.spots ==> Enabled(s, Arrive(t, u, check, newLock, newBucket))
    ensures t in s.table.spots && s.table.spots[t].inside ==> Enabled(s, Admit(t)) && Enabled(s, Refuse(t))
    ensures t in s.table.spots && !s.table.spots[t].inside ==>
      && Enabled(s, CancelWait(t)) && Enabled(Step(s, CancelWait(t)), LeaveQueue(t))
      && exists x | x in s.table.spots && s.table.spots[x].user == s.table.spots[t].user ::
           Enabled(s, Admit(x)) || Enabled(s, Wake(x, newBucket)) || Enabled(s, LeaveQueue(x))
  {
    hide UserLocks.Inv, CountsOk, AsyncLock.Cancel;
    if t in s.table.spots {
      assert TaskOk(s, t);
      if !s.table.spots[t].inside {
        SpotPlaced(s, t);
        CancelledMoves(s.table, t);
        var x := SomebodyMoves(s.table, t);
        assert TaskOk(s, x);
      }
    }
  }

  // ----- runs ---------------------------------------------------------------------------

  ghost function Run(s: State, events: seq<Event>): State
    requires Inv(s)
    decreases |events|
  {
    if events == [] then s
    else if Enabled(s, events[0]) then
      StepKeepsInv(s, events[0]);
      Run(Step(s, events[0]), events[1..])
    else Run(s, events[1..])
  }

  lemma RunCons(s: State, e: Event, rest: seq<Event>)
    requires Inv(s) && Enabled(s, e)
    ensures Inv(Step(s, e)) && Run(s, [e] + rest) == Run(Step(s, e), rest)
  {
    hide Inv, Enabled, Step;
    StepKeepsInv(s, e);
    assert ([e] + rest)[1..] == rest;
  }

  lemma RunNothing(s: State)
    requires Inv(s)
    ensures Run(s, []) == s
  {
  }

  lemma {:induction false} RunKeepsInv(s: State, events: seq<Event>)
    requires Inv(s)
    ensures Inv(Run(s, events))
    decreases |events|
  {
    hide Inv, Enabled, Step;
    if events != [] {
      if Enabled(s, events[0]) {
        StepKeepsInv(s, events[0]);
        RunKeepsInv(Step(s, events[0]), events[1..]);
      } else {
        RunKeepsInv(s, events[1..]);
      }
    }
  }

  lemma StartInv()
    ensures Inv(START)
  {
  }

  /** However eviction, cancellation, invalidation and arrivals interleave, two tasks are never inside the
      critical section of the same user. */
  lemma MutualExclusion(events: seq<Event>, a: int, b: int)
    ensures Inv(START)
    ensures var tb := Run(START, events).table;
      a in tb.spots && b in tb.spots && tb.spots[a].inside && tb.spots[b].inside ==>
        tb.spots[a].user == tb.spots[b].user ==> a == b
  {
    hide Run, CountsOk, TaskOk;
    StartInv();
    RunKeepsInv(START, events);
    var tb := Run(START, events).table;
    if a in tb.spots && b in tb.spots && tb.spots[a].inside && tb.spots[b].inside
      && tb.spots[a].user == tb.spots[b].user {
      OnePerUser(tb, a, b);
    }
  }
}
