/** The single-flight refill of app/rate_limit.py `_read_rpd_cached`: callers that miss a cached daily
    count together queue on one lock per key, and one of them reads the database. The per-key lock map
    is that of UserLocks, with cache keys for users. */
module SingleFlight {
  import opened Options
  import opened UserLocks

  const TTL := 5

  datatype Entry = Entry(count: int, expires: int)

  /** A load in progress: the wall clock when it began and the entry it would replace. */
  datatype Load = Load(since: int, last: Option<int>)

  datatype State = State(
    mono: int,                          // monotonic clock
    wall: int,                          // wall clock; may jump either way
    cache: map<int, Entry>,
    table: Table,                       // flights by key, and the callers queued for or inside each
    holders: map<int, int>,             // each flight's holder count
    failedAt: map<int, int>,            // when a flight's last load failed
    arrived: map<int, int>,             // when each caller joined its flight
    loads: map<int, Load>,
    loaded: set<(int, int)>,            // history: counts successfully loaded, by key
    answers: set<(int, int)>)           // history: counts callers were given, by key

  datatype Event =
    | Clock(ticks: nat, newWall: int)
    | Forget(keys: set<int>)            // invalidation and expiry sweeps
    | Ask(task: int, key: int, newFlight: int)
    | Wake(task: int)
    | CancelWait(task: int)
    | LeaveQueue(task: int)
    | LoadOk(task: int, count: int)
    | LoadFails(task: int)
    | LoadCancelled(task: int)

  ghost predicate Enabled(s: State, e: Event) {
    match e
    case Clock(_, _) => true
    case Forget(_) => true
    case Ask(t, _, nf) => t !in s.table.spots && nf !in s.table.locks
    case Wake(t) => AtLock(s.table, t) && s.table.locks[s.table.spots[t].lock].Is(t, AsyncLock.Woken)
    case CancelWait(t) => AtLock(s.table, t)
    case LeaveQueue(t) => AtLock(s.table, t)
      && (s.table.locks[s.table.spots[t].lock].Is(t, AsyncLock.Cancelled)
           || s.table.locks[s.table.spots[t].lock].Is(t, AsyncLock.WokenCancelled))
    case LoadOk(t, _) => t in s.loads
    case LoadFails(t) => t in s.loads
    case LoadCancelled(t) => t in s.loads
  }

  // ----- steps ------------------------------------------------------------------

  predicate Live(s: State, k: int) { k in s.cache && s.cache[k].expires > s.wall }

  function LastKnown(s: State, k: int): Option<int> {
    if k in s.cache then Some(s.cache[k].count) else None
  }

  /** A count, or 0 when none was ever cached. */
  function Given(s: State, k: int, last: Option<int>): State {
    s.(answers := s.answers + {(k, if last.Some? then last.value else 0)})
  }

  /** The `finally` clause: give up the hold, and remove the flight at zero. `table` is the lock table
      once the caller has left the lock. */
  function Finally(s: State, t: int, table: Table): State
    requires t in s.table.spots && s.table.spots[t].lock in s.holders
  {
    var p := s.table.spots[t];
    var n := s.holders[p.lock] - 1;
    var here := p.user in table.userLocks && table.userLocks[p.user] == p.lock;
    s.(holders := s.holders[p.lock := n],
       arrived := s.arrived - {t},
       loads := s.loads - {t},
       table := if n == 0 && here then Dropped(table, p.user) else table)
  }

  predicate Sited(s: State, t: int) {
    t in s.table.spots && s.table.spots[t].lock in s.table.locks && s.table.spots[t].lock in s.holders && t in s.arrived
  }

  function Leave(s: State, t: int): State
    requires Sited(s, t)
  {
    Finally(s, t, Left(s.table, t))
  }

  /** From taking the flight's lock to the first await: serve what another caller has cached, share a
      failure that came after this caller arrived, or start a load. */
  function Enter(s: State, t: int): State
    requires Sited(s, t)
  {
    var p := s.table.spots[t];
    if Live(s, p.user) || (p.lock in s.failedAt && s.failedAt[p.lock] >= s.arrived[t]) then
      Leave(Given(s, p.user, LastKnown(s, p.user)), t)
    else s.(loads := s.loads[t := Load(s.wall, LastKnown(s, p.user))])
  }

  function Joined(s: State, t: int, k: int, nf: int): State
    requires k in s.table.userLocks ==> s.table.userLocks[k] in s.table.locks
  {
    var table := Arrived(s.table, t, k, nf);
    var l := table.spots[t].lock;
    s.(table := table, arrived := s.arrived[t := s.mono],
       holders := s.holders[l := if l in s.holders then s.holders[l] + 1 else 1])
  }

  ghost function Step(s: State, e: Event): State
    requires Enabled(s, e) && Inv(s)
  {
    match e
    case Clock(n, w) => s.(mono := s.mono + n, wall := w)
    case Forget(ks) => s.(cache := s.cache - ks)
    case Ask(t, k, nf) =>
      if Live(s, k) then Given(s, k, LastKnown(s, k))
      else
        LocksThere(s.table);
        JoinedKeeps(s, t, k, nf);
        var s1 := Joined(s, t, k, nf);
        if s1.table.spots[t].inside then Enter(s1, t) else s1
    case Wake(t) =>
      WokenKeeps(s, t);
      Enter(s.(table := Woke(s.table, t)), t)
    case CancelWait(t) => s.(table := Cancelling(s.table, t))
    case LeaveQueue(t) =>
      CallerSited(s, t);
      Finally(s, t, LeftQueue(s.table, t))
    case LoadOk(t, c) =>
      CallerSited(s, t);
      var k := s.table.spots[t].user;
      Leave(Given(s, k, Some(c)).(cache := s.cache[k := Entry(c, s.loads[t].since + TTL)],
        loaded := s.loaded + {(k, c)}), t)
    case LoadFails(t) =>
      CallerSited(s, t);
      Leave(Given(s, s.table.spots[t].user, s.loads[t].last).(failedAt := s.failedAt[s.table.spots[t].lock := s.mono]),
        t)
    case LoadCancelled(t) =>
      CallerSited(s, t);
      Leave(s, t)
  }

  // ----- the invariant -------------------------------------------------------------

  /** The callers between a flight's increment and its decrement. */
  function Callers(tb: Table, l: int): set<int> {
    set t | t in tb.spots && tb.spots[t].lock == l
  }

  /** Holder counts are the callers there; a flight is listed exactly while it has one. */
  ghost predicate HoldersOk(s: State) {
    && s.holders.Keys == s.table.locks.Keys
    && (forall l | l in s.holders :: s.holders[l] == |Callers(s.table, l)|)
    && (forall k | k in s.table.userLocks :: Callers(s.table, s.table.userLocks[k]) != {})
  }

  ghost predicate ValuesOk(s: State) {
    && (forall k | k in s.cache :: (k, s.cache[k].count) in s.loaded)
    && (forall a | a in s.answers :: a in s.loaded || a.1 == 0)
    && (forall l | l in s.failedAt :: s.failedAt[l] <= s.mono)
  }

  /** A caller inside its flight's lock is loading, and came after the flight's last failure. */
  ghost predicate CallerOk(s: State, t: int)
    requires t in s.table.spots
  {
    var p := s.table.spots[t];
    && t in s.arrived && s.arrived[t] <= s.mono
    && (t in s.loads <==> p.inside)
    && (t in s.loads && s.loads[t].last.Some? ==> (p.user, s.loads[t].last.value) in s.loaded)
    && (t in s.loads && p.lock in s.failedAt ==> s.failedAt[p.lock] < s.arrived[t])
  }

  ghost predicate Inv(s: State) {
    && UserLocks.Inv(s.table)
    && HoldersOk(s)
    && ValuesOk(s)
    && (forall t | t in s.table.spots :: CallerOk(s, t))
    && s.loads.Keys <= s.table.spots.Keys
  }

  const START := State(0, 0, map[], Table(map[], map[], map[]), map[], map[], map[], map[], {}, {})

  lemma CallerSited(s: State, t: int)
    requires Inv(s) && t in s.table.spots
    ensures Sited(s, t)
  {
    hide HoldersOk;
    assert SpotOk(s.table, t);
    assert CallerOk(s, t);
    assert s.holders.Keys == s.table.locks.Keys by { HoldersAreLocks(s); }
  }

  lemma HoldersAreLocks(s: State)
    requires HoldersOk(s)
    ensures s.holders.Keys == s.table.locks.Keys
  {
  }

  // ----- keeping it ------------------------------------------------------------------

  /** What Enter and Leave need: the invariant but for the caller in question. */
  ghost predicate InvBut(s: State, t: int) {
    && UserLocks.Inv(s.table) && HoldersOk(s) && ValuesOk(s) && Sited(s, t)
    && (forall x | x in s.table.spots && x != t :: CallerOk(s, x))
    && s.arrived[t] <= s.mono
    && s.loads.Keys <= s.table.spots.Keys
  }

  lemma ArrivedParts(tb: Table, t: int, k: int, nf: int)
    requires UserLocks.Inv(tb) && t !in tb.spots && nf !in tb.locks
    ensures k in tb.userLocks ==> tb.userLocks[k] in tb.locks
    ensures var tb' := Arrived(tb, t, k, nf);
      && t in tb'.spots && tb'.spots[t].user == k
      && tb'.spots == tb.spots[t := tb'.spots[t]]
      && tb'.userLocks == tb.userLocks[k := tb'.spots[t].lock]
      && tb'.locks.Keys == tb.locks.Keys + {tb'.spots[t].lock}
      && (if k in tb.userLocks then tb.userLocks[k] == tb'.spots[t].lock else tb'.spots[t].lock == nf)
  {
    hide AsyncLock.Inv, AsyncLock.Request;
  }

  lemma NobodyYet(tb: Table, l: int)
    requires UserLocks.Inv(tb) && l !in tb.locks
    ensures Callers(tb, l) == {}
  {
    hide AsyncLock.Inv;
    forall t | t in tb.spots ensures tb.spots[t].lock != l {
      assert SpotOk(tb, t);
    }
  }

  lemma JoinedKeeps(s: State, t: int, k: int, nf: int)
    requires Inv(s) && t !in s.table.spots && nf !in s.table.locks
    ensures k in s.table.userLocks ==> s.table.userLocks[k] in s.table.locks
    ensures var s1 := Joined(s, t, k, nf);
      InvBut(s1, t) && t !in s1.loads && s1.table.spots[t].user == k
  {
    hide UserLocks.Inv, ValuesOk, Arrived;
    ArrivedParts(s.table, t, k, nf);
    ArrivedKeeps(s.table, t, k, nf);
    var s1 := Joined(s, t, k, nf);
    var l := s1.table.spots[t].lock;
    if l !in s.table.locks { NobodyYet(s.table, l); }
    JoinedHolders(s, s1, t, k);
    assert ValuesOk(s1) by { SameValues(s, s1); }
    forall x | x in s1.table.spots && x != t ensures CallerOk(s1, x) {
      assert CallerOk(s, x);
    }
  }

  lemma SameValues(s: State, s1: State)
    requires ValuesOk(s) && s1.cache == s.cache && s1.loaded == s.loaded && s1.answers == s.answers
    requires s1.failedAt == s.failedAt && s1.mono == s.mono
    ensures ValuesOk(s1)
  {
  }

  lemma JoinedHolders(s: State, s1: State, t: int, k: int)
    requires HoldersOk(s) && t !in s.table.spots && t in s1.table.spots
    requires s1.table.spots == s.table.spots[t := s1.table.spots[t]]
    requires var l := s1.table.spots[t].lock;
      && s1.table.userLocks == s.table.userLocks[k := l]
      && s1.table.locks.Keys == s.table.locks.Keys + {l}
      && (l !in s.table.locks ==> Callers(s.table, l) == {})
      && s1.holders == s.holders[l := if l in s.holders then s.holders[l] + 1 else 1]
    ensures HoldersOk(s1)
  {
    var l := s1.table.spots[t].lock;
    assert Callers(s1.table, l) == Callers(s.table, l) + {t};
    forall m | m != l ensures Callers(s1.table, m) == Callers(s.table, m) {
    }
    forall j | j in s1.table.userLocks ensures Callers(s1.table, s1.table.userLocks[j]) != {} {
      if s1.table.userLocks[j] == l { assert t in Callers(s1.table, l); }
    }
  }

  /** Leaving the lock, then the `finally`. */
  lemma FinallyKeeps(s: State, t: int, table: Table)
    requires InvBut(s, t) && UserLocks.Inv(table)
    requires table.userLocks == s.table.userLocks && table.spots == s.table.spots - {t}
    requires table.locks.Keys == s.table.locks.Keys
    ensures Inv(Finally(s, t, table))
  {
    hide UserLocks.Inv, ValuesOk;
    var p := s.table.spots[t];
    var s1 := Finally(s, t, table);
    SpotsOnLiveLocks(s.table);
    assert ValuesOk(s1) by { SameValues(s, s1); }
    assert Callers(table, p.lock) == Callers(s.table, p.lock) - {t};
    assert t in Callers(s.table, p.lock);
    forall m | m != p.lock ensures Callers(table, m) == Callers(s.table, m) {
    }
    assert forall m :: Callers(s1.table, m) == Callers(table, m);
    if Callers(table, p.lock) == {} {
      forall x | x in table.spots ensures table.spots[x].user != p.user {
        assert x in Callers(table, p.lock) <==> table.spots[x].lock == p.lock;
      }
      DroppedKeeps(table, p.user);
    }
    assert UserLocks.Inv(s1.table);
    FinallyHolders(s, s1, t);
    forall x | x in s1.table.spots ensures CallerOk(s1, x) {
      assert CallerOk(s, x);
    }
  }

  /** A caller's lock is its key's, and different keys have different locks. */
  lemma SpotsOnLiveLocks(tb: Table)
    requires UserLocks.Inv(tb)
    ensures forall t | t in tb.spots ::
      tb.spots[t].user in tb.userLocks && tb.userLocks[tb.spots[t].user] == tb.spots[t].lock
    ensures forall u, v | u in tb.userLocks && v in tb.userLocks && tb.userLocks[u] == tb.userLocks[v] :: u == v
  {
    hide AsyncLock.Inv;
    forall t | t in tb.spots
      ensures tb.spots[t].user in tb.userLocks && tb.userLocks[tb.spots[t].user] == tb.spots[t].lock
    {
      assert SpotOk(tb, t);
    }
  }

  lemma FinallyHolders(s: State, s1: State, t: int)
    requires HoldersOk(s) && t in s.table.spots && s1.table.spots == s.table.spots - {t}
    requires s1.table.locks.Keys == s.table.locks.Keys
    requires s.table.spots[t].lock in s.table.locks
    requires var p := s.table.spots[t];
      && p.lock in s.holders && s1.holders == s.holders[p.lock := s.holders[p.lock] - 1]
      && p.user in s.table.userLocks && s.table.userLocks[p.user] == p.lock
      && (forall u, v | u in s.table.userLocks && v in s.table.userLocks
           && s.table.userLocks[u] == s.table.userLocks[v] :: u == v)
      && s1.table.userLocks == (if s1.holders[p.lock] == 0 then s.table.userLocks - {p.user} else s.table.userLocks)
    ensures HoldersOk(s1)
  {
    var p := s.table.spots[t];
    assert Callers(s1.table, p.lock) == Callers(s.table, p.lock) - {t};
    assert t in Callers(s.table, p.lock);
    forall m | m != p.lock ensures Callers(s1.table, m) == Callers(s.table, m) {
    }
  }

  lemma LeaveKeeps(s: State, t: int)
    requires InvBut(s, t) && s.table.spots[t].inside
    ensures Inv(Leave(s, t))
  {
    hide UserLocks.Inv, HoldersOk, ValuesOk, Finally, AsyncLock.Release;
    LeftKeeps(s.table, t);
    FinallyKeeps(s, t, Left(s.table, t));
  }

  lemma WokenKeeps(s: State, t: int)
    requires Inv(s) && Enabled(s, Wake(t))
    ensures var s1 := s.(table := Woke(s.table, t));
      InvBut(s1, t) && s1.table.spots[t].inside && t !in s1.loads
  {
    hide UserLocks.Inv, ValuesOk, AsyncLock.Take;
    CallerSited(s, t);
    WokeKeeps(s.table, t);
    assert CallerOk(s, t);
    var s1 := s.(table := Woke(s.table, t));
    SameCallers(s, s1);
    assert ValuesOk(s1) by { SameValues(s, s1); }
    forall x | x in s1.table.spots && x != t ensures CallerOk(s1, x) {
      assert CallerOk(s, x);
    }
  }

  lemma SameCallers(s: State, s1: State)
    requires HoldersOk(s) && s1.holders == s.holders
    requires s1.table.userLocks == s.table.userLocks && s1.table.locks.Keys == s.table.locks.Keys
    requires s1.table.spots.Keys == s.table.spots.Keys && forall t | t in s.table.spots ::
      s1.table.spots[t].lock == s.table.spots[t].lock
    ensures HoldersOk(s1)
  {
    assert forall t :: t in s1.table.spots.Keys <==> t in s.table.spots.Keys;
    forall l ensures Callers(s1.table, l) == Callers(s.table, l) {
      assert forall t :: t in Callers(s1.table, l) <==> t in Callers(s.table, l);
    }
  }

  lemma EnterKeeps(s: State, t: int)
    requires InvBut(s, t) && s.table.spots[t].inside
    ensures Inv(Enter(s, t))
  {
    hide UserLocks.Inv, HoldersOk, Leave;
    var p := s.table.spots[t];
    if Live(s, p.user) || (p.lock in s.failedAt && s.failedAt[p.lock] >= s.arrived[t]) {
      var s1 := Given(s, p.user, LastKnown(s, p.user));
      GivenKeeps(s, t, p.user, LastKnown(s, p.user));
      LeaveKeeps(s1, t);
    } else {
      var s1 := Enter(s, t);
      assert HoldersOk(s1) by { SameHolders(s, s1); }
      forall x | x in s1.table.spots ensures CallerOk(s1, x) {
        if x != t { assert CallerOk(s, x); }
      }
    }
  }

  lemma SameHolders(s: State, s1: State)
    requires HoldersOk(s) && s1.table == s.table && s1.holders == s.holders
    ensures HoldersOk(s1)
  {
  }

  lemma GivenKeeps(s: State, t: int, k: int, last: Option<int>)
    requires InvBut(s, t) && (last.Some? ==> (k, last.value) in s.loaded)
    ensures InvBut(Given(s, k, last), t)
  {
    hide UserLocks.Inv, HoldersOk;
    var s1 := Given(s, k, last);
    assert HoldersOk(s1) by { SameHolders(s, s1); }
    forall x | x in s1.table.spots && x != t ensures CallerOk(s1, x) {
      assert CallerOk(s, x);
    }
  }

  lemma ButCaller(s: State, t: int)
    requires Inv(s) && t in s.table.spots
    ensures InvBut(s, t)
  {
    hide UserLocks.Inv, HoldersOk, ValuesOk;
    CallerSited(s, t);
    assert CallerOk(s, t);
  }

  lemma LoadOkKeeps(s: State, t: int, c: int)
    requires Inv(s) && t in s.loads
    ensures Inv(Step(s, LoadOk(t, c)))
  {
    hide UserLocks.Inv, HoldersOk, Leave;
    ButCaller(s, t);
    assert CallerOk(s, t);
    var k := s.table.spots[t].user;
    var s1 := Given(s, k, Some(c)).(cache := s.cache[k := Entry(c, s.loads[t].since + TTL)],
      loaded := s.loaded + {(k, c)});
    assert HoldersOk(s1) by { SameHolders(s, s1); }
    forall x | x in s1.table.spots && x != t ensures CallerOk(s1, x) {
      assert CallerOk(s, x);
    }
    LeaveKeeps(s1, t);
  }

  lemma LoadFailsKeeps(s: State, t: int)
    requires Inv(s) && t in s.loads
    ensures Inv(Step(s, LoadFails(t)))
  {
    hide UserLocks.Inv, HoldersOk, Leave;
    ButCaller(s, t);
    assert CallerOk(s, t);
    var p := s.table.spots[t];
    var s1 := Given(s, p.user, s.loads[t].last).(failedAt := s.failedAt[p.lock := s.mono]);
    assert HoldersOk(s1) by { SameHolders(s, s1); }
    forall x | x in s1.table.spots && x != t ensures CallerOk(s1, x) {
      assert CallerOk(s, x);
      if x in s.loads && s.table.spots[x].lock == p.lock {
        OneInside(s.table, x, t);
      }
    }
    LeaveKeeps(s1, t);
  }

  lemma OneInside(tb: Table, a: int, b: int)
    requires UserLocks.Inv(tb) && a in tb.spots && b in tb.spots && tb.spots[a].inside && tb.spots[b].inside
    requires tb.spots[a].lock == tb.spots[b].lock
    ensures a == b
  {
    assert SpotOk(tb, a) && SpotOk(tb, b);
  }

  lemma LoadCancelledKeeps(s: State, t: int)
    requires Inv(s) && t in s.loads
    ensures Inv(Step(s, LoadCancelled(t)))
  {
    hide UserLocks.Inv, HoldersOk, ValuesOk, Leave;
    ButCaller(s, t);
    assert CallerOk(s, t);
    LeaveKeeps(s, t);
  }

  lemma QueueKeeps(s: State, t: int)
    requires Inv(s) && AtLock(s.table, t)
    ensures Inv(s.(table := Cancelling(s.table, t)))
    ensures Sited(s, t) && Inv(Finally(s, t, LeftQueue(s.table, t)))
  {
    hide UserLocks.Inv, ValuesOk, Finally, AsyncLock.Cancel, AsyncLock.Withdraw;
    ButCaller(s, t);
    CancellingKeeps(s.table, t);
    LeftQueueKeeps(s.table, t);
    FinallyKeeps(s, t, LeftQueue(s.table, t));
    var s1 := s.(table := Cancelling(s.table, t));
    SameCallers(s, s1);
    assert ValuesOk(s1) by { SameValues(s, s1); }
    forall x | x in s1.table.spots ensures CallerOk(s1, x) {
      assert CallerOk(s, x);
    }
  }

  lemma AskKeeps(s: State, t: int, k: int, nf: int)
    requires Inv(s) && Enabled(s, Ask(t, k, nf))
    ensures Inv(Step(s, Ask(t, k, nf)))
  {
    hide UserLocks.Inv, HoldersOk, Enter, Joined;
    if Live(s, k) {
      QuietKeeps(s, Given(s, k, LastKnown(s, k)));
    } else {
      LocksThere(s.table);
      JoinedKeeps(s, t, k, nf);
      var s1 := Joined(s, t, k, nf);
      if s1.table.spots[t].inside {
        EnterKeeps(s1, t);
      } else {
        assert CallerOk(s1, t);
      }
    }
  }

  /** Steps that touch no caller. */
  lemma QuietKeeps(s: State, s1: State)
    requires Inv(s) && s1.table == s.table && s1.holders == s.holders && s1.loads == s.loads && s1.arrived == s.arrived
    requires s1.failedAt == s.failedAt && s1.loaded == s.loaded && s1.mono >= s.mono
    requires s1.cache.Keys <= s.cache.Keys && forall k | k in s1.cache :: s1.cache[k] == s.cache[k]
    requires forall a | a in s1.answers :: a in s.answers || a in s.loaded
    ensures Inv(s1)
  {
    hide UserLocks.Inv, HoldersOk;
    assert HoldersOk(s1) by { SameHolders(s, s1); }
    forall x | x in s1.table.spots ensures CallerOk(s1, x) {
      assert CallerOk(s, x);
    }
  }

  lemma StepKeepsInv(s: State, e: Event)
    requires Inv(s) && Enabled(s, e)
    ensures Inv(Step(s, e))
  {
    hide UserLocks.Inv, HoldersOk, ValuesOk, CallerOk, Leave, Enter, Finally, Joined;
    match e {
      case Clock(n, w) => QuietKeeps(s, Step(s, e));
      case Forget(ks) => QuietKeeps(s, Step(s, e));
      case Ask(t, k, nf) => AskKeeps(s, t, k, nf);
      case Wake(t) => WokenKeeps(s, t); EnterKeeps(s.(table := Woke(s.table, t)), t);
      case CancelWait(t) => QueueKeeps(s, t);
      case LeaveQueue(t) => QueueKeeps(s, t);
      case LoadOk(t, c) => LoadOkKeeps(s, t, c);
      case LoadFails(t) => LoadFailsKeeps(s, t);
      case LoadCancelled(t) => LoadCancelledKeeps(s, t);
    }
  }

  /** Anyone can ask at any time, whatever the clocks read, and a waiting caller be cancelled, which then leaves; a
      load can succeed, fail or be cancelled; and wherever a caller waits, some caller of that key can go on. */
  lemma NobodyIsStuck(s: State, t: int, key: int, newFlight: int, ticks: nat, wall: int, count: int)
    requires Inv(s) && newFlight !in s.table.locks
    ensures Enabled(s, Clock(ticks, wall)) && Enabled(s, Forget({key}))
    ensures t !in s.table.spots ==> Enabled(s, Ask(t, key, newFlight))
    ensures t in s.table.spots && s.table.spots[t].inside ==>
      Enabled(s, LoadOk(t, count)) && Enabled(s, LoadFails(t)) && Enabled(s, LoadCancelled(t))
    ensures t in s.table.spots && !s.table.spots[t].inside ==>
      && Enabled(s, CancelWait(t)) && Enabled(Step(s, CancelWait(t)), LeaveQueue(t))
      && exists x | x in s.table.spots && s.table.spots[x].user == s.table.spots[t].user ::
           Enabled(s, LoadOk(x, count)) || Enabled(s, Wake(x)) || Enabled(s, LeaveQueue(x))
  {
    hide UserLocks.Inv, HoldersOk, ValuesOk, AsyncLock.Cancel;
    if t in s.table.spots {
      assert CallerOk(s, t);
      if !s.table.spots[t].inside {
        CallerSited(s, t);
        CancelledMoves(s.table, t);
        var x := SomebodyMoves(s.table, t);
        assert CallerOk(s, x);
      }
    }
  }

  // ----- runs ---------------------------------------------------------------------------

  ghost function Run(s: State, events: seq<Event>): State
    requires Inv(s)
    decreases |events|
  {
    if events == [] then s
    else if Enabled(s, events[0]) then
      StepKeepsInv(s, events[0]);
      Run(Step(s, events[0]), events[1..])
    else Run(s, events[1..])
  }

  lemma {:induction false} RunKeepsInv(s: State, events: seq<Event>)
    requires Inv(s)
    ensures Inv(Run(s, events))
    decreases |events|
  {
    hide Inv, Enabled, Step;
    if events != [] {
      if Enabled(s, events[0]) {
        StepKeepsInv(s, events[0]);
        RunKeepsInv(Step(s, events[0]), events[1..]);
      } else {
        RunKeepsInv(s, events[1..]);
      }
    }
  }

  lemma StartInv()
    ensures Inv(START)
  {
  }

  /** Under every interleaving, with callers cancelled at any await and entries forgotten at any
      time, at most one load runs per key. */
  lemma OneLoadPerKey(events: seq<Event>, a: int, b: int)
    ensures Inv(START)
    ensures var s := Run(START, events);
      a in s.loads && b in s.loads ==>
      && a in s.table.spots && b in s.table.spots && (s.table.spots[a].user == s.table.spots[b].user ==> a == b)
  {
    hide Run, UserLocks.Inv, HoldersOk, ValuesOk;
    StartInv();
    RunKeepsInv(START, events);
    var s := Run(START, events);
    if a in s.loads && b in s.loads {
      assert CallerOk(s, a) && CallerOk(s, b);
      if s.table.spots[a].user == s.table.spots[b].user {
        OnePerUser(s.table, a, b);
      }
    }
  }

  function Asking(tb: Table, k: int): set<int> {
    set t | t in tb.spots && tb.spots[t].user == k
  }

  lemma AskingAreCallers(tb: Table, k: int)
    requires forall t | t in tb.spots ::
      tb.spots[t].user in tb.userLocks && tb.userLocks[tb.spots[t].user] == tb.spots[t].lock
    requires forall u, v | u in tb.userLocks && v in tb.userLocks && tb.userLocks[u] == tb.userLocks[v] :: u == v
    ensures k in tb.userLocks ==> Asking(tb, k) == Callers(tb, tb.userLocks[k])
    ensures k !in tb.userLocks ==> Asking(tb, k) == {}
  {
    if k in tb.userLocks {
      forall t ensures t in Asking(tb, k) <==> t in Callers(tb, tb.userLocks[k]) {
      }
    } else {
      forall t ensures t !in Asking(tb, k) {
      }
    }
  }

  /** The holder count is the number of callers on the flight, and the flight is listed under its
      key exactly while there is one. */
  lemma FlightsAreCounted(events: seq<Event>, k: int)
    ensures Inv(START)
    ensures var s := Run(START, events);
      && (k in s.table.userLocks <==> Asking(s.table, k) != {})
      && (k in s.table.userLocks ==>
            s.table.userLocks[k] in s.holders
            && s.holders[s.table.userLocks[k]] == |Asking(s.table, k)|)
  {
    hide Run, UserLocks.Inv, ValuesOk;
    StartInv();
    RunKeepsInv(START, events);
    var s := Run(START, events);
    SpotsOnLiveLocks(s.table);
    LocksThere(s.table);
    AskingAreCallers(s.table, k);
  }

  /** Every cached count, and every count a caller is given other than the 0 of an empty cache, came
      from a successful load of that very key: no failure is ever cached. */
  lemma OnlyLoadedCounts(events: seq<Event>, k: int, count: int)
    ensures Inv(START)
    ensures var s := Run(START, events);
      && (k in s.cache ==> (k, s.cache[k].count) in s.loaded)
      && ((k, count) in s.answers && count != 0 ==> (k, count) in s.loaded)
  {
    hide Run, UserLocks.Inv, HoldersOk;
    StartInv();
    RunKeepsInv(START, events);
  }

  /** Callers waiting when a load fails share the failure: whoever loads next arrived after it. */
  lemma FailureIsShared(events: seq<Event>, t: int)
    ensures Inv(START)
    ensures var s := Run(START, events);
      t in s.loads ==>
      && t in s.table.spots && t in s.arrived
      && (s.table.spots[t].lock in s.failedAt ==> s.failedAt[s.table.spots[t].lock] < s.arrived[t])
  {
    hide Run, UserLocks.Inv, HoldersOk, ValuesOk;
    StartInv();
    RunKeepsInv(START, events);
    var s := Run(START, events);
    if t in s.loads {
      assert CallerOk(s, t);
    }
  }
}
