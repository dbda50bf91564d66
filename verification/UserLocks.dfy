/** The per-user lock map of app/rate_limit.py: locks are created on demand and swept when idle. */
module UserLocks {
  import opened Options
  import opened AsyncLock

  /** A task queued for, or inside, its user's critical section, on the lock it asked for. */
  datatype Spot = Spot(user: int, lock: int, inside: bool)

  datatype Table = Table(userLocks: map<int, int>, locks: map<int, Lock>, spots: map<int, Spot>)

  ghost predicate LocksOk(tb: Table) {
    && (forall l | l in tb.locks :: AsyncLock.Inv(tb.locks[l]))
    && (forall u | u in tb.userLocks :: tb.userLocks[u] in tb.locks)
    && (forall u, v | u in tb.userLocks && v in tb.userLocks && tb.userLocks[u] == tb.userLocks[v] :: u == v)
  }

  /** The task's lock is the very one its user currently has, and knows the task. */
  ghost predicate SpotOk(tb: Table, t: int)
    requires t in tb.spots
  {
    var p := tb.spots[t];
    && p.user in tb.userLocks && tb.userLocks[p.user] == p.lock && p.lock in tb.locks
    && (if p.inside then tb.locks[p.lock].holder == Some(t) else tb.locks[p.lock].Queued(t))
  }

  /** Locks know only tasks that are where they should be. */
  ghost predicate Known(tb: Table, l: int, t: int)
    requires l in tb.locks
  {
    && (tb.locks[l].holder == Some(t) ==> t in tb.spots && tb.spots[t].lock == l && tb.spots[t].inside)
    && (tb.locks[l].Queued(t) ==> t in tb.spots && tb.spots[t].lock == l && !tb.spots[t].inside)
  }

  ghost predicate Inv(tb: Table) {
    && LocksOk(tb)
    && (forall t | t in tb.spots :: SpotOk(tb, t))
    && (forall l, t | l in tb.locks :: Known(tb, l, t))
  }

  lemma LocksThere(tb: Table)
    requires Inv(tb)
    ensures forall u | u in tb.userLocks :: tb.userLocks[u] in tb.locks
  {
  }

  // ----- operations -----------------------------------------------------------------

  /** `_get_user_lock`. */
  function WithLock(tb: Table, u: int, newLock: int): Table {
    if u in tb.userLocks then tb
    else tb.(userLocks := tb.userLocks[u := newLock], locks := tb.locks[newLock := FREE])
  }

  /** Getting the user's lock and asking for it: no await separates the two. */
  function Arrived(tb: Table, t: int, u: int, newLock: int): Table
    requires u in tb.userLocks ==> tb.userLocks[u] in tb.locks
  {
    var tb1 := WithLock(tb, u, newLock);
    var l := tb1.userLocks[u];
    tb1.(locks := tb1.locks[l := Request(tb1.locks[l], t)],
         spots := tb1.spots[t := Spot(u, l, FastPath(tb1.locks[l]))])
  }

  ghost predicate AtLock(tb: Table, t: int) {
    t in tb.spots && !tb.spots[t].inside && tb.spots[t].lock in tb.locks
  }

  function Woke(tb: Table, t: int): Table
    requires AtLock(tb, t)
  {
    var p := tb.spots[t];
    tb.(locks := tb.locks[p.lock := Take(tb.locks[p.lock], t)], spots := tb.spots[t := p.(inside := true)])
  }

  function Cancelling(tb: Table, t: int): Table
    requires AtLock(tb, t)
  {
    var l := tb.spots[t].lock;
    tb.(locks := tb.locks[l := Cancel(tb.locks[l], t)])
  }

  function LeftQueue(tb: Table, t: int): Table
    requires AtLock(tb, t)
  {
    var l := tb.spots[t].lock;
    tb.(locks := tb.locks[l := Withdraw(tb.locks[l], t)], spots := tb.spots - {t})
  }

  function Left(tb: Table, t: int): Table
    requires t in tb.spots && tb.spots[t].lock in tb.locks
  {
    var l := tb.spots[t].lock;
    tb.(locks := tb.locks[l := Release(tb.locks[l])], spots := tb.spots - {t})
  }

  /** The sweep: locks of users without a minute bucket that nobody holds or awaits. */
  function Swept(tb: Table, busy: set<int>): Table
    requires forall u | u in tb.userLocks :: tb.userLocks[u] in tb.locks
  {
    var idle := set u | u in tb.userLocks && u !in busy && !tb.locks[tb.userLocks[u]].InUse();
    tb.(userLocks := tb.userLocks - idle)
  }

  /** A lock goes exactly when its user is not busy and nobody holds it or queues for it. */
  lemma SweptExactly(tb: Table, busy: set<int>, u: int)
    requires forall v | v in tb.userLocks :: tb.userLocks[v] in tb.locks
    ensures var tb' := Swept(tb, busy);
      && (u in tb'.userLocks <==>
          u in tb.userLocks
          && (u in busy || tb.locks[tb.userLocks[u]].holder != None || tb.locks[tb.userLocks[u]].waiters != []))
      && (u in tb'.userLocks ==> tb'.userLocks[u] == tb.userLocks[u])
      && tb'.locks == tb.locks && tb'.spots == tb.spots
  {
  }

  /** One user's lock leaves the map. */
  function Dropped(tb: Table, u: int): Table {
    tb.(userLocks := tb.userLocks - {u})
  }

  // ----- each keeps the invariant -------------------------------------------------------

  lemma WithLockKeeps(tb: Table, u: int, newLock: int)
    requires Inv(tb) && newLock !in tb.locks
    ensures Inv(WithLock(tb, u, newLock)) && u in WithLock(tb, u, newLock).userLocks
  {
    hide AsyncLock.Inv, Lock.Queued;
    var tb' := WithLock(tb, u, newLock);
    FreeIsOk();
    forall t | t in tb'.spots ensures SpotOk(tb', t) {
      assert SpotOk(tb, t);
    }
    forall l, t | l in tb'.locks ensures Known(tb', l, t) {
      if l in tb.locks { assert Known(tb, l, t); }
    }
  }

  lemma FreeIsOk()
    ensures AsyncLock.Inv(FREE) && FREE.holder == None && forall t :: !FREE.Queued(t)
  {
  }

  lemma ArrivedKeeps(tb: Table, t: int, u: int, newLock: int)
    requires Inv(tb) && newLock !in tb.locks && t !in tb.spots
    ensures Inv(Arrived(tb, t, u, newLock))
    ensures t in Arrived(tb, t, u, newLock).spots && Arrived(tb, t, u, newLock).spots[t].user == u
    ensures Arrived(tb, t, u, newLock).spots - {t} == tb.spots
  {
    hide AsyncLock.Inv, Lock.Queued, Request;
    WithLockKeeps(tb, u, newLock);
    var tb1 := WithLock(tb, u, newLock);
    var l := tb1.userLocks[u];
    assert Known(tb1, l, t);
    RequestKeeps(tb1.locks[l], t);
    var tb' := Arrived(tb, t, u, newLock);
    forall x | x in tb'.spots ensures SpotOk(tb', x) {
      if x != t { assert SpotOk(tb1, x); }
    }
    forall m, x | m in tb'.locks ensures Known(tb', m, x) {
      assert Known(tb1, m, x);
      assert Known(tb1, m, t);
    }
  }

  /** Replacing one lock, where every other task sees it as before. */
  lemma OneLockChanged(tb: Table, t: int, tb': Table)
    requires Inv(tb) && t in tb.spots && tb.spots[t].lock in tb.locks
    requires tb'.userLocks == tb.userLocks && tb'.spots - {t} == tb.spots - {t}
    requires tb.spots[t].lock in tb'.locks && tb' .locks == tb.locks[tb.spots[t].lock := tb'.locks[tb.spots[t].lock]]
    requires var l, l' := tb.locks[tb.spots[t].lock], tb'.locks[tb.spots[t].lock];
      && AsyncLock.Inv(l')
      && (forall x | x != t :: (l'.Queued(x) <==> l.Queued(x)) && (l'.holder == Some(x) <==> l.holder == Some(x)))
      && (if t in tb'.spots then
            tb'.spots[t].user == tb.spots[t].user && tb'.spots[t].lock == tb.spots[t].lock
            && (l'.holder == Some(t) <==> tb'.spots[t].inside) && (l'.Queued(t) <==> !tb'.spots[t].inside)
          else !l'.Queued(t) && l'.holder != Some(t))
    ensures Inv(tb')
  {
    hide AsyncLock.Inv, Lock.Queued;
    var n := tb.spots[t].lock;
    assert SpotOk(tb, t);
    forall x | x in tb'.spots ensures SpotOk(tb', x) {
      if x != t {
        assert x in tb'.spots - {t};
        assert tb'.spots[x] == (tb'.spots - {t})[x] == (tb.spots - {t})[x] == tb.spots[x];
        assert SpotOk(tb, x);
      }
    }
    forall m, x | m in tb'.locks ensures Known(tb', m, x) {
      assert Known(tb, m, x);
      if x != t {
        assert x in tb.spots ==> x in tb.spots - {t};
        assert x in tb'.spots ==> x in tb'.spots - {t};
        assert x in tb.spots ==> tb'.spots[x] == (tb'.spots - {t})[x] == (tb.spots - {t})[x] == tb.spots[x];
      }
    }
  }

  lemma WokeKeeps(tb: Table, t: int)
    requires Inv(tb) && AtLock(tb, t) && tb.locks[tb.spots[t].lock].Is(t, Woken)
    ensures Inv(Woke(tb, t))
  {
    hide AsyncLock.Inv, Lock.Queued, Take;
    TakeKeeps(tb.locks[tb.spots[t].lock], t);
    OneLockChanged(tb, t, Woke(tb, t));
  }

  lemma CancellingKeeps(tb: Table, t: int)
    requires Inv(tb) && AtLock(tb, t)
    ensures Inv(Cancelling(tb, t))
  {
    hide AsyncLock.Inv, Lock.Queued, Cancel;
    assert SpotOk(tb, t);
    assert Known(tb, tb.spots[t].lock, t);
    CancelKeeps(tb.locks[tb.spots[t].lock], t);
    OneLockChanged(tb, t, Cancelling(tb, t));
  }

  lemma LeftQueueKeeps(tb: Table, t: int)
    requires Inv(tb) && AtLock(tb, t)
    ensures Inv(LeftQueue(tb, t))
  {
    hide AsyncLock.Inv, Lock.Queued, Withdraw;
    assert SpotOk(tb, t);
    assert Known(tb, tb.spots[t].lock, t);
    WithdrawKeeps(tb.locks[tb.spots[t].lock], t);
    OneLockChanged(tb, t, LeftQueue(tb, t));
  }

  lemma LeftKeeps(tb: Table, t: int)
    requires Inv(tb) && t in tb.spots && tb.spots[t].inside && tb.spots[t].lock in tb.locks
    ensures Inv(Left(tb, t))
  {
    hide AsyncLock.Inv, Lock.Queued, Release;
    assert SpotOk(tb, t);
    assert Known(tb, tb.spots[t].lock, t);
    ReleaseKeeps(tb.locks[tb.spots[t].lock]);
    OneLockChanged(tb, t, Left(tb, t));
  }

  lemma SweptKeeps(tb: Table, busy: set<int>)
    requires Inv(tb)
    ensures Inv(Swept(tb, busy))
  {
    hide AsyncLock.Inv;
    var tb' := Swept(tb, busy);
    forall t | t in tb'.spots ensures SpotOk(tb', t) {
      assert SpotOk(tb, t);
      assert tb.locks[tb.spots[t].lock].InUse();
    }
    forall l, t | l in tb'.locks ensures Known(tb', l, t) {
      assert Known(tb, l, t);
    }
  }

  lemma DroppedKeeps(tb: Table, u: int)
    requires Inv(tb) && forall t | t in tb.spots :: tb.spots[t].user != u
    ensures Inv(Dropped(tb, u))
  {
    hide AsyncLock.Inv, Lock.Queued;
    var tb' := Dropped(tb, u);
    forall t | t in tb'.spots ensures SpotOk(tb', t) {
      assert SpotOk(tb, t);
    }
    forall l, t | l in tb'.locks ensures Known(tb', l, t) {
      assert Known(tb, l, t);
    }
  }

  /** Two tasks inside the critical section of one user are the same task. */
  lemma OnePerUser(tb: Table, a: int, b: int)
    requires Inv(tb) && a in tb.spots && b in tb.spots
    requires tb.spots[a].inside && tb.spots[b].inside && tb.spots[a].user == tb.spots[b].user
    ensures a == b
  {
    assert SpotOk(tb, a) && SpotOk(tb, b);
  }

  // ----- nobody waits in vain ----------------------------------------------------------

  /** It is the task's turn: it has been woken, or it has been cancelled and has still to leave the queue. */
  ghost predicate ItsTurn(tb: Table, t: int) {
    AtLock(tb, t) && exists state | state in {Woken, Cancelled, WokenCancelled} ::
      tb.locks[tb.spots[t].lock].Is(t, state)
  }

  /** Wherever a task waits, some task of the same lock is inside or has its turn: no wake-up is lost. */
  lemma SomebodyMoves(tb: Table, t: int) returns (x: int)
    requires Inv(tb) && AtLock(tb, t)
    ensures x in tb.spots && tb.spots[x].user == tb.spots[t].user && (tb.spots[x].inside || ItsTurn(tb, x))
  {
    assert SpotOk(tb, t);
    var l := tb.spots[t].lock;
    var lock := tb.locks[l];
    assert AsyncLock.Inv(lock);
    if lock.holder.Some? {
      x := lock.holder.value;
      assert Known(tb, l, x);
    } else {
      x := lock.waiters[0].task;
      assert lock.Queued(x);
      assert Known(tb, l, x);
      assert lock.Is(x, lock.waiters[0].state);
    }
    assert SpotOk(tb, x);
  }

  /** Whoever is cancelled while waiting then has their turn, to leave. */
  lemma CancelledMoves(tb: Table, t: int)
    requires Inv(tb) && AtLock(tb, t)
    ensures var tb' := Cancelling(tb, t);
      && AtLock(tb', t) && tb'.spots == tb.spots
      && (tb'.locks[tb.spots[t].lock].Is(t, Cancelled) || tb'.locks[tb.spots[t].lock].Is(t, WokenCancelled))
  {
    hide AsyncLock.Inv, AsyncLock.Cancel, Lock.Queued;
    assert SpotOk(tb, t);
    CancelledIs(tb.locks[tb.spots[t].lock], t);
  }
}
