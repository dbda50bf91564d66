/** Any number of the operations of LockPrograms at once: they cannot deadlock, but for the usage purge that takes
    a guard late. */
module LockSafety {
  import opened LockDeadlock
  import opened LockOrder
  import opened LockPrograms

  /** Everything that takes more than one lock, or one that others nest in. */
  datatype Operation =
    | FlushUsage
    | EndRequest
    | RenameIdentity
    | DropBuffered
    | RenameUser
    | ChangeComposition(pool: int, settlements: nat)
    | DeleteAccount(pool: int)
    | ResettlePools(pools: seq<int>)
    | CheckRate(user: int, pooled: int, own: int)
    | Purge(outer: seq<int>, inner: seq<int>)

  function Program(o: Operation): seq<Op> {
    match o
    case FlushUsage => FLUSH
    case EndRequest => END_REQUEST
    case RenameIdentity => RENAME_IDENTITY
    case DropBuffered => DROP_BUFFERED
    case RenameUser => RENAME_USER
    case ChangeComposition(p, n) => Composition(p, n)
    case DeleteAccount(p) => DeleteUser(p)
    case ResettlePools(ids) => Resettle(ids)
    case CheckRate(u, pooled, own) => Check(u, pooled, own)
    case Purge(outer, inner) => PurgeUsage(outer, inner)
  }

  /** What each operation takes, in order, and what it holds then. */
  lemma OperationsTake(o: Operation)
    ensures match o
      case FlushUsage => Takes(Program(o), [], Flushing([]))
      case EndRequest => Takes(Program(o), [], [[Tracker], [Tracker, Usage], [Tracker]])
      case RenameIdentity => Takes(Program(o), [], [[Flush], [Flush, Tracker], [Flush, Tracker, Usage]])
      case DropBuffered => Takes(Program(o), [], [[Flush], [Flush, Usage]])
      case RenameUser => Takes(Program(o), [], [[Flush]] + (Flushing([Flush]) + Renaming([Flush])))
      case ChangeComposition(p, n) => Takes(Program(o), [], [[Pool(p)]] + Repeated(n, Settling([Pool(p)])))
      case DeleteAccount(p) =>
        var held := [Pool(p), Flush];
        Takes(Program(o), [], [[Pool(p)]] + ([held] + (Settling(held) + Renaming(held))))
      case ResettlePools(ids) => Takes(Program(o), [], Resettling(ids, []))
      case CheckRate(u, pooled, own) =>
        var gate := UserGate(u);
        Takes(Program(o), [],
              [[Config], [gate], [gate, Flight(pooled)], [gate, Flight(pooled), Usage],
               [gate, Flight(own)], [gate, Flight(own), Usage], [Flight(pooled)], [Flight(pooled), Usage]])
      case Purge(outer, inner) =>
        var held := Pools(outer) + [Flush];
        Takes(Program(o), [],
              Guarding(outer, []) + ([held]
                + (Flushing(held) + [held + [Flush], held + [Flush] + [Usage]] + Resettling(inner, held))))
  {
    hide Takes, Resettle, PurgeUsage, Check, Composition, DeleteUser, Repeated, Resettling, Guarding;
    LocksTaken([]);
    assert forall n: Name :: [] + [n] == [n];
    assert forall n: Name, m: Name :: [n] + [m] == [n, m];
    assert forall n: Name, m: Name, k: Name :: [n, m] + [k] == [n, m, k];
    match o {
      case ChangeComposition(p, n) => PoolLocksTaken(p, n, [], []);
      case DeleteAccount(p) => PoolLocksTaken(p, 0, [], []);
      case ResettlePools(ids) => PoolLocksTaken(0, 0, [], ids);
      case CheckRate(u, pooled, own) => CheckLocksTaken(u, pooled, own);
      case Purge(outer, inner) => PoolLocksTaken(0, 0, outer, inner);
      case _ =>
    }
  }

  /** Pools are listed in ascending order. */
  predicate Sorted(o: Operation) {
    match o
    case ResettlePools(ids) => Ascending(ids)
    case Purge(outer, inner) => Ascending(outer) && Ascending(inner)
    case _ => true
  }

  /** The purge resettles only pools whose guards it took at the start. */
  predicate Guarded(o: Operation) { o.Purge? ==> forall p | p in o.inner :: p in o.outer }

  lemma OperationIsOrdered(o: Operation)
    requires Sorted(o) && Guarded(o)
    ensures Disciplined(Program(o), []) && After(Program(o), []) == []
  {
    hide Disciplined, After, Resettle, PurgeUsage, Check, Composition, DeleteUser;
    match o {
      case ChangeComposition(p, n) => PoolOperationsAreOrdered(p, n);
      case DeleteAccount(p) => PoolOperationsAreOrdered(p, 0);
      case ResettlePools(ids) => ResettleIsOrdered(ids);
      case CheckRate(u, pooled, own) => ChecksAreOrdered(u, pooled, own);
      case Purge(outer, inner) => PurgeIsOrderedIff(outer, inner);
      case _ => TrackerOperationsAreOrdered();
    }
  }

  /** What is started is one of the operations, if it is the purge then a guarded one. */
  ghost predicate StartsGuarded(e: Event) {
    e.Start? ==> exists o | Sorted(o) && Guarded(o) :: e.program == Program(o)
  }

  lemma GuardedIsOrdered(e: Event)
    requires StartsGuarded(e)
    ensures Ordered(e)
  {
    hide Program, Disciplined, After;
    if e.Start? {
      var o :| Sorted(o) && Guarded(o) && e.program == Program(o);
      OperationIsOrdered(o);
    }
  }

  /** However many operations run at once, started, cancelled or failing anywhere: while one is unfinished, some
      operation has a step to take; left to themselves they take at most as many as there is work left, and
      when they can take no more all have finished. */
  lemma OperationsNeverDeadlock(events: seq<Event>, steps: seq<Event>)
    requires forall e | e in events :: StartsGuarded(e)
    requires Schedule(Run(START, events), steps)
    ensures !Deadlocked(Run(START, events))
    ensures |steps| <= Work(Run(START, events))
    ensures Run(Run(START, events), steps).tasks == map[] || exists e :: Schedule(Run(START, events), steps + [e])
  {
    hide Inv, Run, Schedule, Work, Deadlocked, StartsGuarded, Ordered;
    forall e | e in events ensures Ordered(e) {
      GuardedIsOrdered(e);
    }
    RunsNeverDeadlock(events);
    SchedulesEnd(Run(START, events), steps);
    SchedulesFinishOrGoOn(Run(START, events), steps);
  }

  ghost predicate StartsGuardedOr(e: Event, o: Operation) { StartsGuarded(e) || (e.Start? && e.program == Program(o)) }

  /** A purge is free of deadlock, among any of the other operations, if and only if it guarded at the start every
      pool it resettles. */
  lemma PurgeIsDeadlockFreeIff(outer: seq<int>, inner: seq<int>)
    requires Ascending(outer) && Ascending(inner)
    ensures (forall events | (forall e | e in events :: StartsGuardedOr(e, Purge(outer, inner))) ::
      !Deadlocked(Run(START, events)))
      <==> Guarded(Purge(outer, inner))
  {
    hide Run, Deadlocked, StartsGuarded, Program, Ordered;
    var purge := Purge(outer, inner);
    if Guarded(purge) {
      forall events | forall e | e in events :: StartsGuardedOr(e, purge) ensures !Deadlocked(Run(START, events)) {
        forall e | e in events ensures Ordered(e) {
          assert StartsGuardedOr(e, purge);
          PurgeGuarded(e, purge);
          GuardedIsOrdered(e);
        }
        RunsNeverDeadlock(events);
      }
    } else {
      var events := UnguardedDeadlocks(purge);
      assert Deadlocked(Run(START, events));
    }
  }

  lemma PurgeGuarded(e: Event, purge: Operation)
    requires StartsGuardedOr(e, purge) && Sorted(purge) && Guarded(purge)
    ensures StartsGuarded(e)
  {
    hide Program;
  }

  lemma UnguardedDeadlocks(purge: Operation) returns (events: seq<Event>)
    requires purge.Purge? && Sorted(purge) && !Guarded(purge)
    ensures (forall e | e in events :: StartsGuardedOr(e, purge)) && Deadlocked(Run(START, events))
  {
    hide Run, Enabled, PurgeUsage, Composition;
    var p :| p in purge.inner && p !in purge.outer;
    var q, run := LatePurgeCanDeadlock(purge.outer, purge.inner, p);
    events := run;
    var change := ChangeComposition(q, 1);
    assert Sorted(change) && Guarded(change) && Program(change) == Composition(q, 1);
    assert events[0] == events[..2][0] && events[1] == events[..2][1];
    forall e | e in events ensures StartsGuardedOr(e, purge) {
      var i :| 0 <= i < |events| && events[i] == e;
      if i >= 2 {
        assert e == events[2..][i - 2];
      }
    }
    assert 1 in Run(START, events).tasks;
  }
}
