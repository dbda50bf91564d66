/** The TaskReentrantLock object behind a lock of LockOrder: it goes along with every step of the system, its depth
    always the number of times its owner has the name among the blocks it has open. */
module ReentrantSteps {
  import opened AsyncLock
  import opened LockOrder
  import opened Options
  import opened ReentrantLock

  /** How often the task has the lock open. */
  ghost function OpenTimes(s: State, t: int, n: Name): nat { if t in s.tasks then multiset(s.tasks[t].held)[n] else 0 }

  /** How often the holder of the lock has it open. */
  ghost function Nesting(s: State, n: Name): nat {
    match LockOf(s, n).holder
    case None => 0
    case Some(u) => OpenTimes(s, u, n)
  }

  ghost predicate Represents(l: TaskReentrantLock, s: State, n: Name)
    reads l
  {
    l.Valid() && l.lock == LockOf(s, n) && l.depth == Nesting(s, n)
  }

  /** The step is about this lock. */
  ghost predicate Touches(s: State, e: Event, n: Name) {
    match e
    case Cancel(t) => t in s.tasks && s.tasks[t].rest != [] && s.tasks[t].rest[0] == In(n)
    case Enter(t) => t in s.tasks && s.tasks[t].rest != [] && s.tasks[t].rest[0] == In(n)
    case Resume(t) => Waits(s, t, n)
    case GiveUp(t) => Waits(s, t, n)
    case Exit(t) => t in s.tasks && s.tasks[t].held != [] && s.tasks[t].held[|s.tasks[t].held| - 1] == n
    case _ => false
  }

  lemma OtherStepsKeep(s: State, e: Event, n: Name)
    requires LockOrder.Inv(s) && Enabled(s, e) && !Touches(s, e, n)
    ensures LockOf(Step(s, e), n) == LockOf(s, n) && Nesting(Step(s, e), n) == Nesting(s, n)
  {
    hide Step, LockOrder.Inv, Enabled;
    OtherLockKept(s, e, n);
    OtherTasksKept(s, e);
    OpenAsOften(s, e, n);
    forall u ensures OpenTimes(Step(s, e), u, n) == OpenTimes(s, u, n) {
      if u != e.task {
        SameForOthers(s, Step(s, e), e.task, u, n);
      }
    }
  }

  lemma SameForOthers(s: State, s': State, t: int, u: int, n: Name)
    requires s'.tasks - {t} == s.tasks - {t} && u != t
    ensures OpenTimes(s', u, n) == OpenTimes(s, u, n)
  {
    assert u in s.tasks <==> u in s.tasks - {t};
    assert u in s'.tasks <==> u in s'.tasks - {t};
    assert u in s.tasks ==> (s.tasks - {t})[u] == s.tasks[u] == s'.tasks[u];
  }

  lemma OtherLockKept(s: State, e: Event, n: Name)
    requires LockOrder.Inv(s) && Enabled(s, e) && !Touches(s, e, n)
    ensures LockOf(Step(s, e), n) == LockOf(s, n)
  {
    hide LockOrder.Inv, Request, Take, Withdraw, Release, AsyncLock.Cancel, FastPath;
  }

  lemma OtherTasksKept(s: State, e: Event)
    requires Enabled(s, e)
    ensures Step(s, e).tasks - {e.task} == s.tasks - {e.task}
  {
    hide Request, Take, Withdraw, Release, AsyncLock.Cancel, FastPath;
  }

  lemma FinishedHoldsNothing(s: State, t: int)
    requires LockOrder.Inv(s) && Enabled(s, Finish(t))
    ensures s.tasks[t].held == []
  {
    hide AsyncLock.Inv, Agree, Disciplined;
    assert TaskOk(s.tasks[t]);
  }

  lemma OpenAsOften(s: State, e: Event, n: Name)
    requires LockOrder.Inv(s) && Enabled(s, e) && !Touches(s, e, n)
    ensures OpenTimes(Step(s, e), e.task, n) == OpenTimes(s, e.task, n)
  {
    hide LockOrder.Inv, Request, Take, Withdraw, Release, AsyncLock.Cancel, FastPath;
    var t := e.task;
    match e {
      case Finish(_) => FinishedHoldsNothing(s, t);
      case Enter(_) => Opened(s.tasks[t].held, s.tasks[t].rest[0].name, n);
      case Resume(_) => Opened(s.tasks[t].held, s.tasks[t].rest[0].name, n);
      case Exit(_) => Closed(s.tasks[t].held, n);
      case _ =>
    }
  }

  lemma Opened(held: seq<Name>, m: Name, n: Name)
    ensures multiset(held + [m])[n] == multiset(held)[n] + if m == n then 1 else 0
  {
  }

  lemma Closed(held: seq<Name>, n: Name)
    requires held != []
    ensures multiset(held)[n] == multiset(held[..|held| - 1])[n] + if held[|held| - 1] == n then 1 else 0
  {
    assert held == held[..|held| - 1] + [held[|held| - 1]];
  }

  /** The object goes along with a step of the system, by the method the task calls then. */
  method Follow(l: TaskReentrantLock, ghost s: State, e: Event, n: Name, about: bool)
    requires Reentrant(n) && LockOrder.Inv(s) && Enabled(s, e) && about == Touches(s, e, n)
    requires Represents(l, s, n)
    modifies l
    ensures Represents(l, Step(s, e), n)
  {
    hide Disciplined, AsyncLock.Inv, Lock.Queued, Request, Take, Withdraw, Release, AsyncLock.Cancel, FastPath;
    if !about {
      OtherStepsKeep(s, e, n);
      return;
    }
    ghost var t := e.task;
    assert Agree(s, n, t);
    match e {
      case Enter(task) => FollowEnter(l, s, task, n);
      case Resume(task) => FollowResume(l, s, task, n);
      case GiveUp(task) => FollowGiveUp(l, s, task, n);
      case Exit(task) => FollowExit(l, s, task, n);
      case Cancel(task) => FollowCancel(l, s, task, n);
      case _ =>
    }
  }

  method FollowEnter(l: TaskReentrantLock, ghost s: State, task: int, n: Name)
    requires Reentrant(n) && LockOrder.Inv(s) && Enabled(s, Enter(task)) && Touches(s, Enter(task), n)
    requires Represents(l, s, n)
    modifies l
    ensures Represents(l, Step(s, Enter(task)), n)
  {
    hide Disciplined, After, AsyncLock.Inv, Request, FastPath, Lock.Queued;
    ghost var held := s.tasks[task].held;
    assert Agree(s, n, task);
    assert n in held <==> n in multiset(held);
    Opened(held, n, n);
    LockIsOk(s, n);
    if n !in held {
      RequestKeeps(LockOf(s, n), task);
    }
    var entered := l.Enter(task);
  }

  method FollowResume(l: TaskReentrantLock, ghost s: State, task: int, n: Name)
    requires Reentrant(n) && LockOrder.Inv(s) && Enabled(s, Resume(task)) && Touches(s, Resume(task), n)
    requires Represents(l, s, n)
    modifies l
    ensures Represents(l, Step(s, Resume(task)), n)
  {
    hide Disciplined, After, AsyncLock.Inv, Take, Lock.Queued;
    assert Agree(s, n, task) && TaskOk(s.tasks[task]);
    Opened(s.tasks[task].held, n, n);
    TakeKeeps(LockOf(s, n), task);
    l.Resume(task);
  }

  method FollowGiveUp(l: TaskReentrantLock, ghost s: State, task: int, n: Name)
    requires Reentrant(n) && LockOrder.Inv(s) && Enabled(s, GiveUp(task)) && Touches(s, GiveUp(task), n)
    requires Represents(l, s, n)
    modifies l
    ensures Represents(l, Step(s, GiveUp(task)), n)
  {
    hide Disciplined, After, AsyncLock.Inv, Withdraw, Lock.Queued;
    assert Agree(s, n, task);
    LockIsOk(s, n);
    WithdrawKeeps(LockOf(s, n), task);
    l.GiveUp(task);
  }

  method FollowExit(l: TaskReentrantLock, ghost s: State, task: int, n: Name)
    requires Reentrant(n) && LockOrder.Inv(s) && Enabled(s, Exit(task)) && Touches(s, Exit(task), n)
    requires Represents(l, s, n)
    modifies l
    ensures Represents(l, Step(s, Exit(task)), n)
  {
    hide Disciplined, After, AsyncLock.Inv, Release, Lock.Queued;
    assert Agree(s, n, task);
    Closed(s.tasks[task].held, n);
    LockIsOk(s, n);
    ReleaseKeeps(LockOf(s, n));
    l.Exit(task);
  }

  /** The task's wait is cancelled from outside: only the queue hears of it. */
  method FollowCancel(l: TaskReentrantLock, ghost s: State, task: int, n: Name)
    requires Reentrant(n) && LockOrder.Inv(s) && Enabled(s, Cancel(task)) && Touches(s, Cancel(task), n)
    requires Represents(l, s, n)
    modifies l
    ensures Represents(l, Step(s, Cancel(task)), n)
  {
    hide Disciplined, After, AsyncLock.Inv, AsyncLock.Cancel, Lock.Queued;
    LockIsOk(s, n);
    CancelKeeps(LockOf(s, n), task);
    l.lock := AsyncLock.Cancel(l.lock, task);
  }
}
