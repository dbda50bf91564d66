/** The locks of the rate limiter, the usage tracker and pool settlement, and the order they nest in.
    Tasks run programs of `async with` blocks; any number of them, cancelled or failing anywhere. */
module LockOrder {
  import opened Options
  import opened AsyncLock
  import opened Sums

  datatype Name =
    | Pool(id: int) | Flush | Reload | Config
    | UserGate(id: int) | Flight(id: int) | Tracker | Usage

  function Level(n: Name): int {
    match n
    case Pool(_) => 0
    case Flush => 1
    case Reload => 2
    case Config => 3
    case UserGate(_) => 4
    case Flight(_) => 5
    case Tracker => 6
    case Usage => 7
  }

  function Id(n: Name): int {
    match n
    case Pool(i) => i
    case UserGate(i) => i
    case Flight(i) => i
    case _ => 0
  }

  predicate Below(a: Name, b: Name) {
    Level(a) < Level(b) || (Level(a) == Level(b) && Id(a) < Id(b))
  }

  /** Pool locks and the flush mutex are TaskReentrantLocks. */
  predicate Reentrant(n: Name) { n.Pool? || n.Flush? }

  /** Entering and leaving an `async with` block; blocks nest, so leaving closes the innermost. */
  datatype Op = In(name: Name) | Out

  predicate MayEnter(n: Name, held: seq<Name>) {
    (Reentrant(n) && n in held) || forall m | m in held :: Below(m, n)
  }

  /** Every new lock is above all those held. */
  predicate Disciplined(ops: seq<Op>, held: seq<Name>) {
    if ops == [] then true
    else match ops[0]
      case In(n) => MayEnter(n, held) && Disciplined(ops[1..], held + [n])
      case Out => |held| > 0 && Disciplined(ops[1..], held[..|held| - 1])
  }

  function After(ops: seq<Op>, held: seq<Name>): seq<Name> {
    if ops == [] then held
    else match ops[0]
      case In(n) => After(ops[1..], held + [n])
      case Out => After(ops[1..], if |held| > 0 then held[..|held| - 1] else [])
  }

  /** A pool lock and the flush mutex may be taken inside themselves, no other lock may; pool locks go in ascending
      order, and before the flush mutex, never after. */
  lemma NestingAllowed(n: Name, i: int, j: int)
    ensures Disciplined([In(n), In(n), Out, Out], []) <==> n.Pool? || n.Flush?
    ensures Disciplined([In(Pool(i)), In(Pool(j)), Out, Out], []) <==> i <= j
    ensures Disciplined([In(Pool(i)), In(Flush), Out, Out], [])
    ensures !Disciplined([In(Flush), In(Pool(i)), Out, Out], [])
  {
    Nested(n, n);
    Nested(Pool(i), Pool(j));
    Nested(Pool(i), Flush);
    Nested(Flush, Pool(i));
    assert Pool(i) in [Pool(i)] && Flush in [Flush];
  }

  lemma Nested(n: Name, m: Name)
    ensures Disciplined([In(n), In(m), Out, Out], []) <==> MayEnter(m, [n])
  {
    var inner, outs := [In(m), Out, Out], [Out, Out];
    assert [In(n), In(m), Out, Out][1..] == inner && inner[1..] == outs && outs[1..] == [Out] && [Out][1..] == [];
    assert [n, m][..1] == [n] && [n][..0] == [] && [] + [n] == [n] && [n] + [m] == [n, m];
    assert Disciplined([Out], [n]);
    assert Disciplined(outs, [n, m]);
    assert Disciplined(inner, [n]) <==> MayEnter(m, [n]);
    assert MayEnter(n, []);
  }

  // ----- the system -------------------------------------------------------------------

  /** `waiting`: queued for the lock of the next operation. */
  datatype Task = Task(rest: seq<Op>, held: seq<Name>, waiting: bool)

  datatype State = State(locks: map<Name, Lock>, tasks: map<int, Task>)

  function LockOf(s: State, n: Name): Lock { if n in s.locks then s.locks[n] else FREE }

  datatype Event =
    | Start(task: int, program: seq<Op>)
    | Cancel(task: int)                  // cancelled while waiting
    | Raise(task: int)                   // cancelled or failing elsewhere
    | Enter(task: int)
    | Resume(task: int)
    | GiveUp(task: int)
    | Exit(task: int)
    | Finish(task: int)

  /** What a task does next, as opposed to what is done to it. */
  predicate Progress(e: Event) { e.Enter? || e.Resume? || e.GiveUp? || e.Exit? || e.Finish? }

  ghost predicate Waits(s: State, t: int, n: Name) {
    t in s.tasks && s.tasks[t].waiting && s.tasks[t].rest != [] && s.tasks[t].rest[0] == In(n)
  }

  /** A task that is started runs a program that keeps to the order and closes its blocks. */
  predicate Ordered(e: Event) { e.Start? ==> Disciplined(e.program, []) && After(e.program, []) == [] }

  predicate Running(s: State, t: int) { t in s.tasks && !s.tasks[t].waiting }

  ghost predicate Enabled(s: State, e: Event) {
    match e
    case Start(t, _) => t !in s.tasks
    case Cancel(t) => t in s.tasks && s.tasks[t].waiting && s.tasks[t].rest != [] && s.tasks[t].rest[0].In?
    case Raise(t) => Running(s, t)
    case Enter(t) => Running(s, t) && s.tasks[t].rest != [] && s.tasks[t].rest[0].In?
    case Resume(t) => t in s.tasks && exists n :: Waits(s, t, n) && LockOf(s, n).Is(t, Woken)
    case GiveUp(t) => t in s.tasks && exists n ::
      Waits(s, t, n) && (LockOf(s, n).Is(t, Cancelled) || LockOf(s, n).Is(t, WokenCancelled))
    case Exit(t) => Running(s, t) && s.tasks[t].rest != [] && s.tasks[t].rest[0].Out? && s.tasks[t].held != []
    case Finish(t) => Running(s, t) && s.tasks[t].rest == []
  }

  function Outs(k: nat): seq<Op> { seq(k, _ => Out) }

  /** An exception closes every open block and ends the program. */
  function Unwinding(task: Task): Task { Task(Outs(|task.held|), task.held, false) }

  function Put(s: State, n: Name, l: Lock, t: int, task: Task): State {
    State(s.locks[n := l], s.tasks[t := task])
  }

  ghost function Step(s: State, e: Event): State
    requires Enabled(s, e)
  {
    match e
    case Start(t, p) => s.(tasks := s.tasks[t := Task(p, [], false)])
    case Finish(t) => s.(tasks := s.tasks - {t})
    case Raise(t) => s.(tasks := s.tasks[t := Unwinding(s.tasks[t])])
    case Cancel(t) =>
      var n := s.tasks[t].rest[0].name;
      s.(locks := s.locks[n := AsyncLock.Cancel(LockOf(s, n), t)])
    case Enter(t) =>
      var task := s.tasks[t];
      var n := task.rest[0].name;
      var entered := task.(rest := task.rest[1..], held := task.held + [n]);
      if Reentrant(n) && n in task.held then s.(tasks := s.tasks[t := entered])
      else Put(s, n, Request(LockOf(s, n), t), t, if FastPath(LockOf(s, n)) then entered else task.(waiting := true))
    case Resume(t) =>
      var task := s.tasks[t];
      var n := task.rest[0].name;
      Put(s, n, Take(LockOf(s, n), t), t, Task(task.rest[1..], task.held + [n], false))
    case GiveUp(t) =>
      var n := s.tasks[t].rest[0].name;
      Put(s, n, Withdraw(LockOf(s, n), t), t, Unwinding(s.tasks[t]))
    case Exit(t) =>
      var task := s.tasks[t];
      var n := task.held[|task.held| - 1];
      var left := task.held[..|task.held| - 1];
      var task' := Task(task.rest[1..], left, false);
      if n in left then s.(tasks := s.tasks[t := task']) else Put(s, n, Release(LockOf(s, n)), t, task')
  }

  // ----- the invariant ---------------------------------------------------------------

  ghost predicate TaskOk(task: Task) {
    && Disciplined(task.rest, task.held) && After(task.rest, task.held) == []
    && (task.waiting ==> task.rest != [] && task.rest[0].In? && task.rest[0].name !in task.held)
  }

  /** Who a lock thinks holds and awaits it is who does. */
  ghost predicate Agree(s: State, n: Name, t: int) {
    && (LockOf(s, n).holder == Some(t) <==> t in s.tasks && n in s.tasks[t].held)
    && (LockOf(s, n).Queued(t) <==> Waits(s, t, n))
  }

  ghost predicate Inv(s: State) {
    && (forall n | n in s.locks :: AsyncLock.Inv(s.locks[n]))
    && (forall t | t in s.tasks :: TaskOk(s.tasks[t]))
    && (forall n, t :: Agree(s, n, t))
  }

  const START := State(map[], map[])

  lemma StartInv()
    ensures Inv(START)
  {
  }

  lemma LockIsOk(s: State, n: Name)
    requires Inv(s)
    ensures AsyncLock.Inv(LockOf(s, n))
  {
    hide Lock.Queued, Agree, TaskOk;
    assert AsyncLock.Inv(FREE);
  }

  /** One task moves, touching one lock. */
  lemma PutKeeps(s: State, n: Name, l: Lock, t: int, task: Task)
    requires Inv(s) && t in s.tasks && AsyncLock.Inv(l) && TaskOk(task)
    requires forall u | u != t ::
      (l.Queued(u) <==> LockOf(s, n).Queued(u)) && (l.holder == Some(u) <==> LockOf(s, n).holder == Some(u))
    requires l.holder == Some(t) <==> n in task.held
    requires l.Queued(t) <==> task.waiting && task.rest[0] == In(n)
    requires forall m | m != n :: m in task.held <==> m in s.tasks[t].held
    requires forall m | m != n :: !Waits(s, t, m) && (task.waiting ==> task.rest[0] != In(m))
    ensures Inv(Put(s, n, l, t, task))
  {
    hide AsyncLock.Inv, Lock.Queued, Disciplined, After;
    var s' := Put(s, n, l, t, task);
    forall m, u ensures Agree(s', m, u) {
      assert Agree(s, m, u);
    }
  }

  /** One task moves, touching none. */
  lemma MoveKeeps(s: State, t: int, task: Task)
    requires Inv(s) && TaskOk(task) && !task.waiting
    requires t in s.tasks ==> !s.tasks[t].waiting && forall m :: m in task.held <==> m in s.tasks[t].held
    requires t !in s.tasks ==> task.held == []
    ensures Inv(s.(tasks := s.tasks[t := task]))
  {
    hide AsyncLock.Inv, Lock.Queued, Disciplined, After;
    var s' := s.(tasks := s.tasks[t := task]);
    forall m, u ensures Agree(s', m, u) {
      assert Agree(s, m, u);
    }
  }

  lemma {:induction false} OutsUnwind(held: seq<Name>)
    ensures Disciplined(Outs(|held|), held) && After(Outs(|held|), held) == []
    decreases |held|
  {
    if held != [] {
      OutsUnwind(held[..|held| - 1]);
      assert Outs(|held|)[1..] == Outs(|held| - 1);
    }
  }

  lemma EnterKeeps(s: State, t: int)
    requires Inv(s) && Enabled(s, Enter(t))
    ensures Inv(Step(s, Enter(t)))
  {
    hide AsyncLock.Inv, Lock.Queued, Request, FastPath, Put;
    var task := s.tasks[t];
    var n := task.rest[0].name;
    assert TaskOk(task);
    if Reentrant(n) && n in task.held {
      MoveKeeps(s, t, task.(rest := task.rest[1..], held := task.held + [n]));
    } else {
      assert n !in task.held;
      LockIsOk(s, n);
      assert Agree(s, n, t);
      RequestKeeps(LockOf(s, n), t);
      var moved := if FastPath(LockOf(s, n)) then task.(rest := task.rest[1..], held := task.held + [n])
        else task.(waiting := true);
      PutKeeps(s, n, Request(LockOf(s, n), t), t, moved);
    }
  }

  lemma ResumeKeeps(s: State, t: int)
    requires Inv(s) && Enabled(s, Resume(t))
    ensures Inv(Step(s, Resume(t)))
  {
    hide AsyncLock.Inv, Lock.Queued, Take, Put;
    var task := s.tasks[t];
    var n := task.rest[0].name;
    assert TaskOk(task);
    LockIsOk(s, n);
    TakeKeeps(LockOf(s, n), t);
    assert forall u :: Agree(s, n, u);
    PutKeeps(s, n, Take(LockOf(s, n), t), t, Task(task.rest[1..], task.held + [n], false));
  }

  lemma CancelStepKeeps(s: State, t: int)
    requires Inv(s) && Enabled(s, Cancel(t))
    ensures Inv(Step(s, Cancel(t)))
  {
    hide AsyncLock.Inv, Lock.Queued, AsyncLock.Cancel, Disciplined, After;
    var task := s.tasks[t];
    var n := task.rest[0].name;
    assert TaskOk(task);
    LockIsOk(s, n);
    CancelKeeps(LockOf(s, n), t);
    assert Agree(s, n, t);
    assert Waits(s, t, n);
    PutKeeps(s, n, AsyncLock.Cancel(LockOf(s, n), t), t, task);
    assert s.tasks[t := task] == s.tasks;
  }

  lemma GiveUpKeeps(s: State, t: int)
    requires Inv(s) && Enabled(s, GiveUp(t))
    ensures Inv(Step(s, GiveUp(t)))
  {
    hide AsyncLock.Inv, Lock.Queued, Withdraw, Disciplined, After, Put, Outs;
    var task := s.tasks[t];
    var n := task.rest[0].name;
    assert TaskOk(task);
    LockIsOk(s, n);
    assert Agree(s, n, t);
    assert Waits(s, t, n);
    WithdrawKeeps(LockOf(s, n), t);
    OutsUnwind(task.held);
    PutKeeps(s, n, Withdraw(LockOf(s, n), t), t, Unwinding(task));
  }

  lemma ExitKeeps(s: State, t: int)
    requires Inv(s) && Enabled(s, Exit(t))
    ensures Inv(Step(s, Exit(t)))
  {
    hide AsyncLock.Inv, Lock.Queued, Release, Put;
    var task := s.tasks[t];
    var last := |task.held| - 1;
    var n := task.held[last];
    assert TaskOk(task);
    var task' := Task(task.rest[1..], task.held[..last], false);
    assert task.held == task.held[..last] + [n];
    if n in task.held[..last] {
      MoveKeeps(s, t, task');
    } else {
      LockIsOk(s, n);
      assert Agree(s, n, t);
      ReleaseKeeps(LockOf(s, n));
      PutKeeps(s, n, Release(LockOf(s, n)), t, task');
    }
  }

  lemma FinishKeeps(s: State, t: int)
    requires Inv(s) && Enabled(s, Finish(t))
    ensures Inv(Step(s, Finish(t)))
  {
    hide AsyncLock.Inv, Lock.Queued, Disciplined;
    assert TaskOk(s.tasks[t]);
    var s' := Step(s, Finish(t));
    forall m, u ensures Agree(s', m, u) {
      assert Agree(s, m, u);
    }
  }

  lemma StepKeepsInv(s: State, e: Event)
    requires Inv(s) && Enabled(s, e) && Ordered(e)
    ensures Inv(Step(s, e))
  {
    match e {
      case Start(t, p) => MoveKeeps(s, t, Task(p, [], false));
      case Cancel(t) => CancelStepKeeps(s, t);
      case Raise(t) => OutsUnwind(s.tasks[t].held); MoveKeeps(s, t, Unwinding(s.tasks[t]));
      case Enter(t) => EnterKeeps(s, t);
      case Resume(t) => ResumeKeeps(s, t);
      case GiveUp(t) => GiveUpKeeps(s, t);
      case Exit(t) => ExitKeeps(s, t);
      case Finish(t) => FinishKeeps(s, t);
    }
  }

  // ----- what a task does ---------------------------------------------------------------

  /** A task started runs its program from the beginning with nothing held, and is gone when it has finished. An
      exception, or a cancelled wait, leaves it only its open blocks to close, innermost first. */
  lemma TasksBeginAndEnd(s: State, e: Event)
    requires Inv(s) && Enabled(s, e)
    ensures var s' := Step(s, e);
      && s'.tasks - {e.task} == s.tasks - {e.task}
      && (e.Start? ==> s' == s.(tasks := s.tasks[e.task := Task(e.program, [], false)]))
      && (e.Finish? ==> s.tasks[e.task].rest == [] && s' == s.(tasks := s.tasks - {e.task}))
      && (e.Raise? || e.GiveUp? ==>
            && s'.tasks[e.task].held == s.tasks[e.task].held && !s'.tasks[e.task].waiting
            && |s'.tasks[e.task].rest| == |s.tasks[e.task].held|
            && forall i | 0 <= i < |s'.tasks[e.task].rest| :: s'.tasks[e.task].rest[i] == Out)
      && (e.Raise? ==> s'.locks == s.locks)
      && (e.Cancel? ==> s'.tasks == s.tasks)
  {
    hide AsyncLock.Inv, Lock.Queued, Disciplined, After, Agree, Request, Take, Withdraw, Release, AsyncLock.Cancel;
  }

  /** A task that enters a block has it open, or waits for its lock with everything as it was; leaving closes the
      innermost. */
  lemma BlocksOpenAndClose(s: State, e: Event)
    requires Inv(s) && Enabled(s, e) && (e.Enter? || e.Resume? || e.Exit?)
    ensures var before, after := s.tasks[e.task], Step(s, e).tasks[e.task];
      || (!e.Exit? && !after.waiting && before.rest == [In(after.held[|after.held| - 1])] + after.rest
          && after.held[..|after.held| - 1] == before.held && after.held != [])
      || (e.Enter? && after == before.(waiting := true))
      || (e.Exit? && !after.waiting && before.rest == [Out] + after.rest && |before.held| > 0
          && after.held == before.held[..|before.held| - 1])
  {
    hide AsyncLock.Inv, Lock.Queued, Disciplined, After, Agree, Request, Take, Release;
  }

  /** A task is cancelled wherever it waits, and can fail wherever it runs. */
  lemma CancelledAnywhere(s: State, t: int)
    requires Inv(s) && t in s.tasks
    ensures if s.tasks[t].waiting then Enabled(s, Cancel(t)) else Enabled(s, Raise(t))
  {
    assert TaskOk(s.tasks[t]);
  }

  // ----- no deadlock -------------------------------------------------------------------

  ghost predicate Blocked(s: State, t: int) {
    exists n :: Waits(s, t, n) && LockOf(s, n).Is(t, Pending)
  }

  /** A task that is not blocked has a step of its own to take. */
  lemma CanStep(s: State, t: int) returns (e: Event)
    requires Inv(s) && t in s.tasks && !Blocked(s, t)
    ensures Progress(e) && e.task == t && Enabled(s, e)
  {
    hide AsyncLock.Inv, Disciplined, After;
    var task := s.tasks[t];
    assert TaskOk(task);
    if task.waiting {
      var n := task.rest[0].name;
      assert Waits(s, t, n);
      assert Agree(s, n, t);
      var i :| 0 <= i < |LockOf(s, n).waiters| && LockOf(s, n).waiters[i].task == t;
      assert LockOf(s, n).Is(t, LockOf(s, n).waiters[i].state);
      e := if LockOf(s, n).waiters[i].state == Woken then Resume(t) else GiveUp(t);
    } else {
      if task.rest != [] { RestFitsHeld(task.rest, task.held); }
      e := if task.rest == [] then Finish(t) else if task.rest[0].In? then Enter(t) else Exit(t);
    }
  }

  lemma RestFitsHeld(ops: seq<Op>, held: seq<Name>)
    requires Disciplined(ops, held) && ops != []
    ensures ops[0].Out? ==> held != []
  {
  }

  /** Some task of a non-empty set waits for a lock that none of the others' locks is above. */
  lemma {:induction false} Topmost(s: State, ts: set<int>) returns (t: int, n: Name)
    requires ts != {} && forall u | u in ts :: exists m :: Waits(s, u, m)
    ensures t in ts && Waits(s, t, n)
    ensures forall u, m | u in ts && Waits(s, u, m) :: !Below(n, m)
    decreases |ts|
  {
    t := AnElement(ts);
    n :| Waits(s, t, n);
    var others := ts - {t};
    if others != {} {
      var u, m := Topmost(s, others);
      if Below(n, m) {
        t, n := u, m;
      }
    }
  }

  lemma WaitsForOneAbove(s: State, t: int, n: Name, m: Name)
    requires Inv(s) && Waits(s, t, m) && n in s.tasks[t].held
    ensures Below(n, m)
  {
    hide AsyncLock.Inv, Agree, After;
    assert TaskOk(s.tasks[t]);
  }

  /** Wherever anybody is blocked, somebody who is in a blocked task's way can take a step: the holder
      of a lock waited for, or the task that lock was left to. */
  lemma SomeBlockerCanStep(s: State, b: int) returns (t: int, n: Name, u: int)
    requires Inv(s) && Blocked(s, b)
    ensures Blocked(s, t) && Waits(s, t, n)
    ensures u in s.tasks && !Blocked(s, u) && (n in s.tasks[u].held || Waits(s, u, n))
  {
    hide AsyncLock.Inv, TaskOk, Disciplined, After;
    var ts := set x | x in s.tasks && Blocked(s, x);
    assert b in ts;
    t, n := Topmost(s, ts);
    var l := LockOf(s, n);
    LockIsOk(s, n);
    assert Agree(s, n, t);
    if l.Locked() {
      u := l.holder.value;
      assert Agree(s, n, u);
      if Blocked(s, u) {
        var m :| Waits(s, u, m) && LockOf(s, m).Is(u, Pending);
        WaitsForOneAbove(s, u, n, m);
      }
    } else {
      u := HeadIsAwake(l, t);
      assert l.Queued(u);
      assert Agree(s, n, u);
    }
  }

  lemma HeadIsAwake(l: Lock, t: int) returns (u: int)
    requires AsyncLock.Inv(l) && !l.Locked() && l.Queued(t)
    ensures l.Queued(u) && !l.Is(u, Pending)
  {
    u := l.waiters[0].task;
  }

  /** No deadlock: while any task is unfinished, some task has a step of its own to take. */
  lemma NoDeadlock(s: State) returns (e: Event)
    requires Inv(s) && s.tasks != map[]
    ensures Progress(e) && Enabled(s, e)
  {
    hide Inv, Blocked, Enabled;
    assert s.tasks.Keys != {};
    var t := AnElement(s.tasks.Keys);
    if Blocked(s, t) {
      var _, _, u := SomeBlockerCanStep(s, t);
      e := CanStep(s, u);
    } else {
      e := CanStep(s, t);
    }
  }

  // ----- and everybody finishes -----------------------------------------------------------

  /** What a task has left to do. */
  function Weight(task: Task): int { 2 * |task.rest| + if task.waiting then 1 else 2 }

  function Weights(s: State): map<int, int> { map t | t in s.tasks :: Weight(s.tasks[t]) }

  ghost function Work(s: State): int { Sum(Weights(s), s.tasks.Keys) }

  lemma WorkChange(s: State, t: int, s': State)
    requires t in s.tasks && s'.tasks - {t} == s.tasks - {t}
    requires t in s'.tasks ==> Weight(s'.tasks[t]) < Weight(s.tasks[t])
    ensures Work(s') < Work(s)
  {
    hide Sum, Weight;
    var all := s.tasks.Keys;
    WeightPositive(s.tasks[t]);
    forall u | u in all && u != t ensures At(Weights(s'), u) == At(Weights(s), u) {
      assert u in s.tasks - {t} && (s.tasks - {t})[u] == s.tasks[u];
      assert u in s'.tasks && (s'.tasks - {t})[u] == s'.tasks[u];
    }
    SumUpdate(Weights(s), Weights(s'), t, all);
    forall u | u in s'.tasks ensures u in all {
      assert u != t ==> u in s'.tasks - {t};
    }
    SumSupport(Weights(s'), all, s'.tasks.Keys);
  }

  lemma WeightPositive(task: Task)
    ensures Weight(task) > 0
  {
  }

  lemma {:induction false} HeldFitsRest(ops: seq<Op>, held: seq<Name>)
    requires Disciplined(ops, held) && After(ops, held) == []
    ensures |held| <= |ops|
  {
    if ops != [] {
      match ops[0] {
        case In(n) => HeldFitsRest(ops[1..], held + [n]);
        case Out => HeldFitsRest(ops[1..], held[..|held| - 1]);
      }
    }
  }

  /** Each step a task takes is one nearer to its end, whether it goes on or unwinds. */
  lemma ProgressIsProgress(s: State, e: Event)
    requires Inv(s) && Enabled(s, e) && Progress(e)
    ensures Work(Step(s, e)) < Work(s)
  {
    hide AsyncLock.Inv, Lock.Queued, Agree, Disciplined, After, Work, Request, Take, Withdraw, Release, FastPath;
    var t := e.task;
    var s' := Step(s, e);
    assert TaskOk(s.tasks[t]);
    HeldFitsRest(s.tasks[t].rest, s.tasks[t].held);
    if e.GiveUp? { GiveUpShortens(s.tasks[t]); }
    assert s'.tasks - {t} == s.tasks - {t};
    WorkChange(s, t, s');
  }

  lemma GiveUpShortens(task: Task)
    requires TaskOk(task) && task.waiting
    ensures |task.held| < |task.rest|
  {
    HeldFitsRest(task.rest[1..], task.held + [task.rest[0].name]);
  }

  ghost function Run(s: State, events: seq<Event>): State
    decreases |events|
  {
    if events == [] then s
    else if Enabled(s, events[0]) then Run(Step(s, events[0]), events[1..])
    else Run(s, events[1..])
  }

  lemma {:induction false} RunKeepsInv(s: State, events: seq<Event>)
    requires Inv(s) && forall e | e in events :: Ordered(e)
    ensures Inv(Run(s, events))
    decreases |events|
  {
    hide Inv, Enabled, Step, Ordered;
    if events != [] {
      assert forall e | e in events[1..] :: e in events;
      if Enabled(s, events[0]) {
        StepKeepsInv(s, events[0]);
        RunKeepsInv(Step(s, events[0]), events[1..]);
      } else {
        RunKeepsInv(s, events[1..]);
      }
    }
  }

  /** Tasks are left, and none has a step of its own. */
  ghost predicate Deadlocked(s: State) { s.tasks != map[] && forall e | Progress(e) :: !Enabled(s, e) }

  /** No run of ordered programs, with whatever cancellations and failures, comes to a deadlock. */
  lemma RunsNeverDeadlock(events: seq<Event>)
    requires forall e | e in events :: Ordered(e)
    ensures Inv(Run(START, events)) && !Deadlocked(Run(START, events))
  {
    hide Inv, Enabled, Step, Ordered, Run;
    StartInv();
    RunKeepsInv(START, events);
    if Run(START, events).tasks != map[] {
      var e := NoDeadlock(Run(START, events));
    }
  }

  /** A schedule of the tasks' own steps, each of which was possible when it was taken. */
  ghost predicate Schedule(s: State, events: seq<Event>)
    decreases |events|
  {
    events == [] || (Progress(events[0]) && Enabled(s, events[0]) && Schedule(Step(s, events[0]), events[1..]))
  }

  lemma WorkNonNegative(s: State)
    ensures Work(s) >= 0
  {
    hide Sum;
    forall t | t in s.tasks ensures 0 <= At(Weights(s), t) {
      WeightPositive(s.tasks[t]);
    }
    SumNonNegative(Weights(s), s.tasks.Keys);
  }

  /** Left to themselves tasks cannot run for ever: no schedule is longer than the work left. */
  lemma {:induction false} SchedulesEnd(s: State, events: seq<Event>)
    requires Inv(s) && Schedule(s, events)
    ensures |events| <= Work(s)
    decreases |events|
  {
    hide Inv, Enabled, Step, Work;
    if events != [] {
      ProgressIsProgress(s, events[0]);
      StepKeepsInv(s, events[0]);
      SchedulesEnd(Step(s, events[0]), events[1..]);
    } else {
      WorkNonNegative(s);
    }
  }

  /** And a schedule that can go no further has finished them all. */
  lemma {:induction false} SchedulesFinishOrGoOn(s: State, events: seq<Event>)
    requires Inv(s) && Schedule(s, events)
    ensures Run(s, events).tasks == map[] || exists e :: Schedule(s, events + [e])
    decreases |events|
  {
    hide Inv, Enabled, Step;
    if events == [] {
      if s.tasks != map[] {
        var e := NoDeadlock(s);
        ScheduleOne(s, e);
        assert events + [e] == [e];
      }
    } else {
      StepKeepsInv(s, events[0]);
      var s1 := Step(s, events[0]);
      SchedulesFinishOrGoOn(s1, events[1..]);
      if e :| Schedule(s1, events[1..] + [e]) {
        assert (events + [e])[1..] == events[1..] + [e];
        assert Schedule(s, events + [e]);
      }
    }
  }

  lemma ScheduleOne(s: State, e: Event)
    requires Progress(e) && Enabled(s, e)
    ensures Schedule(s, [e])
  {
    hide Step;
    assert [e][1..] == [];
  }
}
