/** The usage purge that takes a guard late, run against a composition change of that pool: from nothing
    held to a state in which neither can go on. */
module LockDeadlock {
  import opened AsyncLock
  import opened LockOrder
  import opened LockPrograms
  import opened Options

  // ----- one task runs alone, the other keeps its pool --------------------------------------

  function Expected(n: Name, held: seq<Name>, p: int): Lock {
    if n in held then Lock(Some(1), []) else if n == Pool(p) then Lock(Some(2), []) else FREE
  }

  /** Task 1 has `rest` to do and holds `held`; task 2 has entered pool p and is about to ask for the flush
      mutex; nobody waits. */
  ghost predicate Alone(s: State, rest: seq<Op>, held: seq<Name>, p: int, change: seq<Op>) {
    && s.tasks == map[1 := Task(rest, held, false), 2 := Task([In(Flush)] + change, [Pool(p)], false)]
    && Pool(p) !in held
    && forall n :: LockOf(s, n) == Expected(n, held, p)
  }

  lemma EnterAlone(s: State, n: Name, rest: seq<Op>, held: seq<Name>, p: int, change: seq<Op>)
    requires Alone(s, [In(n)] + rest, held, p, change) && MayEnter(n, held) && n != Pool(p)
    ensures Enabled(s, Enter(1)) && Alone(Step(s, Enter(1)), rest, held + [n], p, change)
  {
    assert ([In(n)] + rest)[1..] == rest;
    var s' := Step(s, Enter(1));
    assert LockOf(s, n) == Expected(n, held, p);
    forall m ensures LockOf(s', m) == Expected(m, held + [n], p) {
      assert LockOf(s, m) == Expected(m, held, p);
    }
  }

  lemma ExitAlone(s: State, rest: seq<Op>, held: seq<Name>, p: int, change: seq<Op>)
    requires Alone(s, [Out] + rest, held, p, change) && held != []
    ensures Enabled(s, Exit(1)) && Alone(Step(s, Exit(1)), rest, held[..|held| - 1], p, change)
  {
    assert ([Out] + rest)[1..] == rest;
    var s', left := Step(s, Exit(1)), held[..|held| - 1];
    var n := held[|held| - 1];
    assert held == left + [n];
    assert LockOf(s, n) == Expected(n, held, p);
    forall m ensures LockOf(s', m) == Expected(m, left, p) {
      assert LockOf(s, m) == Expected(m, held, p);
    }
  }

  /** An ordered stretch that keeps off the other's pool runs through. */
  lemma {:induction false} RunsAlone(s: State, stretch: seq<Op>, rest: seq<Op>, held: seq<Name>, p: int,
                                     change: seq<Op>)
      returns (events: seq<Event>)
    requires Alone(s, stretch + rest, held, p, change) && Disciplined(stretch, held) && In(Pool(p)) !in stretch
    ensures Alone(Run(s, events), rest, After(stretch, held), p, change)
    ensures forall e | e in events :: !e.Start?
    decreases |stretch|
  {
    hide Alone, Enabled, Step;
    if stretch == [] {
      assert stretch + rest == rest;
      events := [];
    } else {
      var op, later := stretch[0], stretch[1..];
      assert stretch + rest == [op] + (later + rest);
      assert stretch == [op] + later;
      var e := if op.In? then Enter(1) else Exit(1);
      var held' := if op.In? then held + [op.name] else held[..|held| - 1];
      if op.In? {
        EnterAlone(s, op.name, later + rest, held, p, change);
      } else {
        ExitAlone(s, later + rest, held, p, change);
      }
      var more := RunsAlone(Step(s, e), later, rest, held', p, change);
      events := [e] + more;
      RunStep(s, e, more);
    }
  }

  lemma RunStep(s: State, e: Event, more: seq<Event>)
    requires Enabled(s, e)
    ensures Run(s, [e] + more) == Run(Step(s, e), more)
  {
    assert ([e] + more)[1..] == more;
  }

  lemma {:induction false} RunTwice(s: State, first: seq<Event>, second: seq<Event>)
    ensures Run(s, first + second) == Run(Run(s, first), second)
    decreases |first|
  {
    hide Enabled, Step;
    if first == [] {
      assert first + second == second;
    } else {
      assert (first + second)[0] == first[0] && (first + second)[1..] == first[1..] + second;
      RunTwice(if Enabled(s, first[0]) then Step(s, first[0]) else s, first[1..], second);
    }
  }

  // ----- the purge up to its late guard ---------------------------------------------------------

  function Opens(ids: seq<int>): seq<Op> { seq(|ids|, i requires 0 <= i < |ids| => In(Pool(ids[i]))) }

  lemma {:induction false} GuardsOpen(ids: seq<int>, body: seq<Op>) returns (closing: seq<Op>)
    ensures Guards(ids, body) == Opens(ids) + body + closing
    decreases |ids|
  {
    if ids == [] {
      closing := [];
      assert Opens(ids) + body + closing == body;
    } else {
      var c := GuardsOpen(ids[1..], body);
      closing := c + [Out];
      assert Opens(ids) == [In(Pool(ids[0]))] + Opens(ids[1..]);
      assert [In(Pool(ids[0]))] + (Opens(ids[1..]) + body + c) + [Out]
        == [In(Pool(ids[0]))] + Opens(ids[1..]) + body + (c + [Out]);
    }
  }

  lemma {:induction false} GuardsSplit(ids: seq<int>, j: nat, body: seq<Op>)
    requires j <= |ids|
    ensures Guards(ids, body) == Guards(ids[..j], Guards(ids[j..], body))
    decreases j
  {
    if j == 0 {
      assert ids[..0] == [] && ids[0..] == ids;
    } else {
      GuardsSplit(ids[1..], j - 1, body);
      assert ids[1..][..j - 1] == ids[..j][1..] && ids[1..][j - 1..] == ids[j..];
    }
  }

  function UpTo(outer: seq<int>, taken: seq<int>): seq<Op> {
    Opens(outer) + ([In(Flush)] + FLUSH + DROP_BUFFERED + REFRESH) + Opens(taken)
  }

  lemma PurgeUpTo(outer: seq<int>, inner: seq<int>, j: nat) returns (rest: seq<Op>)
    requires j < |inner|
    ensures PurgeUsage(outer, inner) == UpTo(outer, inner[..j]) + ([In(Pool(inner[j]))] + rest)
  {
    hide Times, Opens, Guards;
    var settles := Times(|inner|, SETTLE);
    GuardsSplit(inner, j, settles);
    assert inner[j..][0] == inner[j];
    LateBlock(inner[j..], settles);
    var late := Guards(inner[j..][1..], settles) + [Out];
    var c := GuardsOpen(inner[..j], [In(Pool(inner[j]))] + late);
    var all := FLUSH + DROP_BUFFERED + (REFRESH + (Opens(inner[..j]) + ([In(Pool(inner[j]))] + late) + c) + REFRESH);
    assert PurgeUsage(outer, inner) == Guards(outer, Block(Flush, all)) by { PurgeIs(outer, inner); }
    var d := GuardsOpen(outer, Block(Flush, all));
    rest := late + c + REFRESH + [Out] + d;
    Shuffle(Opens(outer), FLUSH + DROP_BUFFERED, Opens(inner[..j]), In(Pool(inner[j])), late, c, d);
    assert [In(Flush)] + (FLUSH + DROP_BUFFERED) + REFRESH == [In(Flush)] + FLUSH + DROP_BUFFERED + REFRESH;
  }

  lemma PurgeIs(outer: seq<int>, inner: seq<int>)
    requires inner != []
    ensures PurgeUsage(outer, inner)
      == Guards(outer,
        Block(Flush, FLUSH + DROP_BUFFERED + (REFRESH + Guards(inner, Times(|inner|, SETTLE)) + REFRESH)))
  {
    hide Guards, Times;
  }

  lemma LateBlock(ids: seq<int>, body: seq<Op>)
    requires ids != []
    ensures Guards(ids, body) == [In(Pool(ids[0]))] + (Guards(ids[1..], body) + [Out])
  {
    assert [In(Pool(ids[0]))] + Guards(ids[1..], body) + [Out] == [In(Pool(ids[0]))] + (Guards(ids[1..], body) + [Out]);
  }

  lemma Shuffle(a: seq<Op>, b: seq<Op>, o: seq<Op>, x: Op, late: seq<Op>, c: seq<Op>, d: seq<Op>)
    ensures a + ([In(Flush)] + (b + (REFRESH + (o + ([x] + late) + c) + REFRESH)) + [Out]) + d
      == a + ([In(Flush)] + b + REFRESH) + o + ([x] + (late + c + REFRESH + [Out] + d))
  {
  }

  // ----- it keeps to the order up to there ---------------------------------------------------------

  lemma {:induction false} OpensTake(ids: seq<int>, held: seq<Name>)
    requires CanGuard(ids, held)
    ensures Disciplined(Opens(ids), held) && After(Opens(ids), held) == held + Pools(ids)
    decreases |ids|
  {
    hide CanGuard, MayEnter;
    if ids != [] {
      CanGuardNext(ids, held);
      OpensTake(ids[1..], held + [Pool(ids[0])]);
      assert Opens(ids)[1..] == Opens(ids[1..]);
      assert held + [Pool(ids[0])] + Pools(ids[1..]) == held + Pools(ids);
    } else {
      assert held + Pools(ids) == held;
    }
  }

  lemma UpToIsOrdered(outer: seq<int>, taken: seq<int>)
    requires Ascending(outer) && forall p | p in taken :: p in outer
    ensures Disciplined(UpTo(outer, taken), [])
    ensures After(UpTo(outer, taken), []) == Pools(outer) + [Flush] + Pools(taken)
  {
    hide Disciplined, After, Opens, Safe, CanGuard, Below;
    var middle := [In(Flush)] + FLUSH + DROP_BUFFERED + REFRESH;
    assert CanGuard(outer, []) by { CanGuardFirst(outer); }
    OpensTake(outer, []);
    assert [] + Pools(outer) == Pools(outer);
    MiddleIsOrdered(Pools(outer));
    Concat(Opens(outer), middle, []);
    assert CanGuard(taken, Pools(outer) + [Flush]) by { CanGuardAgain(taken, outer); }
    OpensTake(taken, Pools(outer) + [Flush]);
    Concat(Opens(outer) + middle, Opens(taken), []);
  }

  lemma CanGuardFirst(ids: seq<int>)
    requires Ascending(ids)
    ensures CanGuard(ids, [])
  {
  }

  lemma CanGuardAgain(taken: seq<int>, outer: seq<int>)
    requires forall p | p in taken :: p in outer
    ensures CanGuard(taken, Pools(outer) + [Flush])
  {
    forall p | p in taken ensures Pool(p) in Pools(outer) + [Flush] {
      var i :| 0 <= i < |outer| && outer[i] == p;
      assert Pools(outer)[i] == Pool(p);
    }
  }

  lemma MiddleIsOrdered(held: seq<Name>)
    requires forall m | m in held :: m.Pool?
    ensures var middle := [In(Flush)] + FLUSH + DROP_BUFFERED + REFRESH;
      Disciplined(middle, held) && After(middle, held) == held + [Flush]
  {
    hide Disciplined, After;
    var inside := held + [Flush];
    FlushSafe(inside);
    RefreshSafe(inside);
    FlushEnters(held);
    Concat([In(Flush)], FLUSH, held);
    Concat([In(Flush)] + FLUSH, DROP_BUFFERED, held);
    Concat([In(Flush)] + FLUSH + DROP_BUFFERED, REFRESH, held);
  }

  lemma FlushEnters(held: seq<Name>)
    requires forall m | m in held :: m.Pool?
    ensures Disciplined([In(Flush)], held) && After([In(Flush)], held) == held + [Flush]
  {
    assert [In(Flush)][1..] == [];
  }

  lemma KeepsOff(outer: seq<int>, taken: seq<int>, p: int)
    requires p !in outer && forall q | q in taken :: q in outer
    ensures In(Pool(p)) !in UpTo(outer, taken) && Pool(p) !in Pools(outer) + [Flush] + Pools(taken)
  {
  }

  // ----- the deadlock -----------------------------------------------------------------------------------

  lemma ChangeIs(p: int)
    ensures Composition(p, 1) == [In(Pool(p))] + ([In(Flush)] + (FLUSH + [Out] + [Out]))
  {
    assert Times(1, SETTLE) == SETTLE by { assert Times(0, SETTLE) == []; }
    assert [In(Pool(p))] + ([In(Flush)] + FLUSH + [Out]) + [Out]
      == [In(Pool(p))] + ([In(Flush)] + (FLUSH + [Out] + [Out]));
  }

  /** Both are started and the composition change enters its pool. */
  lemma Begins(p: int, purge: seq<Op>, change: seq<Op>)
    ensures var events := [Start(1, purge), Start(2, [In(Pool(p))] + ([In(Flush)] + change)), Enter(2)];
      Alone(Run(START, events), purge, [], p, change)
  {
    hide Disciplined, After;
    var program := [In(Pool(p))] + ([In(Flush)] + change);
    var e0, e1, e2 := Start(1, purge), Start(2, program), Enter(2);
    RunStep(START, e0, [e1, e2]);
    var s1 := Step(START, e0);
    RunStep(s1, e1, [e2]);
    var s2 := Step(s1, e1);
    assert s2 == State(map[], map[1 := Task(purge, [], false), 2 := Task(program, [], false)]);
    assert program[0] == In(Pool(p)) && program[1..] == [In(Flush)] + change;
    RunStep(s2, e2, []);
    assert [e0] + [e1, e2] == [e0, e1, e2] && [e1] + [e2] == [e1, e2] && [e2] + [] == [e2];
    var s3 := Step(s2, e2);
    assert [] + [Pool(p)] == [Pool(p)];
    assert s3.tasks == map[1 := Task(purge, [], false), 2 := Task([In(Flush)] + change, [Pool(p)], false)];
    assert Run(s3, []) == s3;
  }

  ghost predicate Stuck(s: State) { s.tasks.Keys == {1, 2} && forall e | Progress(e) :: !Enabled(s, e) }

  /** Each asks for what the other holds. */
  lemma Embrace(s: State, rest: seq<Op>, held: seq<Name>, p: int, change: seq<Op>)
    requires Alone(s, [In(Pool(p))] + rest, held, p, change) && Flush in held
    ensures Stuck(Run(s, [Enter(1), Enter(2)]))
  {
    hide Disciplined, After;
    var a, b := Task([In(Pool(p))] + rest, held, false), Task([In(Flush)] + change, [Pool(p)], false);
    assert LockOf(s, Pool(p)) == Lock(Some(2), []) && LockOf(s, Flush) == Lock(Some(1), []);
    var s1 := Step(s, Enter(1));
    assert s1.tasks == map[1 := a.(waiting := true), 2 := b];
    assert LockOf(s1, Pool(p)) == Lock(Some(2), [Waiter(1, Pending)]) && LockOf(s1, Flush) == Lock(Some(1), []);
    var stuck := Step(s1, Enter(2));
    assert LockOf(stuck, Pool(p)) == Lock(Some(2), [Waiter(1, Pending)])
      && LockOf(stuck, Flush) == Lock(Some(1), [Waiter(2, Pending)]);
    assert stuck.tasks == map[1 := a.(waiting := true), 2 := b.(waiting := true)];
    forall e | Progress(e) ensures !Enabled(stuck, e) {
      BothBlocked(stuck, p, e);
    }
    RunStep(s, Enter(1), [Enter(2)]);
    RunStep(s1, Enter(2), []);
    assert [Enter(1)] + [Enter(2)] == [Enter(1), Enter(2)] && [Enter(2)] + [] == [Enter(2)];
    assert Run(stuck, []) == stuck;
  }

  lemma BothBlocked(s: State, p: int, e: Event)
    requires s.tasks.Keys == {1, 2} && s.tasks[1].waiting && s.tasks[2].waiting
    requires Waits(s, 1, Pool(p)) && LockOf(s, Pool(p)).waiters == [Waiter(1, Pending)]
    requires Waits(s, 2, Flush) && LockOf(s, Flush).waiters == [Waiter(2, Pending)]
    requires Progress(e)
    ensures !Enabled(s, e)
  {
    hide Disciplined, After;
    assert forall n :: Waits(s, 1, n) ==> n == Pool(p);
    assert forall n :: Waits(s, 2, n) ==> n == Flush;
  }

  lemma FirstLate(outer: seq<int>, inner: seq<int>, p: int) returns (j: nat)
    requires p in inner && p !in outer
    ensures j < |inner| && inner[j] !in outer && forall q | q in inner[..j] :: q in outer
  {
    j := 0;
    while inner[j] in outer
      invariant j < |inner| && p in inner[j..]
      invariant forall q | q in inner[..j] :: q in outer
      decreases |inner| - j
    {
      assert inner[..j + 1] == inner[..j] + [inner[j]];
      assert inner[j..] == [inner[j]] + inner[j + 1..];
      j := j + 1;
    }
  }

  /** Whenever the purge resettles a pool it did not guard at the start, it can deadlock: started together
      with a composition change of the first such pool, and with nothing else, there is a run after which
      neither can ever take a step again. */
  lemma LatePurgeCanDeadlock(outer: seq<int>, inner: seq<int>, p: int) returns (q: int, events: seq<Event>)
    requires Ascending(outer) && p in inner && p !in outer
    ensures q in inner && q !in outer
    ensures |events| > 2 && events[..2] == [Start(1, PurgeUsage(outer, inner)), Start(2, Composition(q, 1))]
    ensures (forall e | e in events[2..] :: !e.Start?) && Stuck(Run(START, events))
  {
    hide Alone, Enabled, Step, PurgeUsage, Composition, Disciplined, After, UpTo, Stuck;
    var j := FirstLate(outer, inner, p);
    q := inner[j];
    var rest := PurgeUpTo(outer, inner, j);
    var stretch, change := UpTo(outer, inner[..j]), FLUSH + [Out] + [Out];
    ChangeIs(q);
    var first := [Start(1, PurgeUsage(outer, inner)), Start(2, Composition(q, 1)), Enter(2)];
    Begins(q, PurgeUsage(outer, inner), change);
    UpToIsOrdered(outer, inner[..j]);
    KeepsOff(outer, inner[..j], q);
    var second := RunsAlone(Run(START, first), stretch, [In(Pool(q))] + rest, [], q, change);
    var s := Run(Run(START, first), second);
    var held := Pools(outer) + [Flush] + Pools(inner[..j]);
    assert Flush in held;
    Embrace(s, rest, held, q, change);
    RunTwice(START, first, second);
    RunTwice(START, first + second, [Enter(1), Enter(2)]);
    events := first + second + [Enter(1), Enter(2)];
    assert events[..2] == first[..2] && events[2..] == [Enter(2)] + second + [Enter(1), Enter(2)];
  }
}
