/** The per-minute limit by the clock. An admission counts in the minute its check began; one that waits
    for its daily count past the end of that minute is let through in a later one. */
module RateClock {
  import opened Options
  import opened RateBound
  import opened RateGate
  import opened Sums
  import opened UserLocks

  /** Admissions of a key let through in a minute; among them those whose check began in it, and earlier;
      and those whose check began in it that were let through later. */
  function LetThrough(s: State, k: Key, m: int): int { At(s.clocked.through, (k, m)) }
  function OnTime(s: State, k: Key, m: int): int { At(s.clocked.onTime, (k, m)) }
  function Late(s: State, k: Key, m: int): int { At(s.clocked.late, (k, m)) }
  function Overdue(s: State, k: Key, m: int): int { At(s.clocked.overdue, (k, m)) }
  function Admitted(s: State, k: Key, m: int): int { AdmittedIn(s.counts, k, m) }

  /** The account of a key in a minute. */
  ghost predicate Accounted(s: State, k: Key, m: int) {
    && LetThrough(s, k, m) == OnTime(s, k, m) + Late(s, k, m)
    && Admitted(s, k, m) == OnTime(s, k, m) + Overdue(s, k, m)
    && 0 <= OnTime(s, k, m) && 0 <= Late(s, k, m) <= 1 && 0 <= Overdue(s, k, m)
    && (m > s.counts.clock ==> Late(s, k, m) == 0)
  }

  /** What was let through late began in some minute. */
  ghost predicate LateBegan(s: State) { forall k, m | Late(s, k, m) > 0 :: exists w :: Overdue(s, k, w) > 0 }

  /** A user has one late admission a minute at most, and after it their checks are this minute's. */
  ghost predicate ByTheClock(s: State) {
    && (forall k, m :: Accounted(s, k, m))
    && (forall j, k, m | Late(s, j, m) > 0 && Late(s, k, m) > 0 && SameUser(j, k) :: j == k)
    && (forall t, k | t in s.picked && t in s.table.spots && s.table.spots[t].user == UserOf(k)
         && Late(s, k, s.counts.clock) > 0 ::
          Current(s, t))
    && LateBegan(s)
  }

  function UserOf(k: Key): int { k.0 }
  predicate SameUser(j: Key, k: Key) { UserOf(j) == UserOf(k) }

  ghost predicate Current(s: State, t: int)
    requires t in s.picked
  {
    s.picked[t] in s.counts.heap && s.counts.heap[s.picked[t]].window == s.counts.clock
  }

  // ----- steps that let nobody through ----------------------------------------------------

  /** What a task has checked is as it was. */
  ghost predicate Unmoved(s: State, s': State, t: int)
    requires t in s'.picked && t in s'.table.spots
  {
    && t in s.picked && t in s.table.spots && s'.table.spots[t].user == s.table.spots[t].user
    && s'.picked[t] == s.picked[t] && s.picked[t] in s.counts.heap && s.picked[t] in s'.counts.heap
    && s'.counts.heap[s.picked[t]].window == s.counts.heap[s.picked[t]].window
  }

  lemma SameHistory(s: State, s': State, k: Key, m: int)
    requires s'.clocked == s.clocked && s'.counts.admitted == s.counts.admitted
    ensures LetThrough(s', k, m) == LetThrough(s, k, m) && OnTime(s', k, m) == OnTime(s, k, m)
    ensures Late(s', k, m) == Late(s, k, m)
    ensures Overdue(s', k, m) == Overdue(s, k, m) && Admitted(s', k, m) == Admitted(s, k, m)
  {
  }

  lemma SameLateBegan(s: State, s': State)
    requires LateBegan(s) && s'.clocked == s.clocked
    ensures LateBegan(s')
  {
    forall k, m | Late(s', k, m) > 0 ensures exists w :: Overdue(s', k, w) > 0 {
      assert Late(s, k, m) > 0;
      var w :| Overdue(s, k, w) > 0;
      assert Overdue(s', k, w) > 0;
    }
  }

  lemma StampedLateBegan(s: State, s': State, k: Key, window: int)
    requires LateBegan(s) && s'.clocked == Stamped(s.clocked, k, window, s.counts.clock)
    requires forall m :: 0 <= Overdue(s, k, m)
    ensures LateBegan(s')
  {
    forall j, m | Late(s', j, m) > 0 ensures exists w :: Overdue(s', j, w) > 0 {
      if j == k && window != s.counts.clock {
        assert Overdue(s', k, window) == Overdue(s, k, window) + 1;
      } else {
        assert Late(s, j, m) > 0;
        var w :| Overdue(s, j, w) > 0;
        assert Overdue(s', j, w) == Overdue(s, j, w);
      }
    }
  }

  lemma NothingLetThrough(s: State, s': State)
    requires ByTheClock(s) && s'.clocked == s.clocked && s'.counts.admitted == s.counts.admitted
    requires s'.counts.clock == s.counts.clock
    requires forall t | t in s'.picked && t in s'.table.spots :: Unmoved(s, s', t) || Current(s', t)
    ensures ByTheClock(s')
  {
    hide LetThrough, OnTime, Late, Overdue, Admitted, LateBegan;
    SameLateBegan(s, s');
    forall k, m ensures Accounted(s', k, m) && Late(s', k, m) == Late(s, k, m) {
      SameHistory(s, s', k, m);
      assert Accounted(s, k, m);
    }
    forall t, k | t in s'.picked && t in s'.table.spots && s'.table.spots[t].user == UserOf(k)
      && Late(s', k, s'.counts.clock) > 0
      ensures Current(s', t)
    {
      if Unmoved(s, s', t) { assert Current(s, t); }
    }
  }

  lemma TickByTheClock(s: State, n: nat)
    requires ByTheClock(s)
    ensures ByTheClock(s.(counts := s.counts.(clock := s.counts.clock + n)))
  {
    hide LetThrough, OnTime, Late, Overdue, Admitted, LateBegan;
    SameLateBegan(s, s.(counts := s.counts.(clock := s.counts.clock + n)));
    var s' := s.(counts := s.counts.(clock := s.counts.clock + n));
    if n == 0 {
      assert s' == s;
    } else {
      forall k, m ensures Accounted(s', k, m) && Late(s', k, m) == Late(s, k, m) {
        SameHistory(s, s', k, m);
        assert Accounted(s, k, m);
      }
      forall k ensures Late(s', k, s'.counts.clock) == 0 {
        assert Accounted(s, k, s'.counts.clock);
      }
    }
  }

  lemma QuietByTheClock(s: State, e: Event)
    requires RateGate.Inv(s) && Enabled(s, e) && ByTheClock(s)
    requires e.Evict? || e.CancelWait? || e.LeaveQueue? || e.Refuse? || e.Invalidate?
    ensures ByTheClock(Step(s, e))
  {
    hide ByTheClock, CountsOk, TaskOk, AsyncLock.Cancel, AsyncLock.Withdraw, AsyncLock.Release;
    PickedFacts(s);
    NothingLetThrough(s, Step(s, e));
  }

  // ----- letting somebody through --------------------------------------------------------------

  lemma FirstLate(s: State, t: int, k: Key)
    requires ByTheClock(s) && t in s.picked && t in s.table.spots && s.picked[t] in s.counts.heap
    requires s.counts.heap[s.picked[t]].window < s.counts.clock && s.table.spots[t].user == UserOf(k)
    ensures Late(s, k, s.counts.clock) == 0
  {
    hide LetThrough, OnTime, Late, Overdue, Admitted, LateBegan;
    assert Accounted(s, k, s.counts.clock);
    assert !Current(s, t);
  }

  /** The histories after a key's admission from a bucket of some minute. */
  lemma StampedFacts(s: State, s': State, k: Key, window: int, j: Key, m: int)
    requires s'.clocked == Stamped(s.clocked, k, window, s.counts.clock)
    requires s'.counts.admitted == Bumped(s.counts.admitted, (k, window))
    ensures LetThrough(s', j, m) == LetThrough(s, j, m) + if j == k && m == s.counts.clock then 1 else 0
    ensures Admitted(s', j, m) == Admitted(s, j, m) + if j == k && m == window then 1 else 0
    ensures window == s.counts.clock ==>
      && OnTime(s', j, m) == OnTime(s, j, m) + (if j == k && m == window then 1 else 0)
      && Late(s', j, m) == Late(s, j, m) && Overdue(s', j, m) == Overdue(s, j, m)
    ensures window != s.counts.clock ==>
      && OnTime(s', j, m) == OnTime(s, j, m)
      && Late(s', j, m) == Late(s, j, m) + (if j == k && m == s.counts.clock then 1 else 0)
      && Overdue(s', j, m) == Overdue(s, j, m) + (if j == k && m == window then 1 else 0)
  {
  }

  /** Task t passes with a bucket of its key; when that is an earlier minute's, its user has no late
      admission in this minute yet. */
  lemma PassByTheClock(s: State, t: int, b: int)
    requires UserLocks.Inv(s.table) && Placed(s, t) && s.table.spots[t].inside && ByTheClock(s)
    requires Faithful(s.counts, KeyOf(s, t), b)
    requires s.counts.heap[b].window < s.counts.clock ==>
      forall k | UserOf(k) == s.table.spots[t].user :: Late(s, k, s.counts.clock) == 0
    requires forall x | x in s.picked && x != t ::
      x in s.table.spots && s.table.spots[x].inside && s.picked[x] in s.counts.heap
    ensures ByTheClock(Pass(s, t, b))
  {
    hide LetThrough, OnTime, Late, Overdue, Admitted, UserLocks.Inv, Stamped, AsyncLock.Release, LateBegan;
    var k, window, s' := KeyOf(s, t), s.counts.heap[b].window, Pass(s, t, b);
    forall m ensures 0 <= Overdue(s, k, m) {
      assert Accounted(s, k, m);
    }
    StampedLateBegan(s, s', k, window);
    forall j, m
      ensures Accounted(s', j, m)
      ensures Late(s', j, m) > Late(s, j, m) ==> j == k && m == s.counts.clock && window < s.counts.clock
      ensures m != s.counts.clock || window == s.counts.clock || j != k ==> Late(s', j, m) == Late(s, j, m)
    {
      StampedFacts(s, s', k, window, j, m);
      assert Accounted(s, j, m);
    }
    forall i, j, m | Late(s', i, m) > 0 && Late(s', j, m) > 0 && SameUser(i, j) ensures i == j {
      assert UserOf(k) == s.table.spots[t].user;
      if m != s.counts.clock || window == s.counts.clock {
        assert Late(s, i, m) > 0 && Late(s, j, m) > 0;
      }
    }
    forall x, j | x in s'.picked && x in s'.table.spots && s'.table.spots[x].user == UserOf(j)
      && Late(s', j, s'.counts.clock) > 0
      ensures Current(s', x)
    {
      if s.table.spots[x].user == s.table.spots[t].user { OnePerUser(s.table, x, t); }
      assert j != k;
      assert Late(s, j, s.counts.clock) > 0;
      assert Current(s, x);
    }
  }

  lemma EnterByTheClock(s: State, t: int, nb: int)
    requires UserLocks.Inv(s.table) && CountsOk(s.counts) && nb !in s.counts.heap && ByTheClock(s)
    requires Placed(s, t) && s.table.spots[t].inside && t !in s.picked
    requires forall x | x in s.picked :: x in s.table.spots && s.table.spots[x].inside && s.picked[x] in s.counts.heap
    ensures ByTheClock(Enter(s, t, nb))
  {
    hide ByTheClock, UserLocks.Inv, CountsOk, Pick, Picked, Pass, AsyncLock.Release;
    var c, limits := s.counts, s.checks[t].limits;
    var c', b := Pick(c, KeyOf(s, t), nb), Picked(c, KeyOf(s, t), nb);
    PickKeeps(c, KeyOf(s, t), nb);
    PickAdmits(c, KeyOf(s, t), nb);
    var s1 := s.(counts := c');
    forall x | x in s.picked ensures s.picked[x] in c'.heap && c'.heap[s.picked[x]] == c.heap[s.picked[x]] {
      var was := s.picked[x];
      assert was in c.heap && was in c'.heap;
    }
    NothingLetThrough(s, s1);
    if limits.rpm.Some? && c'.heap[b].count >= limits.rpm.value {
      NothingLetThrough(s1, Enter(s, t, nb));
    } else if !limits.daily {
      PassByTheClock(s1, t, b);
    } else {
      NothingLetThrough(s1, Enter(s, t, nb));
    }
  }

  lemma PickAdmits(c: Counts, k: Key, nb: int)
    ensures Pick(c, k, nb).admitted == c.admitted
  {
  }

  lemma ArriveByTheClock(s: State, e: Event)
    requires RateGate.Inv(s) && Enabled(s, e) && ByTheClock(s) && e.Arrive?
    ensures ByTheClock(Step(s, e))
  {
    hide ByTheClock, Enter, UserLocks.Inv, CountsOk, TaskOk, Arrived;
    var t := e.task;
    LocksThere(s.table);
    ArrivedKeeps(s.table, t, e.user, e.newLock);
    PickedFacts(s);
    var s1 := s.(table := Arrived(s.table, t, e.user, e.newLock), checks := s.checks[t := e.check]);
    forall x | x in s.picked ensures x != t && x in s1.table.spots && s1.table.spots[x] == s.table.spots[x] {
      assert x in s.table.spots && x in s1.table.spots - {t} && (s1.table.spots - {t})[x] == s1.table.spots[x];
    }
    NothingLetThrough(s, s1);
    if s1.table.spots[t].inside {
      SpotPlaced(s1, t);
      EnterByTheClock(s1, t, e.newBucket);
    }
  }

  lemma WakeByTheClock(s: State, e: Event)
    requires RateGate.Inv(s) && Enabled(s, e) && ByTheClock(s) && e.Wake?
    ensures ByTheClock(Step(s, e))
  {
    hide ByTheClock, Enter, UserLocks.Inv, CountsOk, AsyncLock.Take;
    var t := e.task;
    WokeKeeps(s.table, t);
    assert TaskOk(s, t);
    PickedFacts(s);
    var s1 := s.(table := Woke(s.table, t));
    NothingLetThrough(s, s1);
    SpotPlaced(s1, t);
    EnterByTheClock(s1, t, e.newBucket);
  }

  lemma AdmitByTheClock(s: State, t: int)
    requires RateGate.Inv(s) && t in s.picked && ByTheClock(s)
    ensures ByTheClock(Step(s, Admit(t)))
  {
    hide ByTheClock, UserLocks.Inv, CountsOk, TaskOk, Pass;
    PickedFacts(s);
    PickedPlaced(s, t);
    var b := s.picked[t];
    if s.counts.heap[b].window < s.counts.clock {
      forall k | UserOf(k) == s.table.spots[t].user ensures Late(s, k, s.counts.clock) == 0 {
        FirstLate(s, t, k);
      }
    }
    PassByTheClock(s, t, b);
  }

  lemma StepByTheClock(s: State, e: Event)
    requires RateGate.Inv(s) && Enabled(s, e) && ByTheClock(s)
    ensures ByTheClock(Step(s, e))
  {
    hide RateGate.Inv, ByTheClock;
    match e {
      case Tick(n) => TickByTheClock(s, n);
      case Arrive(_, _, _, _, _) => ArriveByTheClock(s, e);
      case Wake(_, _) => WakeByTheClock(s, e);
      case Admit(t) => AdmitByTheClock(s, t);
      case _ => QuietByTheClock(s, e);
    }
  }

  lemma {:induction false} RunByTheClock(s: State, events: seq<Event>)
    requires RateGate.Inv(s) && ByTheClock(s)
    ensures ByTheClock(Run(s, events))
    decreases |events|
  {
    hide RateGate.Inv, Enabled, Step, ByTheClock;
    if events != [] {
      if Enabled(s, events[0]) {
        StepKeepsInv(s, events[0]);
        StepByTheClock(s, events[0]);
        RunByTheClock(Step(s, events[0]), events[1..]);
      } else {
        RunByTheClock(s, events[1..]);
      }
    }
  }

  lemma StartByTheClock()
    ensures ByTheClock(START)
  {
    forall k, m ensures Accounted(START, k, m) {
    }
  }

  // ----- the limit by the clock -------------------------------------------------------------------

  /** What a key's limit of r allows among the checks begun in a minute. */
  function Allowance(s: State, k: Key, r: int, m: int): int { r * (1 + DroppedIn(s.counts, k.1, m)) }

  /** The exact account: what is let through in a minute is what counts in it, less what of that was let
      through later, and what began earlier, which is one admission at most. */
  lemma AccountByTheClock(events: seq<Event>, k: Key, m: int)
    ensures RateGate.Inv(START)
    ensures var s := Run(START, events);
      && LetThrough(s, k, m) == Admitted(s, k, m) - Overdue(s, k, m) + Late(s, k, m)
      && Admitted(s, k, m) - Overdue(s, k, m) == OnTime(s, k, m) && 0 <= Overdue(s, k, m) && 0 <= Late(s, k, m) <= 1
  {
    hide Run, RateGate.Inv;
    StartInv();
    StartByTheClock();
    RunByTheClock(START, events);
    assert Accounted(Run(START, events), k, m);
  }

  /** By the clock a limit is passed in a minute if and only if a check begun earlier is let through in it and
      the checks begun in it that are let through in it use the limit up. It is then passed by one. */
  lemma LimitIsPassedIff(events: seq<Event>, k: Key, r: nat, m: int)
    requires forall e | e in events :: Limited(e, k, r)
    ensures RateGate.Inv(START)
    ensures var s := Run(START, events);
      && (LetThrough(s, k, m) > Allowance(s, k, r, m) <==>
          Late(s, k, m) > 0 && OnTime(s, k, m) == Allowance(s, k, r, m))
      && LetThrough(s, k, m) <= Allowance(s, k, r, m) + 1
      && (k.1 == DEFAULT_GROUP ==> Allowance(s, k, r, m) == r)
  {
    hide Run, RateGate.Inv;
    AccountByTheClock(events, k, m);
    RpmIsNeverExceeded(events, k, r, m);
    AllowanceOfDefault(events, k, r, m);
  }

  /** A limit of 0 lets nobody through. */
  lemma ZeroLimitHolds(events: seq<Event>, k: Key, m: int)
    requires forall e | e in events :: Limited(e, k, 0)
    ensures RateGate.Inv(START) && LetThrough(Run(START, events), k, m) == 0
  {
    hide Run, RateGate.Inv, LetThrough, OnTime, Late, Overdue, Admitted;
    StartInv();
    StartByTheClock();
    RunByTheClock(START, events);
    var s := Run(START, events);
    forall w ensures Overdue(s, k, w) == 0 {
      assert Accounted(s, k, w);
      NoneAdmitted(events, k, w);
    }
    assert Accounted(s, k, m);
    NoneAdmitted(events, k, m);
  }

  lemma NoneAdmitted(events: seq<Event>, k: Key, m: int)
    requires forall e | e in events :: Limited(e, k, 0)
    ensures RateGate.Inv(START) && Admitted(Run(START, events), k, m) <= 0
  {
    hide Run, RateGate.Inv;
    RpmIsNeverExceeded(events, k, 0, m);
  }

  lemma AllowanceOfDefault(events: seq<Event>, k: Key, r: nat, m: int)
    requires forall e | e in events :: Limited(e, k, r)
    ensures RateGate.Inv(START)
    ensures k.1 == DEFAULT_GROUP ==> Allowance(Run(START, events), k, r, m) == r
  {
    hide Run, RateGate.Inv, BoundOk, HasRoom;
    StartInv();
    StartKeyOk(k, r);
    RunKeyOk(START, events, k, r);
    var c := Run(START, events).counts;
    assert MadeOk(c);
    assert k.1 == DEFAULT_GROUP ==> DroppedIn(c, k.1, m) == 0;
  }

  // ----- without a daily limit --------------------------------------------------------------------------

  /** No check of the key has a daily count to await. */
  predicate Prompt(e: Event, k: Key) {
    e.Arrive? && e.user == UserOf(k) && e.check.group == k.1 ==> !e.check.limits.daily
  }

  ghost predicate PromptOk(s: State, k: Key) {
    && (forall t | t in s.table.spots && t in s.checks && KeyOf(s, t) == k :: !s.checks[t].limits.daily)
    && (forall m :: Late(s, k, m) == 0 && Overdue(s, k, m) == 0)
  }

  /** Nobody is let through late for the key, whoever else is. */
  lemma PassPrompt(s: State, t: int, b: int, k: Key)
    requires PromptOk(s, k) && Placed(s, t) && b in s.counts.heap
    requires KeyOf(s, t) == k ==> s.counts.heap[b].window == s.counts.clock
    ensures PromptOk(Pass(s, t, b), k)
  {
    hide Late, Overdue, Stamped, AsyncLock.Release;
    var s' := Pass(s, t, b);
    forall m ensures Late(s', k, m) == 0 && Overdue(s', k, m) == 0 {
      StampedLate(s, s', KeyOf(s, t), s.counts.heap[b].window, k, m);
    }
  }

  lemma StampedLate(s: State, s': State, j: Key, window: int, k: Key, m: int)
    requires s'.clocked == Stamped(s.clocked, j, window, s.counts.clock)
    requires j != k || window == s.counts.clock
    ensures Late(s', k, m) == Late(s, k, m) && Overdue(s', k, m) == Overdue(s, k, m)
  {
  }

  lemma FewerPrompt(s: State, s': State, k: Key)
    requires PromptOk(s, k) && s'.clocked == s.clocked
    requires forall t | t in s'.table.spots && t in s'.checks && KeyOf(s', t) == k ::
      !s'.checks[t].limits.daily
    ensures PromptOk(s', k)
  {
    forall m ensures Late(s', k, m) == Late(s, k, m) && Overdue(s', k, m) == Overdue(s, k, m) {
    }
  }

  lemma EnterPrompt(s: State, t: int, nb: int, k: Key)
    requires CountsOk(s.counts) && nb !in s.counts.heap && PromptOk(s, k) && Placed(s, t)
    ensures PromptOk(Enter(s, t, nb), k)
  {
    hide CountsOk, Pick, Picked, Pass, Late, Overdue, AsyncLock.Release;
    var c := s.counts;
    PickKeeps(c, KeyOf(s, t), nb);
    var s1 := s.(counts := Pick(c, KeyOf(s, t), nb));
    FewerPrompt(s, s1, k);
    if Enter(s, t, nb) == Pass(s1, t, Picked(c, KeyOf(s, t), nb)) {
      PassPrompt(s1, t, Picked(c, KeyOf(s, t), nb), k);
    } else {
      FewerPrompt(s1, Enter(s, t, nb), k);
    }
  }

  lemma StepPrompt(s: State, e: Event, k: Key)
    requires RateGate.Inv(s) && Enabled(s, e) && PromptOk(s, k) && Prompt(e, k)
    ensures PromptOk(Step(s, e), k)
  {
    hide RateGate.Inv, PromptOk;
    match e {
      case Arrive(_, _, _, _, _) => ArrivePrompt(s, e, k);
      case Wake(_, _) => WakePrompt(s, e, k);
      case Admit(t) => AdmitPrompt(s, t, k);
      case _ => QuietPrompt(s, e, k);
    }
  }

  lemma QuietPrompt(s: State, e: Event, k: Key)
    requires RateGate.Inv(s) && Enabled(s, e) && PromptOk(s, k)
    requires e.Tick? || e.Evict? || e.CancelWait? || e.LeaveQueue? || e.Refuse? || e.Invalidate?
    ensures PromptOk(Step(s, e), k)
  {
    hide CountsOk, TaskOk, AsyncLock.Cancel, AsyncLock.Withdraw, AsyncLock.Release, Late, Overdue;
    FewerPrompt(s, Step(s, e), k);
  }

  lemma ArrivePrompt(s: State, e: Event, k: Key)
    requires RateGate.Inv(s) && Enabled(s, e) && e.Arrive? && PromptOk(s, k) && Prompt(e, k)
    ensures PromptOk(Step(s, e), k)
  {
    hide UserLocks.Inv, CountsOk, TaskOk, Arrived, Enter, Late, Overdue;
    var t := e.task;
    LocksThere(s.table);
    ArrivedKeeps(s.table, t, e.user, e.newLock);
    var s1 := s.(table := Arrived(s.table, t, e.user, e.newLock), checks := s.checks[t := e.check]);
    forall x | x in s1.table.spots && x in s1.checks && KeyOf(s1, x) == k ensures !s1.checks[x].limits.daily {
      if x != t {
        assert x in s1.table.spots - {t} && (s1.table.spots - {t})[x] == s1.table.spots[x];
        assert KeyOf(s, x) == k;
      }
    }
    FewerPrompt(s, s1, k);
    if s1.table.spots[t].inside {
      SpotPlaced(s1, t);
      EnterPrompt(s1, t, e.newBucket, k);
    }
  }

  lemma WakePrompt(s: State, e: Event, k: Key)
    requires RateGate.Inv(s) && Enabled(s, e) && e.Wake? && PromptOk(s, k)
    ensures PromptOk(Step(s, e), k)
  {
    hide UserLocks.Inv, CountsOk, Enter, AsyncLock.Take, Late, Overdue;
    var t := e.task;
    WokeKeeps(s.table, t);
    assert TaskOk(s, t);
    var s1 := s.(table := Woke(s.table, t));
    forall x | x in s1.table.spots && x in s1.checks && KeyOf(s1, x) == k ensures !s1.checks[x].limits.daily {
      assert KeyOf(s, x) == k;
    }
    FewerPrompt(s, s1, k);
    SpotPlaced(s1, t);
    EnterPrompt(s1, t, e.newBucket, k);
  }

  lemma AdmitPrompt(s: State, t: int, k: Key)
    requires RateGate.Inv(s) && t in s.picked && PromptOk(s, k)
    ensures PromptOk(Step(s, Admit(t)), k)
  {
    hide UserLocks.Inv, CountsOk, Pass;
    assert TaskOk(s, t);
    PickedPlaced(s, t);
    PassPrompt(s, t, s.picked[t], k);
  }

  lemma {:induction false} RunPrompt(s: State, events: seq<Event>, k: Key)
    requires RateGate.Inv(s) && PromptOk(s, k) && forall e | e in events :: Prompt(e, k)
    ensures PromptOk(Run(s, events), k)
    decreases |events|
  {
    hide RateGate.Inv, Enabled, Step, PromptOk, Prompt;
    if events != [] {
      assert forall e | e in events[1..] :: e in events;
      if Enabled(s, events[0]) {
        StepKeepsInv(s, events[0]);
        StepPrompt(s, events[0], k);
        RunPrompt(Step(s, events[0]), events[1..], k);
      } else {
        RunPrompt(s, events[1..], k);
      }
    }
  }

  /** Where a key has no daily limit, a check that passes does so in the minute it began, and the limit holds by
      the clock. */
  lemma PromptLimitHolds(events: seq<Event>, k: Key, r: nat, m: int)
    requires forall e | e in events :: Limited(e, k, r) && Prompt(e, k)
    ensures RateGate.Inv(START)
    ensures var s := Run(START, events);
      LetThrough(s, k, m) == Admitted(s, k, m) <= Allowance(s, k, r, m)
  {
    hide Run, RateGate.Inv;
    AccountByTheClock(events, k, m);
    RpmIsNeverExceeded(events, k, r, m);
    assert PromptOk(START, k);
    RunPrompt(START, events, k);
  }
}
