/** Where the bounds on the per-minute limit are met: for every limit, a run that passes it by the clock, and one
    that uses it up again after every invalidation. */
module RateTight {
  import opened Options
  import opened RateBound
  import opened RateClock
  import opened RateGate
  import opened Sums
  import opened UserLocks

  /** Every check of the key reads exactly these limits. */
  predicate Reads(e: Event, k: Key, limits: Limits) {
    e.Arrive? && e.user == k.0 && e.check.group == k.1 ==> e.check.limits == limits
  }

  /** What the key's bucket of this minute holds. */
  function CountNow(c: Counts, k: Key): int {
    if HasCurrent(c, k, c.clock) then c.heap[c.buckets[k]].count else 0
  }

  /** Nobody is checking, and no lock or bucket is numbered n or more. */
  ghost predicate Quiet(s: State, n: int) {
    && RateGate.Inv(s) && s.table.spots == map[] && s.checks == map[] && s.picked == map[]
    && (forall l | l in s.table.locks :: l < n) && (forall b | b in s.counts.heap :: b < n)
  }

  /** Only task n is checking, and awaits its daily count for bucket b. */
  ghost predicate Awaiting(s: State, n: int, k: Key, b: int) {
    && RateGate.Inv(s) && s.table.spots.Keys == {n} && s.checks.Keys == {n} && s.picked == map[n := b]
    && KeyOf(s, n) == k && b in s.counts.heap && s.counts.heap[b].owner == k
    && (forall l | l in s.table.locks :: l < n + 1) && (forall x | x in s.counts.heap :: x < n + 1)
  }

  /** One more check of the key went through in this minute, begun in it. */
  ghost predicate OneMore(s: State, s': State, k: Key) {
    && s'.counts.clock == s.counts.clock && s'.counts.dropped == s.counts.dropped
    && AdmittedIn(s'.counts, k, s.counts.clock) == AdmittedIn(s.counts, k, s.counts.clock) + 1
    && LetThrough(s', k, s.counts.clock) == LetThrough(s, k, s.counts.clock) + 1
    && CountNow(s'.counts, k) == CountNow(s.counts, k) + 1
  }

  // ----- one check on its own -------------------------------------------------------------------

  lemma QuietIsFree(tb: Table)
    requires UserLocks.Inv(tb) && tb.spots == map[]
    ensures forall l | l in tb.locks :: tb.locks[l] == AsyncLock.FREE
  {
    forall l | l in tb.locks ensures tb.locks[l] == AsyncLock.FREE {
      var lock := tb.locks[l];
      assert lock.waiters == [] || lock.Queued(lock.waiters[0].task);
      forall t ensures lock.holder != Some(t) && !lock.Queued(t) {
        assert Known(tb, l, t);
      }
      assert lock.holder == None;
    }
  }

  /** Arriving, it has the section to itself. */
  lemma ArrivesAlone(tb: Table, n: int, u: int)
    requires UserLocks.Inv(tb) && tb.spots == map[] && forall l | l in tb.locks :: l < n
    ensures u in tb.userLocks ==> tb.userLocks[u] in tb.locks
    ensures var tb' := Arrived(tb, n, u, n);
      && UserLocks.Inv(tb') && tb'.spots.Keys == {n} && tb'.spots[n].user == u && tb'.spots[n].inside
      && forall l | l in tb'.locks :: l < n + 1
  {
    hide UserLocks.Inv;
    LocksThere(tb);
    QuietIsFree(tb);
    ArrivedKeeps(tb, n, u, n);
  }

  /** What entering does, by whether there is a daily count to await. */
  lemma EnterPicks(s: State, t: int, k: Key, nb: int)
    requires CountsOk(s.counts) && nb !in s.counts.heap && Placed(s, t) && KeyOf(s, t) == k
    requires s.checks[t].limits.rpm.Some? && CountNow(s.counts, k) < s.checks[t].limits.rpm.value
    ensures var c, b := Pick(s.counts, k, nb), Picked(s.counts, k, nb);
      && b in c.heap && c.heap[b].owner == k && c.heap[b].window == s.counts.clock
           && c.heap[b].count == CountNow(s.counts, k)
      && c.buckets == s.counts.buckets[k := b] && c.clock == s.counts.clock && c.dropped == s.counts.dropped
      && c.admitted == s.counts.admitted && (forall x | x in c.heap :: x in s.counts.heap || x == nb)
      && Enter(s, t, nb) == (if s.checks[t].limits.daily then s.(counts := c, picked := s.picked[t := b])
                             else Pass(s.(counts := c), t, b))
  {
    hide CountsOk, Pass, AsyncLock.Release;
    PickKeeps(s.counts, k, nb);
  }

  lemma ArriveIs(s: State, n: int, k: Key, limits: Limits) returns (s1: State)
    requires Quiet(s, n) && limits.rpm.Some? && CountNow(s.counts, k) < limits.rpm.value
    ensures var e := Arrive(n, k.0, Check(k.1, limits), n, n);
      && Enabled(s, e) && Placed(s1, n) && Step(s, e) == Enter(s1, n, n) && RateGate.Inv(Step(s, e))
    ensures s1.counts == s.counts && s1.clocked == s.clocked && s1.picked == map[]
    ensures s1.checks == map[n := Check(k.1, limits)]
    ensures UserLocks.Inv(s1.table) && s1.table.spots.Keys == {n} && KeyOf(s1, n) == k && s1.table.spots[n].inside
    ensures forall l | l in s1.table.locks :: l < n + 1
  {
    hide UserLocks.Inv, CountsOk, TaskOk, Enter, Arrived;
    var e := Arrive(n, k.0, Check(k.1, limits), n, n);
    ArrivesAlone(s.table, n, k.0);
    s1 := s.(table := Arrived(s.table, n, k.0, n), checks := s.checks[n := e.check]);
    SpotPlaced(s1, n);
    StepKeepsInv(s, e);
  }

  lemma ArrivesDaily(s: State, n: int, k: Key, limits: Limits)
    requires Quiet(s, n) && limits.rpm.Some? && limits.daily && CountNow(s.counts, k) < limits.rpm.value
    ensures var e := Arrive(n, k.0, Check(k.1, limits), n, n);
      && Enabled(s, e)
      && var s' := Step(s, e);
         var b := Picked(s.counts, k, n);
         && Awaiting(s', n, k, b) && HasCurrent(s'.counts, k, s'.counts.clock) && s'.counts.buckets[k] == b
         && s'.counts.clock == s.counts.clock && s'.counts.dropped == s.counts.dropped
         && s'.counts.admitted == s.counts.admitted && s'.clocked == s.clocked
         && CountNow(s'.counts, k) == CountNow(s.counts, k)
  {
    hide UserLocks.Inv, CountsOk, Enter, Pick, Picked, Step, TaskOk;
    var s1 := ArriveIs(s, n, k, limits);
    EnterPicks(s1, n, k, n);
  }

  /** Passing from a bucket of this minute or an earlier one. */
  lemma PassIs(s: State, n: int, k: Key, b: int)
    requires Placed(s, n) && s.table.spots.Keys == {n} && s.checks.Keys == {n} && s.picked.Keys <= {n}
    requires KeyOf(s, n) == k
    requires b in s.counts.heap && s.counts.heap[b].owner == k && k in s.counts.buckets && s.counts.buckets[k] == b
    requires RateGate.Inv(Pass(s, n, b))
    requires (forall l | l in s.table.locks :: l < n + 1) && forall x | x in s.counts.heap :: x < n + 1
    ensures var s', clock := Pass(s, n, b), s.counts.clock;
      && Quiet(s', n + 1) && s'.counts.clock == clock && s'.counts.dropped == s.counts.dropped
      && LetThrough(s', k, clock) == LetThrough(s, k, clock) + 1
      && if s.counts.heap[b].window == clock then OneMore(s, s', k) else CountNow(s'.counts, k) == 0
  {
    hide RateGate.Inv, AsyncLock.Release;
    var s' := Pass(s, n, b);
    assert s'.table.spots.Keys == {} && s'.checks.Keys == {} && s'.picked.Keys == {};
  }

  lemma AdmitsAlone(s: State, n: int, k: Key, b: int)
    requires Awaiting(s, n, k, b) && k in s.counts.buckets && s.counts.buckets[k] == b
    ensures Enabled(s, Admit(n))
    ensures var s', clock := Step(s, Admit(n)), s.counts.clock;
      && Quiet(s', n + 1) && s'.counts.clock == clock && s'.counts.dropped == s.counts.dropped
      && LetThrough(s', k, clock) == LetThrough(s, k, clock) + 1
      && if s.counts.heap[b].window == clock then OneMore(s, s', k) else CountNow(s'.counts, k) == 0
  {
    hide UserLocks.Inv, CountsOk, TaskOk, Pass, Quiet, OneMore, LetThrough, CountNow;
    StepKeepsInv(s, Admit(n));
    PickedPlaced(s, n);
    PassIs(s, n, k, b);
  }

  lemma PassesAtOnce(s: State, n: int, k: Key, limits: Limits)
    requires Quiet(s, n) && limits.rpm.Some? && !limits.daily && CountNow(s.counts, k) < limits.rpm.value
    ensures var e := Arrive(n, k.0, Check(k.1, limits), n, n);
      Enabled(s, e) && Quiet(Step(s, e), n + 1) && OneMore(s, Step(s, e), k)
  {
    hide UserLocks.Inv, CountsOk, Enter, Pick, Picked, Step, TaskOk, Pass;
    var s1 := ArriveIs(s, n, k, limits);
    EnterPicks(s1, n, k, n);
    var s2, b := s1.(counts := Pick(s.counts, k, n)), Picked(s.counts, k, n);
    PassIs(s2, n, k, b);
    assert OneMore(s2, Pass(s2, n, b), k);
    assert CountNow(s2.counts, k) == CountNow(s.counts, k);
  }

  // ----- many, one after another ---------------------------------------------------------------------

  lemma {:induction false} RunAppend(s: State, first: seq<Event>, second: seq<Event>)
    requires RateGate.Inv(s)
    ensures RateGate.Inv(Run(s, first)) && Run(s, first + second) == Run(Run(s, first), second)
    decreases |first|
  {
    hide RateGate.Inv, Enabled, Step;
    if first == [] {
      assert first + second == second;
    } else {
      assert (first + second)[0] == first[0] && (first + second)[1..] == first[1..] + second;
      if Enabled(s, first[0]) { StepKeepsInv(s, first[0]); }
      RunAppend(if Enabled(s, first[0]) then Step(s, first[0]) else s, first[1..], second);
    }
  }

  lemma RunOne(s: State, e: Event)
    requires RateGate.Inv(s) && Enabled(s, e)
    ensures RateGate.Inv(Step(s, e)) && Run(s, [e]) == Step(s, e)
  {
    hide RateGate.Inv, Enabled, Step, Run;
    RunCons(s, e, []);
    assert [e] + [] == [e];
    RunNothing(Step(s, e));
  }

  lemma OneCheck(s: State, n: int, k: Key, limits: Limits) returns (events: seq<Event>)
    requires Quiet(s, n) && limits.rpm.Some? && CountNow(s.counts, k) < limits.rpm.value
    ensures forall e | e in events :: Reads(e, k, limits)
    ensures Quiet(Run(s, events), n + 1) && OneMore(s, Run(s, events), k)
  {
    hide RateGate.Inv, Enabled, Step, Run, OneMore, CountNow, HasCurrent;
    var e := Arrive(n, k.0, Check(k.1, limits), n, n);
    if limits.daily {
      ArrivesDaily(s, n, k, limits);
      RunOne(s, e);
      var s1, b := Step(s, e), Picked(s.counts, k, n);
      DailyThenAdmit(s, s1, n, k, b);
      RunAppend(s, [e], [Admit(n)]);
      events := [e] + [Admit(n)];
    } else {
      PassesAtOnce(s, n, k, limits);
      RunOne(s, e);
      events := [e];
    }
  }

  lemma DailyThenAdmit(s: State, s1: State, n: int, k: Key, b: int)
    requires Awaiting(s1, n, k, b) && HasCurrent(s1.counts, k, s1.counts.clock) && s1.counts.buckets[k] == b
    requires s1.counts.clock == s.counts.clock && s1.counts.dropped == s.counts.dropped
    requires s1.counts.admitted == s.counts.admitted && s1.clocked == s.clocked
    requires CountNow(s1.counts, k) == CountNow(s.counts, k)
    ensures Quiet(Run(s1, [Admit(n)]), n + 1) && OneMore(s, Run(s1, [Admit(n)]), k)
  {
    hide RateGate.Inv, Enabled, Step, Run;
    AdmitsAlone(s1, n, k, b);
    RunOne(s1, Admit(n));
  }

  /** So many checks of the key, one after another, as there is room for. */
  lemma {:induction false} Checks(s: State, n: int, k: Key, limits: Limits, j: nat) returns (events: seq<Event>)
    requires Quiet(s, n) && limits.rpm.Some? && CountNow(s.counts, k) + j <= limits.rpm.value
    ensures forall e | e in events :: Reads(e, k, limits)
    ensures var s' := Run(s, events);
      && Quiet(s', n + j) && s'.counts.clock == s.counts.clock && s'.counts.dropped == s.counts.dropped
      && AdmittedIn(s'.counts, k, s.counts.clock) == AdmittedIn(s.counts, k, s.counts.clock) + j
      && LetThrough(s', k, s.counts.clock) == LetThrough(s, k, s.counts.clock) + j
    decreases j
  {
    hide RateGate.Inv, Enabled, Step, Run, CountNow, Reads, LetThrough, AdmittedIn;
    if j == 0 {
      events := [];
      RunNothing(s);
    } else {
      var first := OneCheck(s, n, k, limits);
      var rest := Checks(Run(s, first), n + 1, k, limits, j - 1);
      RunAppend(s, first, rest);
      events := first + rest;
    }
  }

  // ----- the limit passed by the clock --------------------------------------------------------------------

  /** For every limit above 0 with a daily one beside it: a check held up past the end of its minute, and then as
      many as the limit allows, are all let through in the minute after. */
  lemma LimitCanBePassedByOne(k: Key, r: nat) returns (events: seq<Event>)
    requires r > 0
    ensures forall e | e in events :: Reads(e, k, Limits(Some(r), true))
    ensures RateGate.Inv(START)
    ensures LetThrough(Run(START, events), k, 1) == Allowance(Run(START, events), k, r, 1) + 1
    ensures Allowance(Run(START, events), k, r, 1) == r
  {
    hide RateGate.Inv, Enabled, Step, Run, Reads, LetThrough;
    var limits := Limits(Some(r), true);
    var late, s := LateCheck(k, limits);
    var others := Checks(s, 1, k, limits, r);
    RunAppend(START, late, others);
    events := late + others;
    assert r * (1 + 0) == r;
  }

  lemma LateCheck(k: Key, limits: Limits) returns (events: seq<Event>, s: State)
    requires limits.rpm.Some? && limits.daily && limits.rpm.value > 0
    ensures forall e | e in events :: Reads(e, k, limits)
    ensures RateGate.Inv(START) && s == Run(START, events)
    ensures Quiet(s, 1) && s.counts.clock == 1 && s.counts.dropped == map[] && CountNow(s.counts, k) == 0
    ensures LetThrough(s, k, 1) == 1
  {
    hide RateGate.Inv, Enabled, Step, Run;
    StartInv();
    assert Quiet(START, 0);
    var e := Arrive(0, k.0, Check(k.1, limits), 0, 0);
    ArrivesDaily(START, 0, k, limits);
    RunOne(START, e);
    var s1 := Step(START, e);
    var b := Picked(START.counts, k, 0);
    MinutePasses(s1, 0, k, b);
    RunOne(s1, Tick(1));
    var s2 := Step(s1, Tick(1));
    AdmitsAlone(s2, 0, k, b);
    RunOne(s2, Admit(0));
    RunAppend(START, [e], [Tick(1)]);
    RunAppend(START, [e] + [Tick(1)], [Admit(0)]);
    events := [e] + [Tick(1)] + [Admit(0)];
    s := Step(s2, Admit(0));
  }

  lemma MinutePasses(s: State, n: int, k: Key, b: int)
    requires Awaiting(s, n, k, b)
    ensures Enabled(s, Tick(1)) && Step(s, Tick(1)) == s.(counts := s.counts.(clock := s.counts.clock + 1))
    ensures Awaiting(Step(s, Tick(1)), n, k, b)
  {
    hide RateGate.Inv;
    StepKeepsInv(s, Tick(1));
  }

  ghost predicate HoldsByTheClock(k: Key, r: nat, daily: bool)
    requires RateGate.Inv(START)
  {
    forall events, m | forall e | e in events :: Reads(e, k, Limits(Some(r), daily)) ::
      LetThrough(Run(START, events), k, m) <= Allowance(Run(START, events), k, r, m)
  }

  /** A per-minute limit holds by the clock, in every run and every minute, if and only if there is no daily limit
      beside it, or it is 0. */
  lemma LimitHoldsIff(k: Key, r: nat, daily: bool)
    ensures RateGate.Inv(START)
    ensures HoldsByTheClock(k, r, daily) <==> !daily || r == 0
  {
    hide RateGate.Inv, Run, LetThrough, Allowance;
    StartInv();
    if !daily || r == 0 {
      forall events, m | forall e | e in events :: Reads(e, k, Limits(Some(r), daily))
        ensures LetThrough(Run(START, events), k, m) <= Allowance(Run(START, events), k, r, m)
      {
        HoldsInRun(events, k, r, daily, m);
      }
    } else {
      var events := LimitCanBePassedByOne(k, r);
      assert LetThrough(Run(START, events), k, 1) > Allowance(Run(START, events), k, r, 1);
    }
  }

  lemma HoldsInRun(events: seq<Event>, k: Key, r: nat, daily: bool, m: int)
    requires (!daily || r == 0) && forall e | e in events :: Reads(e, k, Limits(Some(r), daily))
    ensures RateGate.Inv(START) && LetThrough(Run(START, events), k, m) <= Allowance(Run(START, events), k, r, m)
  {
    hide RateGate.Inv, Run, LetThrough;
    if !daily {
      PromptLimitHolds(events, k, r, m);
    } else {
      ZeroLimitHolds(events, k, m);
    }
  }

  // ----- the limit renewed by invalidation ---------------------------------------------------------------------

  lemma GroupGoes(s: State, n: int, g: int, k: Key)
    requires Quiet(s, n) && g != DEFAULT_GROUP && k.1 == g
    ensures Enabled(s, Invalidate(g))
    ensures var s' := Step(s, Invalidate(g));
      && Quiet(s', n) && s'.counts.clock == s.counts.clock && CountNow(s'.counts, k) == 0
      && AdmittedIn(s'.counts, k, s.counts.clock) == AdmittedIn(s.counts, k, s.counts.clock)
      && DroppedIn(s'.counts, g, s.counts.clock) == DroppedIn(s.counts, g, s.counts.clock) + 1
  {
    hide RateGate.Inv;
    StepKeepsInv(s, Invalidate(g));
  }

  lemma {:induction false} Rounds(k: Key, limits: Limits, times: nat) returns (events: seq<Event>)
    requires limits.rpm.Some? && limits.rpm.value >= 0 && k.1 != DEFAULT_GROUP
    ensures forall e | e in events :: Reads(e, k, limits)
    ensures RateGate.Inv(START)
    ensures var s := Run(START, events);
      && Quiet(s, limits.rpm.value * (1 + times)) && s.counts.clock == 0 && DroppedIn(s.counts, k.1, 0) == times
      && AdmittedIn(s.counts, k, 0) == limits.rpm.value * (1 + times)
    decreases times
  {
    hide RateGate.Inv, Enabled, Step, Run, Reads, LetThrough, CountNow, AdmittedIn, DroppedIn;
    var r := limits.rpm.value;
    StartInv();
    if times == 0 {
      AtStart(k);
      events := Checks(START, 0, k, limits, r);
      SameDropped(START.counts, Run(START, events).counts, k.1);
      assert r * (1 + 0) == r;
    } else {
      var before := Rounds(k, limits, times - 1);
      var s := Run(START, before);
      var n := r * (1 + (times - 1));
      GroupGoes(s, n, k.1, k);
      RunOne(s, Invalidate(k.1));
      var s1 := Step(s, Invalidate(k.1));
      var round := Checks(s1, n, k, limits, r);
      SameDropped(s1.counts, Run(s1, round).counts, k.1);
      RunAppend(START, before, [Invalidate(k.1)]);
      RunAppend(START, before + [Invalidate(k.1)], round);
      events := before + [Invalidate(k.1)] + round;
      assert Reads(Invalidate(k.1), k, limits) by { NoCheck(k, limits); }
      assert n + r == r * (1 + times) by { assert r * (1 + times) == r * times + r; }
    }
  }

  lemma AtStart(k: Key)
    requires RateGate.Inv(START)
    ensures Quiet(START, 0) && CountNow(START.counts, k) == 0 && AdmittedIn(START.counts, k, 0) == 0
    ensures DroppedIn(START.counts, k.1, 0) == 0
  {
  }

  lemma NoCheck(k: Key, limits: Limits)
    ensures Reads(Invalidate(k.1), k, limits)
  {
  }

  lemma SameDropped(c: Counts, c': Counts, g: int)
    requires c'.dropped == c.dropped && c'.clock == c.clock
    ensures forall m :: DroppedIn(c', g, m) == DroppedIn(c, g, m)
  {
  }

  /** The bound on a group's limit is met, for every limit and every number of invalidations in a minute. */
  lemma InvalidationsRenewLimit(k: Key, limits: Limits, times: nat) returns (events: seq<Event>)
    requires limits.rpm.Some? && limits.rpm.value >= 0 && k.1 != DEFAULT_GROUP
    ensures forall e | e in events :: Reads(e, k, limits)
    ensures RateGate.Inv(START) && DroppedIn(Run(START, events).counts, k.1, 0) == times
    ensures AdmittedIn(Run(START, events).counts, k, 0) == limits.rpm.value * (1 + times)
  {
    hide RateGate.Inv, Run, Reads;
    events := Rounds(k, limits, times);
  }
}
