/** What a settlement reads. It holds the flush mutex, flushes once, and reads the daily table before letting the
    mutex go (app/auth/pools.py settle_pool): so it sees every request completed before its flush, and no other. */
module SettlementReads {
  import opened FlushProtocol
  import opened Options
  import opened Sums
  import opened UsageBuffer

  /** From its snapshot at step i to its read at step j the task holds the mutex, its flush goes through, and it
      takes no further one. Everybody else may do what they can meanwhile. */
  ghost predicate HeldFlush(states: seq<State>, events: seq<Event>, i: nat, j: nat, task: int) {
    && IsRun(states, events) && states[0] == Start() && i < j < |states|
    && events[i] == TakeSnapshot(task)
    && (forall n | i <= n <= j :: states[n].holder == Some(task))
    && (forall n | i < n < j ::
         events[n] != TakeSnapshot(task) && events[n] != StoreFails(task) && events[n] != Abandon(task))
    && states[j].phase == Idle
  }

  /** Nobody purges the row meanwhile. */
  predicate Unpurged(events: seq<Event>, i: nat, j: nat, day: DayKey)
    requires j <= |events|
  {
    forall n | i <= n < j && events[n].Purge? :: !DayMatches(events[n].axis, day)
  }

  /** Where the flush of this snapshot stands, and what the row holds by then. */
  ghost predicate Underway(s: State, snapshot: Buffer, before: int, day: DayKey) {
    if s.phase == Taken(snapshot) && snapshot != map[] then At(s.days.stored, day) == before
    else
      && (s.phase == Idle || s.phase == Stored(snapshot))
      && At(s.days.stored, day) == before + Group(snapshot, DayOf, day)
  }

  lemma SnapshotTaken(s: State, e: Event, s': State, day: DayKey)
    requires IsStep(s, e, s') && e.TakeSnapshot?
    ensures Underway(s', s.buffer, At(s.days.stored, day), day)
  {
    hide Sum;
    if s.buffer == map[] {
      assert Fiber(s.buffer, DayOf, day) == {};
      SumNone(s.buffer);
    }
  }

  lemma UnderwayStep(s: State, e: Event, s': State, task: int, snapshot: Buffer, before: int, day: DayKey)
    requires IsStep(s, e, s') && Underway(s, snapshot, before, day) && s.holder == Some(task)
    requires e != TakeSnapshot(task) && e != StoreFails(task) && e != Abandon(task)
    requires e.Purge? ==> !DayMatches(e.axis, day)
    ensures Underway(s', snapshot, before, day)
  {
    hide Sum, Group, Collapse, Fiber;
    if e.Store? {
      CollapseAt(s.phase.snapshot, DayOf, day);
    }
  }

  lemma {:induction false} StaysUnderway(states: seq<State>, events: seq<Event>, i: nat, j: nat, task: int, n: nat,
                                         day: DayKey)
    requires HeldFlush(states, events, i, j, task) && Unpurged(events, i, j, day) && i < n <= j
    ensures Underway(states[n], states[i].buffer, At(states[i].days.stored, day), day)
    decreases n
  {
    hide IsStep, Underway;
    assert IsStep(states[n - 1], events[n - 1], states[n]);
    if n == i + 1 {
      SnapshotTaken(states[i], events[i], states[n], day);
    } else {
      StaysUnderway(states, events, i, j, task, n - 1, day);
      UnderwayStep(states[n - 1], events[n - 1], states[n], task, states[i].buffer, At(states[i].days.stored, day),
        day);
    }
  }

  /** What is read of a row is exactly what was due to it when the flush took its snapshot. */
  lemma RowIsWhatWasDue(states: seq<State>, events: seq<Event>, i: nat, j: nat, task: int, day: DayKey)
    requires HeldFlush(states, events, i, j, task) && Unpurged(events, i, j, day)
    ensures At(states[j].days.stored, day) == Due(states[i].days, day)
  {
    hide Sum, Group, IsRun;
    RunLength(states, events);
    StaysUnderway(states, events, i, j, task, j, day);
    RunKeepsInv(states, events, i);
    assert Enabled(states[i], events[i]) by { StepEnabled(states, events, i); }
  }

  lemma StepEnabled(states: seq<State>, events: seq<Event>, i: nat)
    requires IsRun(states, events) && i < |events|
    ensures Enabled(states[i], events[i])
  {
    assert IsStep(states[i], events[i], states[i + 1]);
  }

  /** A settlement that holds the flush off reads, of all rows it asks for together, exactly the requests completed
      before its flush took its snapshot and not removed, none of those completed while it settles, and twice
      only what a flush cut short before had stored. */
  lemma SettlementReadsAllCompleted(states: seq<State>, events: seq<Event>, i: nat, j: nat, task: int,
                                    asked: set<DayKey>)
    requires HeldFlush(states, events, i, j, task) && forall day | day in asked :: Unpurged(events, i, j, day)
    ensures Sum(states[j].days.stored, asked)
      == Sum(states[i].days.counted, asked) - Sum(states[i].days.removed, asked) + Sum(states[i].days.doubled, asked)
  {
    hide Sum, IsRun, Unpurged;
    var counted, removed, doubled := states[i].days.counted, states[i].days.removed, states[i].days.doubled;
    var kept := map day | day in asked :: At(counted, day) - At(removed, day);
    forall day | day in asked ensures At(states[j].days.stored, day) == At(kept, day) + At(doubled, day) {
      RowIsWhatWasDue(states, events, i, j, task, day);
    }
    SumPlus(states[j].days.stored, kept, doubled, asked);
    SumLinear(kept, 1, counted, -1, removed, asked);
  }

  /** In any state in which the mutex is free, a settlement can go through its flush, with anything or nothing
      buffered. */
  lemma SettlementGoesThrough(states: seq<State>, events: seq<Event>, task: int)
      returns (states': seq<State>, events': seq<Event>)
    requires IsRun(states, events) && states[0] == Start()
    requires states[|events|].phase == Idle && states[|events|].holder == None
    ensures states <= states' && events <= events'
    ensures HeldFlush(states', events', |events| + 1, |events'|, task)
    ensures states'[|events| + 1].buffer == states[|events|].buffer && states'[|events'|].buffer == map[]
  {
    hide Sum, Group, Collapse, IsRun, Minus, Plus;
    RunLength(states, events);
    var s := states[|events|];
    var states1, events1 := Extended(states, events, Acquire(task));
    var states2, events2 := Extended(states1, events1, TakeSnapshot(task));
    var n := |events1|;
    if s.buffer == map[] {
      states', events' := states2, events2;
    } else {
      var states3, events3 := Extended(states2, events2, Store(task));
      states', events' := Extended(states3, events3, Subtract(task));
      MinusItself(s.buffer);
      assert states'[n + 2] == states3[n + 2] && events'[n + 1] == events3[n + 1];
      assert states'[n + 1] == states2[n + 1];
    }
    assert states'[n] == states1[n] && events'[n] == events2[n];
  }
}
