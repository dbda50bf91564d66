/** When a cached daily count is served, when it is loaded again, and for how long it then counts: step by step from
    every state a run of SingleFlight can reach. */
module ServedCounts {
  import opened Options
  import opened SingleFlight
  import opened UserLocks

  /** The state after some events from the start. */
  ghost function Reached(events: seq<Event>): State {
    StartInv();
    Run(START, events)
  }

  lemma ReachedInv(events: seq<Event>)
    ensures SingleFlight.Inv(Reached(events))
  {
    hide SingleFlight.Inv, Run;
    StartInv();
    RunKeepsInv(START, events);
  }

  /** Nobody is given a count, no load begins or ends, no entry appears or changes. */
  ghost predicate Nothing(s: State, s': State) {
    && s'.answers == s.answers && s'.loads == s.loads && s'.cache.Keys <= s.cache.Keys
    && forall k | k in s'.cache :: s'.cache[k] == s.cache[k]
  }

  /** The caller is given this count, without a load of its own. */
  ghost predicate Answered(s: State, s': State, task: int, key: int, count: int) {
    && s'.answers == s.answers + {(key, count)} && s'.cache == s.cache
    && s'.loads == s.loads && task !in s'.loads && task !in s'.table.spots
  }

  /** The caller begins a load, noting the wall clock and the count it may have to fall back on. */
  ghost predicate Loading(s: State, s': State, task: int, key: int) {
    && s'.answers == s.answers && s'.cache == s.cache
    && task in s'.loads && task !in s.loads && s'.loads == s.loads[task := s'.loads[task]]
    && s'.loads[task].since == s.wall
    && s'.loads[task].last == (if key in s.cache then Some(s.cache[key].count) else None)
  }

  /** What a caller with the lock of its key's flight gets: an entry that has not expired; else, when a load of the
      flight failed since the caller came, the last count known, or 0 when there is none; else it loads. */
  ghost predicate ServedOrLoads(s: State, s': State, task: int, key: int, failedSince: bool) {
    if key in s.cache && s.cache[key].expires > s.wall then Answered(s, s', task, key, s.cache[key].count)
    else if failedSince then Answered(s, s', task, key, if key in s.cache then s.cache[key].count else 0)
    else Loading(s, s', task, key)
  }

  // ----- one step ------------------------------------------------------------------------------------

  lemma EnterServes(s: State, t: int)
    requires Sited(s, t) && t !in s.loads
    ensures var p := s.table.spots[t];
      ServedOrLoads(s, Enter(s, t), t, p.user, p.lock in s.failedAt && s.failedAt[p.lock] >= s.arrived[t])
  {
    hide AsyncLock.Release;
    assert s.loads - {t} == s.loads;
  }

  /** Failures are recorded of flights that there have been. */
  ghost predicate FailuresKnown(s: State) { s.failedAt.Keys <= s.table.locks.Keys }

  lemma NotLoadingYet(s: State, t: int)
    requires SingleFlight.Inv(s) && t !in s.table.spots
    ensures t !in s.loads
  {
    hide UserLocks.Inv, HoldersOk, ValuesOk, CallerOk;
  }

  /** Asking: an entry that has not expired is served there and then. Otherwise the caller joins the flight; with
      the lock free it is served or loads at once, else it waits. */
  lemma AskServes(s: State, t: int, k: int, nf: int)
    requires SingleFlight.Inv(s) && FailuresKnown(s) && Enabled(s, Ask(t, k, nf))
    ensures var s' := Step(s, Ask(t, k, nf));
      if k in s.cache && s.cache[k].expires > s.wall then
        Answered(s, s', t, k, s.cache[k].count) && s'.table == s.table
      else
        || Loading(s, s', t, k)
        || Nothing(s, s')
        || (Answered(s, s', t, k, if k in s.cache then s.cache[k].count else 0)
            && k in s.table.userLocks && s.table.userLocks[k] in s.failedAt
            && s.failedAt[s.table.userLocks[k]] >= s.mono)
  {
    hide UserLocks.Inv, HoldersOk, ValuesOk, CallerOk, Enter, Joined;
    NotLoadingYet(s, t);
    if !(k in s.cache && s.cache[k].expires > s.wall) {
      LocksThere(s.table);
      JoinedKeeps(s, t, k, nf);
      var s1 := Joined(s, t, k, nf);
      JoinedFacts(s, t, k, nf);
      if s1.table.spots[t].inside {
        EnterServes(s1, t);
      }
    }
  }

  lemma JoinedFacts(s: State, t: int, k: int, nf: int)
    requires SingleFlight.Inv(s) && Enabled(s, Ask(t, k, nf))
    ensures k in s.table.userLocks ==> s.table.userLocks[k] in s.table.locks
    ensures var s1 := Joined(s, t, k, nf);
      && s1 == s.(table := s1.table, arrived := s1.arrived, holders := s1.holders)
      && t in s1.table.spots && t in s1.arrived && s1.arrived[t] == s.mono
      && (k in s.table.userLocks ==> s1.table.spots[t].lock == s.table.userLocks[k])
      && (k !in s.table.userLocks ==> s1.table.spots[t].lock == nf)
      && nf !in s.table.locks
  {
    hide HoldersOk, ValuesOk, CallerOk, Arrived;
    ArrivedParts(s.table, t, k, nf);
  }

  lemma WakeServes(s: State, t: int)
    requires SingleFlight.Inv(s) && Enabled(s, Wake(t))
    ensures t in s.arrived
    ensures var p := s.table.spots[t];
      ServedOrLoads(s, Step(s, Wake(t)), t, p.user, p.lock in s.failedAt && s.failedAt[p.lock] >= s.arrived[t])
  {
    hide UserLocks.Inv, HoldersOk, ValuesOk, Enter, AsyncLock.Take;
    WokenKeeps(s, t);
    CallerSited(s, t);
    var s1 := s.(table := Woke(s.table, t));
    assert CallerOk(s, t);
    EnterServes(s1, t);
  }

  /** A load that succeeds caches what it read for TTL from when it began; one that fails changes no entry and
      answers the last count known when it began, or 0. Either way the caller is done. */
  lemma LoadEnds(s: State, t: int, c: int)
    requires SingleFlight.Inv(s) && t in s.loads
    ensures t in s.table.spots
    ensures var s', k := Step(s, LoadOk(t, c)), s.table.spots[t].user;
      && s'.cache == s.cache[k := Entry(c, s.loads[t].since + 5)] && s'.answers == s.answers + {(k, c)}
      && s'.loads == s.loads - {t} && t !in s'.table.spots
    ensures var s', k := Step(s, LoadFails(t)), s.table.spots[t].user;
      && s'.cache == s.cache && s'.loads == s.loads - {t} && t !in s'.table.spots
      && s'.answers == s.answers + {(k, match s.loads[t].last case None => 0 case Some(n) => n)}
      && s.table.spots[t].lock in s'.failedAt && s'.failedAt[s.table.spots[t].lock] == s.mono
  {
    hide UserLocks.Inv, HoldersOk, ValuesOk, CallerOk, AsyncLock.Release;
    CallerSited(s, t);
  }

  /** Nothing else answers anybody, begins a load or touches an entry but to drop it. */
  lemma OthersServeNobody(s: State, e: Event)
    requires SingleFlight.Inv(s) && Enabled(s, e)
    requires e.Clock? || e.Forget? || e.CancelWait? || e.LeaveQueue? || e.LoadCancelled?
    ensures var s' := Step(s, e);
      && s'.answers == s.answers && s'.cache.Keys <= s.cache.Keys
      && (forall k | k in s'.cache :: s'.cache[k] == s.cache[k])
      && (!e.Forget? ==> s'.cache == s.cache)
      && s'.loads == if e.LoadCancelled? then s.loads - {e.task} else s.loads
  {
    hide UserLocks.Inv, HoldersOk, ValuesOk, AsyncLock.Release, AsyncLock.Cancel, AsyncLock.Withdraw;
    match e {
      case LeaveQueue(t) =>
        CallerSited(s, t);
        assert CallerOk(s, t);
        assert s.loads - {t} == s.loads;
      case LoadCancelled(t) => CallerSited(s, t);
      case _ =>
    }
  }

  /** A caller cancelled while waiting or loading is gone once it has run; entries are forgotten as told; the clocks
      move, the wall clock either way. */
  lemma OthersGo(s: State, e: Event)
    requires SingleFlight.Inv(s) && Enabled(s, e)
    ensures var s' := Step(s, e);
      && (e.LeaveQueue? || e.LoadCancelled? ==> e.task !in s'.table.spots && e.task !in s'.loads)
      && (e.Forget? ==> s' == s.(cache := s.cache - e.keys))
      && (e.Clock? ==> s' == s.(mono := s.mono + e.ticks, wall := e.newWall))
      && (e.CancelWait? ==> s' == s.(table := s'.table) && s'.table.spots == s.table.spots)
  {
    hide UserLocks.Inv, HoldersOk, ValuesOk, AsyncLock.Release, AsyncLock.Cancel, AsyncLock.Withdraw;
    if e.LeaveQueue? || e.LoadCancelled? { CallerSited(s, e.task); }
  }

  // ----- over runs --------------------------------------------------------------------------------------

  lemma StepKnowsFailures(s: State, e: Event)
    requires SingleFlight.Inv(s) && Enabled(s, e) && FailuresKnown(s)
    ensures FailuresKnown(Step(s, e))
  {
    hide UserLocks.Inv, HoldersOk, ValuesOk, CallerOk;
    hide AsyncLock.Release, AsyncLock.Cancel, AsyncLock.Withdraw, AsyncLock.Request, AsyncLock.Take;
    match e {
      case Ask(t, k, nf) =>
        LocksThere(s.table);
        JoinedKeeps(s, t, k, nf);
      case Wake(t) => WokenKeeps(s, t);
      case LeaveQueue(t) => CallerSited(s, t);
      case LoadOk(t, _) => CallerSited(s, t);
      case LoadFails(t) => CallerSited(s, t);
      case LoadCancelled(t) => CallerSited(s, t);
      case _ =>
    }
  }

  lemma {:induction false} RunKnowsFailures(s: State, events: seq<Event>)
    requires SingleFlight.Inv(s) && FailuresKnown(s)
    ensures FailuresKnown(Run(s, events))
    decreases |events|
  {
    hide SingleFlight.Inv, Enabled, Step, FailuresKnown;
    if events != [] {
      if Enabled(s, events[0]) {
        StepKeepsInv(s, events[0]);
        StepKnowsFailures(s, events[0]);
        RunKnowsFailures(Step(s, events[0]), events[1..]);
      } else {
        RunKnowsFailures(s, events[1..]);
      }
    }
  }

  /** After any run, whatever happens next: who asks, or is woken, is served from the cache if and only if there is an
      entry that expires after the wall clock, with that very count; of callers without one, those whom a failure
      since they came is shared with get the last count known, and all others load or wait. */
  lemma ServedWhileLive(events: seq<Event>, e: Event)
    ensures SingleFlight.Inv(Reached(events))
    ensures var s := Reached(events);
      Enabled(s, e) ==>
        var s' := Step(s, e);
        match e
        case Ask(t, k, _) =>
          if k in s.cache && s.cache[k].expires > s.wall then Answered(s, s', t, k, s.cache[k].count)
          else
            || Loading(s, s', t, k)
            || Nothing(s, s')
            || (Answered(s, s', t, k, if k in s.cache then s.cache[k].count else 0)
                && k in s.table.userLocks && s.table.userLocks[k] in s.failedAt
                && s.failedAt[s.table.userLocks[k]] >= s.mono)
        case Wake(t) =>
          && t in s.arrived
          && var p := s.table.spots[t];
             ServedOrLoads(s, s', t, p.user, p.lock in s.failedAt && s.failedAt[p.lock] >= s.arrived[t])
        case LoadOk(t, c) =>
          && t in s.table.spots
          && var k := s.table.spots[t].user;
             && s'.cache == s.cache[k := Entry(c, s.loads[t].since + 5)] && s'.answers == s.answers + {(k, c)}
             && s'.loads == s.loads - {t}
        case LoadFails(t) =>
          && t in s.table.spots && s'.cache == s.cache && s'.loads == s.loads - {t}
          && var n := match s.loads[t].last case None => 0 case Some(n) => n;
             s'.answers == s.answers + {(s.table.spots[t].user, n)}
        case LoadCancelled(t) => s'.answers == s.answers && s'.cache == s.cache && s'.loads == s.loads - {t}
        case _ => Nothing(s, s')
  {
    hide SingleFlight.Inv, Step, Run, Answered, Loading;
    ReachedInv(events);
    var s := Reached(events);
    assert FailuresKnown(START);
    StartInv();
    RunKnowsFailures(START, events);
    if Enabled(s, e) {
      match e {
        case Ask(t, k, nf) => AskServes(s, t, k, nf);
        case Wake(t) => WakeServes(s, t);
        case LoadOk(t, c) => LoadEnds(s, t, c);
        case LoadFails(t) => LoadEnds(s, t, 0);
        case _ => OthersServeNobody(s, e);
      }
    }
  }

  lemma {:induction false} RunOneMore(s: State, events: seq<Event>, e: Event)
    requires SingleFlight.Inv(s)
    ensures SingleFlight.Inv(Run(s, events))
    ensures var s' := Run(s, events);
      Run(s, events + [e]) == if Enabled(s', e) then Step(s', e) else s'
    decreases |events|
  {
    hide SingleFlight.Inv, Enabled, Step;
    RunKeepsInv(s, events);
    if events == [] {
      assert [e][1..] == [];
      if Enabled(s, e) { StepKeepsInv(s, e); }
      assert events + [e] == [e];
    } else {
      assert (events + [e])[0] == events[0] && (events + [e])[1..] == events[1..] + [e];
      if Enabled(s, events[0]) {
        StepKeepsInv(s, events[0]);
        RunOneMore(Step(s, events[0]), events[1..], e);
      } else {
        RunOneMore(s, events[1..], e);
      }
    }
  }

  /** The load of step n, which began at wall clock `since`, put this entry there. */
  ghost predicate LoadedAt(events: seq<Event>, n: nat, k: int, entry: Entry)
    requires n < |events|
  {
    var s := Reached(events[..n]);
    exists t ::
      && t in s.loads && t in s.table.spots && s.table.spots[t].user == k && events[n] == LoadOk(t, entry.count)
      && entry.expires == s.loads[t].since + 5
  }

  /** Every entry there ever is was put there by a load of its key, and expires five seconds after the wall clock at
      which that load began. */
  lemma {:induction false} EntriesExpire(events: seq<Event>, k: int)
    ensures k in Reached(events).cache ==>
      exists n :: 0 <= n < |events| && LoadedAt(events, n, k, Reached(events).cache[k])
    decreases |events|
  {
    hide SingleFlight.Inv, Step, Run, Enabled, LoadedAt;
    if events == [] {
      StartInv();
      assert Reached(events) == START by { RunNothing(); }
    } else {
      var last := |events| - 1;
      var before, e := events[..last], events[last];
      assert events == before + [e];
      StartInv();
      RunOneMore(START, before, e);
      EntriesExpire(before, k);
      ServedWhileLive(before, e);
      var s, s' := Reached(before), Reached(events);
      if k in s'.cache {
        if k in s.cache && s'.cache[k] == s.cache[k] {
          var n :| 0 <= n < last && LoadedAt(before, n, k, s.cache[k]);
          StillLoadedAt(before, e, n, k, s.cache[k]);
        } else {
          assert e.LoadOk? && Enabled(s, e);
          JustLoaded(before, e, k, s'.cache[k]);
        }
      }
    }
  }

  lemma RunNothing()
    ensures Reached([]) == START
  {
  }

  lemma StillLoadedAt(before: seq<Event>, e: Event, n: nat, k: int, entry: Entry)
    requires n < |before| && LoadedAt(before, n, k, entry)
    ensures LoadedAt(before + [e], n, k, entry)
  {
    hide Run, SingleFlight.Inv;
    assert (before + [e])[..n] == before[..n];
  }

  lemma JustLoaded(before: seq<Event>, e: Event, k: int, entry: Entry)
    requires e.LoadOk? && Enabled(Reached(before), e) && SingleFlight.Inv(Reached(before))
    requires e.task in Reached(before).table.spots && Reached(before).table.spots[e.task].user == k
    requires entry == Entry(e.count, Reached(before).loads[e.task].since + 5)
    ensures LoadedAt(before + [e], |before|, k, entry)
  {
    hide Run, SingleFlight.Inv;
    assert (before + [e])[..|before|] == before;
  }
}
