/** The flush protocol of app/request_tracker.py as a step system. Each stretch of code between two
    awaits is one step; any task may take the next one. Counts live in the buffer, in the daily and
    hourly tables, and, between the commit of a flush and its subtraction, in both. */
module FlushProtocol {
  import opened Options
  import opened Sums
  import opened UsageBuffer

  /** Where the holder of the flush mutex is in its flush. */
  datatype Phase = Idle | Taken(snapshot: Buffer) | Stored(snapshot: Buffer)

  /** One usage table, with the history it is checked against: requests counted, requests whose rows or
      buffered counts an administrator removed, and counts committed by flushes that were cancelled
      before they could subtract them, which the next flush therefore commits again. */
  datatype Account<!K> = Account(stored: map<K, int>, counted: map<K, int>, removed: map<K, int>, doubled: map<K, int>)

  /** What an account owes a row: requests counted and not removed, and those still there twice. */
  function Due<K>(a: Account<K>, g: K): int { At(a.counted, g) - At(a.removed, g) + At(a.doubled, g) }

  datatype State = State(
    active: map<string, ActiveRequest>,
    buffer: Buffer,
    phase: Phase,
    holder: Option<int>,
    days: Account<DayKey>,
    hours: Account<HourKey>)

  datatype Event =
    | Begin(id: string, request: ActiveRequest)
    | Identify(id: string, identity: string, userType: string, userId: Option<int>)
    | End(id: string, status: Status, date: int, hour: int, poolId: int)
    | Acquire(task: int)
    | Release(task: int)
    | TakeSnapshot(task: int)
    | Store(task: int)
    | StoreFails(task: int)
    | Subtract(task: int)
    | Abandon(task: int)      // cancelled while writing, or after the commit and before subtracting
    | Rename(task: int, user: int, name: string)
    | Drop(task: int, axis: Axis)
    | Forget(task: int, user: int)
    | Purge(axis: Axis)

  /** Steps that need the flush mutex are its holder's, between the flushes that holder runs. */
  predicate Enabled(s: State, e: Event) {
    match e
    case Begin(_, _) => true
    case Identify(_, _, _, _) => true
    case End(_, _, _, _, _) => true
    case Purge(_) => true
    case Acquire(t) => s.holder == None
    case Release(t) => s.holder == Some(t) && s.phase == Idle
    case TakeSnapshot(t) => s.holder == Some(t) && s.phase == Idle
    case Store(t) => s.holder == Some(t) && s.phase.Taken?
    case StoreFails(t) => s.holder == Some(t) && s.phase.Taken?
    case Subtract(t) => s.holder == Some(t) && s.phase.Stored?
    case Abandon(t) => s.holder == Some(t) && s.phase != Idle
    case Rename(t, _, _) => s.holder == Some(t) && s.phase == Idle
    case Drop(t, _) => s.holder == Some(t) && s.phase == Idle
    case Forget(t, _) => s.holder == Some(t) && s.phase == Idle
  }

  // ----- the effect on one table's account ---------------------------------------

  ghost function OnAxisBuffer(b: Buffer, axis: Axis): Buffer {
    map k | k in b && Matches(axis, k) :: b[k]
  }

  ghost function AccountStep<G(!new)>(a: Account<G>, f: UsageKey -> G, m: (Axis, G) -> bool, s: State,
                               e: Event): Account<G>
    requires Enabled(s, e)
  {
    match e
    case End(id, status, date, hour, pool) =>
      if id in s.active && IsCounted(s.active[id], status) then
        var g := f(KeyFor(s.active[id], date, hour, pool));
        a.(counted := a.counted[g := At(a.counted, g) + 1])
      else a
    case Store(_) => a.(stored := Plus(a.stored, Collapse(s.phase.snapshot, f)))
    case Abandon(_) => if s.phase.Stored? then a.(doubled := Plus(a.doubled, Collapse(s.phase.snapshot, f))) else a
    case Drop(_, axis) => a.(removed := Plus(a.removed, Collapse(OnAxisBuffer(s.buffer, axis), f)))
    case Forget(_, u) => a.(removed := Plus(a.removed, Collapse(OnAxisBuffer(s.buffer, ByUser(u)), f)))
    case Purge(axis) =>
      a.(stored := Only(a.stored, g => !m(axis, g)), removed := Plus(a.removed, Only(a.stored, g => m(axis, g))))
    case _ => a
  }

  ghost predicate IsStep(s: State, e: Event, s': State) {
    && Enabled(s, e)
    && s'.days == AccountStep(s.days, DayOf, DayMatches, s, e)
    && s'.hours == AccountStep(s.hours, HourOf, HourMatches, s, e)
    && match e
       case Begin(id, r) =>
         s' == s.(active := s.active[id := r])
       case Identify(id, identity, userType, userId) =>
         s' == s.(active :=
           if id !in s.active then s.active
           else s.active[id := s.active[id].(identity := identity, userType := userType, userId := userId)])
       case End(id, status, date, hour, pool) =>
         var counts := id in s.active && IsCounted(s.active[id], status);
         s' == s.(active := s.active - {id},
                  buffer := if counts then Bump(s.buffer, KeyFor(s.active[id], date, hour, pool)) else s.buffer,
                  days := s'.days, hours := s'.hours)
       case Acquire(t) => s' == s.(holder := Some(t))
       case Release(t) => s' == s.(holder := None)
       case TakeSnapshot(t) => s' == s.(phase := if s.buffer == map[] then Idle else Taken(s.buffer))
       case Store(t) => s' == s.(phase := Stored(s.phase.snapshot), days := s'.days, hours := s'.hours)
       case StoreFails(t) => s' == s.(phase := Idle)
       case Abandon(t) => s' == s.(phase := Idle, days := s'.days, hours := s'.hours)
       case Subtract(t) => s' == s.(buffer := Minus(s.buffer, s.phase.snapshot), phase := Idle)
       case Rename(t, u, name) =>
         && IsRelabelled(s.buffer, s'.buffer, u, name) && Positive(s'.buffer)
         && s' == s.(active := map id | id in s.active :: RenameRequest(s.active[id], u, name), buffer := s'.buffer)
       case Drop(t, axis) => s' == s.(buffer := Dropped(s.buffer, axis), days := s'.days, hours := s'.hours)
       case Forget(t, u) =>
         s' == s.(active := map id | id in s.active :: ForgetRequest(s.active[id], u),
                  buffer := Dropped(s.buffer, ByUser(u)), days := s'.days, hours := s'.hours)
       case Purge(axis) => s' == s.(days := s'.days, hours := s'.hours)
  }

  // ----- the invariant ------------------------------------------------------------

  /** What has been committed but not yet taken out of the buffer. */
  ghost function Written<G>(p: Phase, f: UsageKey -> G, g: G): int {
    if p.Stored? then Group(p.snapshot, f, g) else 0
  }

  /** Buffered plus stored, less what the flush in flight has in both, is what is due. */
  ghost predicate Balanced<G(!new)>(s: State, a: Account<G>, f: UsageKey -> G) {
    forall g :: Group(s.buffer, f, g) + At(a.stored, g) - Written(s.phase, f, g) == Due(a, g)
  }

  /** The snapshot in flight is nowhere above the buffer, so subtracting it discards no count. */
  ghost predicate SnapshotFits(s: State) {
    s.phase != Idle ==>
      && s.holder.Some?
      && s.phase.snapshot != map[] && Positive(s.phase.snapshot)
      && forall k | k in s.phase.snapshot :: s.phase.snapshot[k] <= At(s.buffer, k)
  }

  ghost predicate Inv(s: State) {
    && Positive(s.buffer) && SnapshotFits(s)
    && Balanced(s, s.days, DayOf) && Balanced(s, s.hours, HourOf)
    && RowsOk(s.days) && RowsOk(s.hours)
  }

  ghost predicate RowsOk<G(!new)>(a: Account<G>) {
    forall g :: At(a.stored, g) >= 0 && At(a.doubled, g) >= 0
  }

  function Start(): State {
    State(map[], map[], Idle, None, Account(map[], map[], map[], map[]), Account(map[], map[], map[], map[]))
  }

  // ----- each step keeps it ----------------------------------------------------------

  lemma OnAxisGroup<G(!new)>(b: Buffer, axis: Axis, f: UsageKey -> G, g: G, on: bool)
    requires forall k | f(k) == g :: Matches(axis, k) <==> on
    ensures Group(OnAxisBuffer(b, axis), f, g) == if on then Group(b, f, g) else 0
  {
    hide Sum;
    var b' := OnAxisBuffer(b, axis);
    if on {
      assert Fiber(b', f, g) == Fiber(b, f, g);
      SumSame(b, b', Fiber(b, f, g));
    } else {
      assert Fiber(b', f, g) == {};
      SumNone(b');
    }
  }

  lemma BumpGroup<G>(b: Buffer, k: UsageKey, f: UsageKey -> G, g: G)
    ensures Group(Bump(b, k), f, g) == Group(b, f, g) + if f(k) == g then 1 else 0
  {
    hide Sum;
    GroupBump(b, f, g, k, 1);
  }

  /** How a projection that drops labels sees each step. */
  ghost predicate Unlabelled<G(!new)>(f: UsageKey -> G, m: (Axis, G) -> bool) {
    && (forall k, u, name :: f(Relabel(k, u, name)) == f(k))
    && (forall axis, k :: Matches(axis, k) <==> m(axis, f(k)))
  }

  lemma ProjectionsAreUnlabelled()
    ensures Unlabelled(DayOf, DayMatches) && Unlabelled(HourOf, HourMatches)
  {
  }

  lemma BalanceKept<G(!new)>(s: State, e: Event, s': State, a: Account<G>, f: UsageKey -> G, m: (Axis, G) -> bool, g: G)
    requires IsStep(s, e, s') && SnapshotFits(s) && Balanced(s, a, f) && Unlabelled(f, m)
    ensures var a' := AccountStep(a, f, m, s, e);
      Group(s'.buffer, f, g) + At(a'.stored, g) - Written(s'.phase, f, g) == Due(a', g)
  {
    hide Sum, Group, Minus, Dropped, Collapse, OnAxisBuffer, Bump, IsRelabelled;
    match e {
      case End(id, status, date, hour, pool) => EndBalance(s, e, s', a, f, m, g);
      case Purge(axis) => PurgeBalance(s, e, s', a, f, m, g);
      case Store(t) => CollapseAt(s.phase.snapshot, f, g);
      case Abandon(t) => CollapseAt(s.phase.snapshot, f, g);
      case Subtract(t) => MinusGroup(s.buffer, s.phase.snapshot, f, g);
      case Rename(t, u, name) => RelabelledGroup(s.buffer, s'.buffer, u, name, f, g);
      case Drop(t, axis) => DropBalance(s, axis, f, m, g);
      case Forget(t, u) => DropBalance(s, ByUser(u), f, m, g);
      case _ =>
    }
  }

  lemma EndBalance<G(!new)>(s: State, e: Event, s': State, a: Account<G>, f: UsageKey -> G, m: (Axis, G) -> bool, g: G)
    requires e.End? && IsStep(s, e, s') && Balanced(s, a, f)
    ensures var a' := AccountStep(a, f, m, s, e);
      Group(s'.buffer, f, g) + At(a'.stored, g) - Written(s'.phase, f, g) == Due(a', g)
  {
    hide Sum, Group, Collapse, OnAxisBuffer, Bump;
    if e.id in s.active && IsCounted(s.active[e.id], e.status) {
      BumpGroup(s.buffer, KeyFor(s.active[e.id], e.date, e.hour, e.poolId), f, g);
    }
  }

  lemma PurgeBalance<G(!new)>(s: State, e: Event, s': State, a: Account<G>, f: UsageKey -> G, m: (Axis, G) -> bool,
                       g: G)
    requires e.Purge? && IsStep(s, e, s') && Balanced(s, a, f)
    ensures var a' := AccountStep(a, f, m, s, e);
      Group(s'.buffer, f, g) + At(a'.stored, g) - Written(s'.phase, f, g) == Due(a', g)
  {
    hide Sum, Group, Collapse, OnAxisBuffer;
  }

  lemma DropBalance<G(!new)>(s: State, axis: Axis, f: UsageKey -> G, m: (Axis, G) -> bool, g: G)
    requires Unlabelled(f, m)
    ensures Group(Dropped(s.buffer, axis), f, g) + At(Collapse(OnAxisBuffer(s.buffer, axis), f), g)
      == Group(s.buffer, f, g)
  {
    hide Sum, Group, Dropped, OnAxisBuffer, Collapse;
    CollapseAt(OnAxisBuffer(s.buffer, axis), f, g);
    DroppedGroup(s.buffer, axis, f, g, m(axis, g));
    OnAxisGroup(s.buffer, axis, f, g, m(axis, g));
  }

  lemma RowsKept<G(!new)>(s: State, e: Event, a: Account<G>, f: UsageKey -> G, m: (Axis, G) -> bool)
    requires Enabled(s, e) && SnapshotFits(s) && RowsOk(a)
    ensures RowsOk(AccountStep(a, f, m, s, e))
  {
    hide Sum, Group, Collapse;
    var a' := AccountStep(a, f, m, s, e);
    forall g ensures At(a'.stored, g) >= 0 && At(a'.doubled, g) >= 0 {
      assert At(a.stored, g) >= 0 && At(a.doubled, g) >= 0;
      if e.Store? || (e.Abandon? && s.phase.Stored?) {
        CollapseAt(s.phase.snapshot, f, g);
        GroupNonNegative(s.phase.snapshot, f, g);
      }
    }
  }

  lemma SnapshotStillFits(s: State, e: Event, s': State)
    requires Positive(s.buffer) && SnapshotFits(s) && IsStep(s, e, s')
    ensures Positive(s'.buffer) && SnapshotFits(s')
  {
    hide AccountStep, IsRelabelled, KeyFor;
  }

  lemma StaysBalanced<G(!new)>(s: State, e: Event, s': State, a: Account<G>, f: UsageKey -> G, m: (Axis, G) -> bool)
    requires IsStep(s, e, s') && SnapshotFits(s) && Balanced(s, a, f) && Unlabelled(f, m)
    ensures Balanced(s', AccountStep(a, f, m, s, e), f)
  {
    assert Enabled(s, e);
    hide IsStep, AccountStep, Group, Written, Due;
    forall g
      ensures var a' := AccountStep(a, f, m, s, e);
        Group(s'.buffer, f, g) + At(a'.stored, g) - Written(s'.phase, f, g) == Due(a', g)
    {
      BalanceKept(s, e, s', a, f, m, g);
    }
  }

  lemma {:induction false} StepKeepsInv(s: State, e: Event, s': State)
    requires Inv(s) && IsStep(s, e, s')
    ensures Inv(s')
  {
    hide AccountStep, Balanced, SnapshotFits, RowsOk, Unlabelled;
    ProjectionsAreUnlabelled();
    SnapshotStillFits(s, e, s');
    RowsKept(s, e, s.days, DayOf, DayMatches);
    RowsKept(s, e, s.hours, HourOf, HourMatches);
    StaysBalanced(s, e, s', s.days, DayOf, DayMatches);
    StaysBalanced(s, e, s', s.hours, HourOf, HourMatches);
  }

  // ----- runs ---------------------------------------------------------------------------

  ghost predicate IsRun(states: seq<State>, events: seq<Event>) {
    && |states| == |events| + 1
    && forall i | 0 <= i < |events| :: IsStep(states[i], events[i], states[i + 1])
  }

  lemma StartInv()
    ensures Inv(Start())
  {
    forall g ensures Group(Start().buffer, DayOf, g) == 0 {
      SumNone<UsageKey>(map[]);
      assert Fiber(Start().buffer, DayOf, g) == {};
    }
    forall g ensures Group(Start().buffer, HourOf, g) == 0 {
      SumNone<UsageKey>(map[]);
      assert Fiber(Start().buffer, HourOf, g) == {};
    }
  }

  lemma {:induction false} RunKeepsInv(states: seq<State>, events: seq<Event>, i: nat)
    requires IsRun(states, events) && states[0] == Start() && i < |states|
    ensures Inv(states[i])
  {
    hide Inv, IsStep;
    if i == 0 {
      StartInv();
    } else {
      RunKeepsInv(states, events, i - 1);
      StepKeepsInv(states[i - 1], events[i - 1], states[i]);
    }
  }

  // ----- conservation -----------------------------------------------------------------------

  /** The flush in flight is cancelled after its commit. */
  predicate CutShort(s: State, e: Event) { e.Abandon? && s.phase.Stored? }

  /** What the flushes cut short before step i had committed for a row. */
  ghost function CutShortTotal<G(!new)>(states: seq<State>, events: seq<Event>, i: nat, f: UsageKey -> G, g: G): int
    requires |states| == |events| + 1 && i < |states|
  {
    if i == 0 then 0
    else CutShortTotal(states, events, i - 1, f, g)
         + if CutShort(states[i - 1], events[i - 1]) then Group(states[i - 1].phase.snapshot, f, g) else 0
  }

  lemma DoubledStep(s: State, e: Event, s': State, day: DayKey, hour: HourKey)
    requires IsStep(s, e, s')
    ensures At(s'.days.doubled, day)
      == At(s.days.doubled, day) + if CutShort(s, e) then Group(s.phase.snapshot, DayOf, day) else 0
    ensures At(s'.hours.doubled, hour)
      == At(s.hours.doubled, hour) + if CutShort(s, e) then Group(s.phase.snapshot, HourOf, hour) else 0
  {
    hide Sum, Group, Collapse;
    if CutShort(s, e) {
      CollapseAt(s.phase.snapshot, DayOf, day);
      CollapseAt(s.phase.snapshot, HourOf, hour);
    }
  }

  lemma {:induction false} DoubledIsCutShort(states: seq<State>, events: seq<Event>, i: nat, day: DayKey, hour: HourKey)
    requires IsRun(states, events) && states[0] == Start() && i < |states|
    ensures At(states[i].days.doubled, day) == CutShortTotal(states, events, i, DayOf, day)
    ensures At(states[i].hours.doubled, hour) == CutShortTotal(states, events, i, HourOf, hour)
  {
    hide IsStep, Group;
    if i > 0 {
      DoubledIsCutShort(states, events, i - 1, day, hour);
      DoubledStep(states[i - 1], events[i - 1], states[i], day, hour);
    }
  }

  /** For every row of either table, under every interleaving with flushes cancelled anywhere: what is
      buffered for it and what it holds, less a flush written but not yet subtracted, is every request
      counted for it and not removed, plus exactly what flushes cut short had committed. And the flush in
      flight takes nothing off the buffer that is not there. */
  lemma EveryCountIsAccountedFor(states: seq<State>, events: seq<Event>, i: nat, day: DayKey, hour: HourKey,
                                 k: UsageKey)
    requires IsRun(states, events) && states[0] == Start() && i < |states|
    ensures var s := states[i];
      && Group(s.buffer, DayOf, day) + At(s.days.stored, day) - Written(s.phase, DayOf, day)
         == At(s.days.counted, day) - At(s.days.removed, day) + CutShortTotal(states, events, i, DayOf, day)
      && Group(s.buffer, HourOf, hour) + At(s.hours.stored, hour) - Written(s.phase, HourOf, hour)
         == At(s.hours.counted, hour) - At(s.hours.removed, hour) + CutShortTotal(states, events, i, HourOf, hour)
      && (s.phase.Stored? ==> At(Minus(s.buffer, s.phase.snapshot), k) == At(s.buffer, k) - At(s.phase.snapshot, k))
  {
    hide Group, IsRun, Minus, CutShortTotal;
    RunKeepsInv(states, events, i);
    DoubledIsCutShort(states, events, i, day, hour);
    if states[i].phase.Stored? {
      MinusAt(states[i].buffer, states[i].phase.snapshot, k);
    }
  }

  /** Every request is in one place: buffered or stored, once. */
  ghost predicate Conserved(s: State) {
    forall day ::
      Group(s.buffer, DayOf, day) + At(s.days.stored, day) - Written(s.phase, DayOf, day)
        == At(s.days.counted, day) - At(s.days.removed, day)
  }

  /** Usage is conserved if and only if no flush so far was cut short between its commit and its
      subtraction. */
  lemma ConservedIff(states: seq<State>, events: seq<Event>, i: nat)
    requires IsRun(states, events) && states[0] == Start() && i < |states|
    ensures Conserved(states[i]) <==> forall n | 0 <= n < i :: !CutShort(states[n], events[n])
  {
    hide Group, IsRun, Inv, CutShortTotal;
    RunLength(states, events);
    RunKeepsInv(states, events, i);
    InvBalanced(states[i]);
    if forall n | 0 <= n < i :: !CutShort(states[n], events[n]) {
      forall day ensures At(states[i].days.doubled, day) == 0 {
        DoubledIsCutShort(states, events, i, day, HourKey(0, 0, 0, "", "", 0));
        NothingCutShort(states, events, i, day);
      }
    } else {
      var n :| 0 <= n < i && CutShort(states[n], events[n]);
      var day := SomethingDoubled(states, events, n, i);
      assert Due(states[i].days, day) != At(states[i].days.counted, day) - At(states[i].days.removed, day);
    }
  }

  lemma InvBalanced(s: State)
    requires Inv(s)
    ensures Balanced(s, s.days, DayOf)
  {
  }

  lemma {:induction false} NothingCutShort(states: seq<State>, events: seq<Event>, i: nat, day: DayKey)
    requires |states| == |events| + 1 && i < |states|
    requires forall n | 0 <= n < i :: !CutShort(states[n], events[n])
    ensures CutShortTotal(states, events, i, DayOf, day) == 0
  {
    hide Group;
    if i > 0 {
      NothingCutShort(states, events, i - 1, day);
    }
  }

  /** A flush cut short leaves some row doubled for good. */
  lemma {:induction false} SomethingDoubled(states: seq<State>, events: seq<Event>, n: nat, i: nat)
      returns (day: DayKey)
    requires IsRun(states, events) && states[0] == Start() && n < i < |states| && CutShort(states[n], events[n])
    ensures At(states[i].days.doubled, day) > 0
    decreases i
  {
    hide Group, IsStep, Inv, Collapse;
    RunKeepsInv(states, events, i - 1);
    if i == n + 1 {
      InvSnapshot(states[n]);
      day := SomeRow(states[n].phase.snapshot);
    } else {
      day := SomethingDoubled(states, events, n, i - 1);
    }
    DoubledStep(states[i - 1], events[i - 1], states[i], day, HourKey(0, 0, 0, "", "", 0));
    DoubledNonNegative(states[i - 1], events[i - 1], day);
  }

  lemma InvSnapshot(s: State)
    requires Inv(s) && s.phase.Stored?
    ensures s.phase.snapshot != map[] && Positive(s.phase.snapshot)
  {
  }

  lemma DoubledNonNegative(s: State, e: Event, day: DayKey)
    requires Inv(s)
    ensures At(s.days.doubled, day) >= 0
    ensures CutShort(s, e) ==> Group(s.phase.snapshot, DayOf, day) >= 0
  {
    hide Group;
    if CutShort(s, e) { GroupNonNegative(s.phase.snapshot, DayOf, day); }
  }

  lemma SomeRow(b: Buffer) returns (day: DayKey)
    requires b != map[] && Positive(b)
    ensures Group(b, DayOf, day) > 0
  {
    hide Sum;
    assert b.Keys != {};
    var k := AnElement(b.Keys);
    day := DayOf(k);
    SumNonNegative(b, Fiber(b, DayOf, day));
    assert At(b, k) <= Sum(b, Fiber(b, DayOf, day));
  }

  // ----- shutting down in the middle of a flush -----------------------------------------------

  /** The steps of a flush and of taking its mutex determine the next state. */
  predicate OfFlush(e: Event) { e.Acquire? || e.Release? || e.TakeSnapshot? || e.Store? || e.Abandon? || e.Subtract? }

  ghost function Accounted(s: State, e: Event): State
    requires Enabled(s, e)
  {
    s.(days := AccountStep(s.days, DayOf, DayMatches, s, e), hours := AccountStep(s.hours, HourOf, HourMatches, s, e))
  }

  ghost function Stepped(s: State, e: Event): State
    requires Enabled(s, e) && OfFlush(e)
  {
    match e
    case Acquire(t) => s.(holder := Some(t))
    case Release(_) => s.(holder := None)
    case TakeSnapshot(_) => s.(phase := if s.buffer == map[] then Idle else Taken(s.buffer))
    case Subtract(_) => s.(buffer := Minus(s.buffer, s.phase.snapshot), phase := Idle)
    case Store(_) => Accounted(s, e).(phase := Stored(s.phase.snapshot))
    case Abandon(_) => Accounted(s, e).(phase := Idle)
  }

  /** One more step at the end of a run. */
  lemma Extended(states: seq<State>, events: seq<Event>, e: Event) returns (states': seq<State>, events': seq<Event>)
    requires IsRun(states, events) && Enabled(states[|events|], e) && OfFlush(e)
    ensures IsRun(states', events') && |states'| == |events'| + 1 && states <= states' && events <= events'
    ensures |events'| == |events| + 1 && events'[|events|] == e && states'[|events'|] == Stepped(states[|events|], e)
  {
    hide Sum, Group, Collapse, Minus;
    var s := states[|events|];
    states', events' := states + [Stepped(s, e)], events + [e];
    assert IsStep(s, e, Stepped(s, e));
    forall i | 0 <= i < |events'| ensures IsStep(states'[i], events'[i], states'[i + 1]) {
      if i < |events| { assert IsStep(states[i], events[i], states[i + 1]); }
    }
  }

  /** A flush by some task up to its commit. */
  lemma UpToCommit(states: seq<State>, events: seq<Event>, t: int) returns (states': seq<State>, events': seq<Event>)
    requires IsRun(states, events) && states[|events|].phase == Idle && states[|events|].holder == None
    requires states[|events|].buffer != map[]
    ensures IsRun(states', events') && |states'| == |events'| + 1 && states <= states' && events <= events'
    ensures var s, s' := states[|events|], states'[|events'|];
      && s'.buffer == s.buffer && s'.phase == Stored(s.buffer) && s'.holder == Some(t)
           && s'.days.counted == s.days.counted
      && s'.days.stored == Plus(s.days.stored, Collapse(s.buffer, DayOf))
  {
    hide Sum, Group, Collapse, IsRun, Plus;
    RunLength(states, events);
    states', events' := Extended(states, events, Acquire(t));
    states', events' := Extended(states', events', TakeSnapshot(t));
    states', events' := Extended(states', events', Store(t));
  }

  /** stop() in any reachable state with counts buffered and no flush under way but the loop's own: the loop
      is cancelled after its commit, and the final flush commits the same counts again. */
  lemma ShutdownCanDouble(states: seq<State>, events: seq<Event>, loop: int, last: int)
      returns (states': seq<State>, events': seq<Event>)
    requires IsRun(states, events) && states[0] == Start()
    requires states[|events|].phase == Idle && states[|events|].holder == None && states[|events|].buffer != map[]
    ensures IsRun(states', events') && |states'| == |events'| + 1 && states <= states' && events <= events'
    ensures var s, s' := states[|events|], states'[|events'|];
      && s'.buffer == map[] && s'.phase == Idle && s'.days.counted == s.days.counted
      && forall day :: At(s'.days.stored, day) == At(s.days.stored, day) + 2 * Group(s.buffer, DayOf, day)
  {
    hide Sum, Group, Collapse, IsRun, Plus, Minus;
    RunLength(states, events);
    var s := states[|events|];
    states', events' := UpToCommit(states, events, loop);
    states', events' := Extended(states', events', Abandon(loop));
    states', events' := Extended(states', events', Release(loop));
    ghost var between := states'[|events'|];
    states', events' := UpToCommit(states', events', last);
    states', events' := Extended(states', events', Subtract(last));
    MinusItself(s.buffer);
    forall day
      ensures At(states'[|events'|].days.stored, day) == At(s.days.stored, day) + 2 * Group(s.buffer, DayOf, day)
    {
      PlusCollapse(s.days.stored, s.buffer, day);
      PlusCollapse(between.days.stored, s.buffer, day);
    }
  }

  lemma RunLength(states: seq<State>, events: seq<Event>)
    requires IsRun(states, events)
    ensures |states| == |events| + 1
  {
  }

  lemma MinusItself(b: Buffer)
    ensures Minus(b, b) == map[]
  {
  }

  lemma PlusCollapse(stored: map<DayKey, int>, b: Buffer, day: DayKey)
    ensures At(Plus(stored, Collapse(b, DayOf)), day) == At(stored, day) + Group(b, DayOf, day)
  {
    hide Sum, Group, Collapse;
    CollapseAt(b, DayOf, day);
  }

  // ----- what administrators remove ---------------------------------------------------------

  /** A purge empties the rows on its axis in both tables, leaves every other row, and touches nothing in memory. */
  lemma PurgeEmptiesAxis(s: State, axis: Axis, s': State, day: DayKey, hour: HourKey)
    requires IsStep(s, Purge(axis), s')
    ensures s'.buffer == s.buffer && s'.active == s.active && s'.phase == s.phase && s'.holder == s.holder
    ensures At(s'.days.stored, day) ==
      if axis in {ByUser(day.userId), ByModel(day.model), ByPool(day.poolId)} then 0 else At(s.days.stored, day)
    ensures At(s'.hours.stored, hour) ==
      if axis in {ByUser(hour.userId), ByModel(hour.model), ByPool(hour.poolId)} then 0 else At(s.hours.stored, hour)
    ensures At(s'.days.removed, day) - At(s.days.removed, day) == At(s.days.stored, day) - At(s'.days.stored, day)
  {
    hide AccountStep;
    PurgeAccount(s, axis, s.days, DayOf, DayMatches, day);
    PurgeAccount(s, axis, s.hours, HourOf, HourMatches, hour);
  }

  lemma PurgeAccount<G(!new)>(s: State, axis: Axis, a: Account<G>, f: UsageKey -> G, m: (Axis, G) -> bool, g: G)
    ensures var a' := AccountStep(a, f, m, s, Purge(axis));
      && At(a'.stored, g) == (if m(axis, g) then 0 else At(a.stored, g))
      && At(a'.removed, g) - At(a.removed, g) == At(a.stored, g) - At(a'.stored, g)
  {
  }

  /** A drop empties the buffer's counts on its axis and no others, and a forgotten user's the same, who moreover
      has no request left in flight. */
  lemma DropEmptiesBuffer(s: State, e: Event, s': State, k: UsageKey, id: string)
    requires IsStep(s, e, s') && (e.Drop? || e.Forget?)
    ensures var axis := if e.Drop? then e.axis else ByUser(e.user);
      && (k in s'.buffer <==> k in s.buffer && axis !in {ByUser(k.userId), ByModel(k.model), ByPool(k.poolId)})
      && (k in s'.buffer ==> s'.buffer[k] == s.buffer[k])
    ensures s'.days.stored == s.days.stored && s'.hours.stored == s.hours.stored
    ensures id in s'.active <==> id in s.active
    ensures forall i | i in s.active ::
      s'.active[i] == if e.Forget? && s.active[i].userId == Some(e.user) then s.active[i].(userId := None)
                      else s.active[i]
  {
    hide Sum;
  }

  /** Requests come, are identified, are renamed and go: beginning lists a request, identifying relabels the one
      listed, ending takes it off the list, and nothing else about requests changes. */
  lemma RequestsComeAndGo(s: State, e: Event, s': State)
    requires IsStep(s, e, s')
    ensures e.Begin? ==> s' == s.(active := s.active[e.id := e.request])
    ensures e.Identify? && e.id in s.active ==>
      var r := s'.active[e.id];
      && s'.active.Keys == s.active.Keys && s'.active - {e.id} == s.active - {e.id}
      && r.identity == e.identity && r.userType == e.userType && r.userId == e.userId
      && r.server == s.active[e.id].server && r.model == s.active[e.id].model
    ensures e.End? ==> e.id !in s'.active && s'.active == s.active - {e.id}
    ensures e.Rename? ==> s'.active.Keys == s.active.Keys && forall id | id in s.active ::
      s'.active[id] == if s.active[id].userId == Some(e.user) then s.active[id].(identity := e.name) else s.active[id]
    ensures !(e.Begin? || e.Identify? || e.End? || e.Rename? || e.Forget?) ==> s'.active == s.active
  {
    hide Sum, AccountStep, IsRelabelled, Minus, Dropped;
  }

  /** The end of a request is counted, in the buffer and in both histories, exactly when it was completed or cancelled
      and names a model and a known, attributed user; else it leaves no trace. */
  lemma EndIsCounted(s: State, e: Event, s': State)
    requires IsStep(s, e, s') && e.End?
    ensures if e.id !in s.active || e.status == Errored || s.active[e.id].model in {None, Some("")}
               || s.active[e.id].userType == "unknown" || s.active[e.id].userId == None then
        s'.buffer == s.buffer && s'.days == s.days && s'.hours == s.hours
      else
        exists k: UsageKey ::
          && s'.buffer == s.buffer[k := At(s.buffer, k) + 1]
          && s'.days == s.days.(counted := s.days.counted[DayOf(k) := At(s.days.counted, DayOf(k)) + 1])
          && s'.hours == s.hours.(counted := s.hours.counted[HourOf(k) := At(s.hours.counted, HourOf(k)) + 1])
          && k.date == e.date && k.hour == e.hour && Some(k.userId) == s.active[e.id].userId
          && Some(k.model) == s.active[e.id].model
  {
    if e.id in s.active {
      var r := s.active[e.id];
      if IsCounted(r, e.status) {
        var k := KeyFor(r, e.date, e.hour, e.poolId);
        assert s'.buffer == s.buffer[k := At(s.buffer, k) + 1];
      } else {
        NotCounted(r, e.status);
      }
    }
  }

  /** A flush that fails, or is cancelled before its commit, leaves every count where it was, and the next one takes
      at least what it had. */
  lemma FailedFlushIsRetried(s: State, e: Event, s': State)
    requires Inv(s) && IsStep(s, e, s') && s.phase.Taken? && (e.StoreFails? || e.Abandon?)
    ensures s'.buffer == s.buffer && s'.days == s.days && s'.hours == s.hours && s'.active == s.active
    ensures s'.holder == s.holder && Enabled(s', TakeSnapshot(e.task))
    ensures forall s'' | IsStep(s', TakeSnapshot(e.task), s'') ::
      s''.phase.Taken? && forall k | k in s.phase.snapshot :: s.phase.snapshot[k] <= At(s''.phase.snapshot, k)
  {
    hide Balanced, RowsOk;
    var k :| k in s.phase.snapshot;
    assert At(s.buffer, k) > 0;
  }

  /** While a task holds the mutex nobody else flushes, renames, drops or forgets, and it does so itself only between
      its flushes; requests begin, are identified and end, and rows are purged, at any time. */
  lemma MutexHoldsOff(s: State, e: Event, task: int)
    requires s.holder == Some(task)
    ensures Enabled(s, e) <==>
      match e
      case Begin(_, _) => true
      case Identify(_, _, _, _) => true
      case End(_, _, _, _, _) => true
      case Purge(_) => true
      case Acquire(_) => false
      case Store(t) => t == task && s.phase.Taken?
      case StoreFails(t) => t == task && s.phase.Taken?
      case Subtract(t) => t == task && s.phase.Stored?
      case Abandon(t) => t == task && s.phase != Idle
      case Release(t) => t == task && s.phase == Idle
      case TakeSnapshot(t) => t == task && s.phase == Idle
      case Rename(t, _, _) => t == task && s.phase == Idle
      case Drop(t, _) => t == task && s.phase == Idle
      case Forget(t, _) => t == task && s.phase == Idle
  {
  }

  // ----- readers ---------------------------------------------------------------------------

  /** Between two moments stored rows only disappear by being purged. */
  lemma StoredOnlyLeavesByPurge(s: State, e: Event, s': State, g: DayKey)
    requires Inv(s) && IsStep(s, e, s')
    ensures At(s.days.stored, g) + At(s.days.removed, g) <= At(s'.days.stored, g) + At(s'.days.removed, g)
  {
    hide Sum, Group, Collapse;
    match e {
      case Store(t) =>
        CollapseAt(s.phase.snapshot, DayOf, g);
        GroupNonNegative(s.phase.snapshot, DayOf, g);
      case Drop(t, axis) =>
        CollapseAt(OnAxisBuffer(s.buffer, axis), DayOf, g);
        GroupNonNegative(OnAxisBuffer(s.buffer, axis), DayOf, g);
      case Forget(t, u) =>
        CollapseAt(OnAxisBuffer(s.buffer, ByUser(u)), DayOf, g);
        GroupNonNegative(OnAxisBuffer(s.buffer, ByUser(u)), DayOf, g);
      case _ =>
    }
  }

  lemma {:induction false} StoredOverTime(states: seq<State>, events: seq<Event>, i: nat, j: nat, g: DayKey)
    requires IsRun(states, events) && states[0] == Start() && i <= j < |states|
    ensures At(states[i].days.stored, g) + At(states[i].days.removed, g)
      <= At(states[j].days.stored, g) + At(states[j].days.removed, g)
    decreases j
  {
    hide Inv, IsStep;
    if i < j {
      StoredOverTime(states, events, i, j - 1, g);
      RunKeepsInv(states, events, j - 1);
      StoredOnlyLeavesByPurge(states[j - 1], events[j - 1], states[j], g);
    }
  }

  /** A today-count that reads the buffer at step i and the table at a later step j. */
  ghost function ReaderCount(states: seq<State>, i: nat, j: nat, asked: set<DayKey>): int
    requires i < |states| && j < |states|
  {
    Sum(states[i].buffer, FiberOver(states[i].buffer, DayOf, asked)) + Sum(states[j].days.stored, asked)
  }

  /** Readers never undercount: whatever flushes run in between, the count is at least the
      matching requests completed when the buffer was read and not removed since. */
  lemma ReadersNeverUndercount(states: seq<State>, events: seq<Event>, i: nat, j: nat, asked: set<DayKey>)
    requires IsRun(states, events) && states[0] == Start() && i <= j < |states|
    ensures ReaderCount(states, i, j, asked)
      >= Sum(states[i].days.counted, asked) - Sum(states[j].days.removed, asked)
  {
    hide Sum, Inv, IsStep, Group;
    var s, t := states[i], states[j];
    var buffered := map g | g in asked :: Group(s.buffer, DayOf, g);
    GroupsAddUp(s.buffer, DayOf, buffered, asked);
    var read := map g | g in asked :: At(buffered, g) + At(t.days.stored, g);
    var due := map g | g in asked :: At(s.days.counted, g) - At(t.days.removed, g);
    SumPlus(read, buffered, t.days.stored, asked);
    SumLinear(due, 1, s.days.counted, -1, t.days.removed, asked);
    forall g | g in asked ensures At(due, g) <= At(read, g) {
      ReaderCovers(states, events, i, j, g);
    }
    SumLe(due, read, asked);
  }

  lemma ReaderCovers(states: seq<State>, events: seq<Event>, i: nat, j: nat, g: DayKey)
    requires IsRun(states, events) && states[0] == Start() && i <= j < |states|
    ensures Group(states[i].buffer, DayOf, g) + At(states[j].days.stored, g)
      >= At(states[i].days.counted, g) - At(states[j].days.removed, g)
  {
    hide Sum, IsStep, Group;
    RunKeepsInv(states, events, i);
    StoredOverTime(states, events, i, j, g);
    if states[i].phase.Stored? {
      GroupNonNegative(states[i].phase.snapshot, DayOf, g);
    }
  }

  // ----- forgetting a user for good ------------------------------------------------------

  /** Nothing in memory is attributed to the user. */
  ghost predicate Unattributed(s: State, u: int) {
    && (forall id | id in s.active :: s.active[id].userId != Some(u))
    && (forall k | k in s.buffer :: k.userId != u)
    && (s.phase != Idle ==> forall k | k in s.phase.snapshot :: k.userId != u)
  }

  predicate Attributes(e: Event, u: int) {
    (e.Begin? && e.request.userId == Some(u)) || (e.Identify? && e.userId == Some(u))
  }

  lemma StaysUnattributed(s: State, e: Event, s': State, u: int)
    requires Inv(s) && IsStep(s, e, s') && !Attributes(e, u)
    requires Unattributed(s, u) || (e.Forget? && e.user == u)
    ensures Unattributed(s', u)
  {
    hide Sum, Group, Collapse, AccountStep;
    if e.Rename? {
      forall k | k in s'.buffer ensures k.userId != u {
        RelabelledFrom(s.buffer, s'.buffer, e.user, e.name, k);
      }
    }
  }

  /** A key of the relabelled buffer comes from a key of the same user. */
  lemma RelabelledFrom(b: Buffer, b': Buffer, u: int, name: string, k: UsageKey)
    requires IsRelabelled(b, b', u, name) && k in b' && b'[k] > 0
    ensures exists j :: j in b && j.userId == k.userId
  {
    hide Sum;
    SumNone(b);
    assert Group(b, RelabelAs(u, name), k) > 0;
    var j := AnElement(Fiber(b, RelabelAs(u, name), k));
    assert j in b && j.userId == k.userId;
  }

  lemma UnattributedGroup(b: Buffer, g: DayKey)
    requires forall k | k in b :: k.userId != g.userId
    ensures Group(b, DayOf, g) == 0
  {
    assert Fiber(b, DayOf, g) == {};
    SumNone(b);
  }

  /** Once forgotten, a user's requests still in flight are never counted, and no flush ever
      writes a row for them, unless a later request is authenticated as that user. */
  lemma {:induction false} ForgottenStaysForgotten(states: seq<State>, events: seq<Event>, i: nat, j: nat, g: DayKey)
    requires IsRun(states, events) && states[0] == Start() && i < j < |states|
    requires events[i].Forget? && events[i].user == g.userId
    requires forall n | i <= n < j :: !Attributes(events[n], g.userId)
    ensures Unattributed(states[j], g.userId)
    ensures At(states[j].days.counted, g) == At(states[i].days.counted, g)
    ensures At(states[j].days.stored, g) <= At(states[i + 1].days.stored, g)
    decreases j
  {
    hide Inv, IsStep;
    RunKeepsInv(states, events, j - 1);
    var s, e, s' := states[j - 1], events[j - 1], states[j];
    assert IsStep(s, e, s');
    if j - 1 > i {
      ForgottenStaysForgotten(states, events, i, j - 1, g);
    }
    StaysUnattributed(s, e, s', g.userId);
    ForgottenStep(s, e, s', g, j - 1 == i);
    RunKeepsInv(states, events, i + 1);
    RowsAreThere(states[i + 1], g);
  }

  lemma RowsAreThere(s: State, g: DayKey)
    requires Inv(s)
    ensures At(s.days.stored, g) >= 0
  {
  }

  lemma ForgottenStep(s: State, e: Event, s': State, g: DayKey, first: bool)
    requires Inv(s) && IsStep(s, e, s')
    requires if first then e.Forget? && e.user == g.userId else Unattributed(s, g.userId)
    ensures At(s'.days.counted, g) == At(s.days.counted, g)
    ensures At(s'.days.stored, g) <= At(s.days.stored, g) || (e.Purge? && At(s'.days.stored, g) == 0)
  {
    hide Sum, Group, Collapse;
    match e {
      case Store(t) =>
        CollapseAt(s.phase.snapshot, DayOf, g);
        UnattributedGroup(s.phase.snapshot, g);
      case _ =>
    }
  }
}
