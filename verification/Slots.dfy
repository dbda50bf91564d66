/** Concurrency slots (app/concurrency_slots.py and the in-flight counts of app/rate_limit.py): a slot
    is taken when a request is charged and given back when its ASGI call ends, however it ends. */
module Slots {
  import opened Options
  import opened Sums

  /** Requests in progress by user, absent at zero. */
  type Counts = map<int, int>

  function Acquired(inflight: Counts, user: int): Counts { inflight[user := At(inflight, user) + 1] }

  function Released(inflight: Counts, user: int): Counts {
    if At(inflight, user) <= 1 then inflight - {user} else inflight[user := At(inflight, user) - 1]
  }

  predicate AtCap(inflight: Counts, caps: Counts, user: int) {
    user in caps && At(inflight, user) >= caps[user]
  }

  // ----- as the code has it ---------------------------------------------------------

  class SlotTable {
    var inflight: Counts

    constructor ()
      ensures inflight == map[]
    {
      inflight := map[];
    }

    /** try_acquire_slot. No limit means unlimited, but counted. */
    method TryAcquire(user: int, limit: Option<int>) returns (denied: bool)
      modifies this
      ensures denied <==> limit.Some? && old(At(inflight, user)) >= limit.value
      ensures inflight == if denied then old(inflight) else Acquired(old(inflight), user)
      ensures forall u :: At(inflight, u) == At(old(inflight), u) + if u == user && !denied then 1 else 0
    {
      var current := if user in inflight then inflight[user] else 0;
      if limit.Some? && current >= limit.value {
        return true;
      }
      inflight := inflight[user := current + 1];
      return false;
    }

    method Release(user: int)
      modifies this
      ensures inflight == Released(old(inflight), user)
      ensures user in inflight <==> At(old(inflight), user) > 1
      ensures forall u :: u != user || At(old(inflight), u) > 1 ==>
        At(inflight, u) == At(old(inflight), u) - if u == user then 1 else 0
    {
      var current := if user in inflight then inflight[user] else 0;
      if current <= 1 {
        inflight := inflight - {user};
      } else {
        inflight := inflight[user := current - 1];
      }
    }
  }

  class SlotHolder {
    var userId: Option<int>

    constructor ()
      ensures userId == None
    {
      userId := None;
    }

    /** Idempotent. */
    method Release(table: SlotTable)
      modifies this, table
      ensures userId == None
      ensures table.inflight ==
        match old(userId) case None => old(table.inflight) case Some(u) => Released(old(table.inflight), u)
    {
      if userId.None? {
        return;
      }
      var user := userId.value;
      userId := None;
      table.Release(user);
    }
  }

  /** charge_with_slot up to awaiting the charge. */
  method TakeSlot(table: SlotTable, holder: SlotHolder, user: int, limit: Option<int>)
      returns (denied: bool, took: bool)
    modifies table, holder
    ensures denied <==> old(holder.userId).None? && limit.Some? && old(At(table.inflight, user)) >= limit.value
    ensures took <==> old(holder.userId).None? && !denied
    ensures table.inflight == if took then Acquired(old(table.inflight), user) else old(table.inflight)
    ensures holder.userId == if took then Some(user) else old(holder.userId)
  {
    denied, took := false, false;
    if holder.userId.None? {
      denied := table.TryAcquire(user, limit);
      if denied {
        return;
      }
      holder.userId := Some(user);
      took := true;
    }
  }

  /** charge_with_slot from the charge's decision on. */
  method AfterCharge(table: SlotTable, holder: SlotHolder, took: bool, allowed: bool)
    modifies table, holder
    ensures holder.userId == if !allowed && took then None else old(holder.userId)
    ensures table.inflight ==
      if !allowed && took && old(holder.userId).Some? then Released(old(table.inflight), old(holder.userId).value)
      else old(table.inflight)
  {
    if !allowed {
      if took {
        holder.Release(table);
      }
    }
  }

  // ----- many calls, interleaved at the await ------------------------------------------

  /** A live ASGI call: its holder's user, and while a charge is awaited whether it took the slot. */
  datatype Call = Call(holder: Option<int>, charging: Option<bool>)

  datatype State = State(
    caps: Counts,
    inflight: Counts,
    calls: map<int, Call>,
    taken: map<int, int>,      // history: slots each call took
    given: map<int, int>)      // history: slots each call gave back

  datatype Event =
    | Begin(call: int)
    | Charge(call: int, user: int)
    | Decided(call: int, allowed: bool)
    | ChargeRaised(call: int)
    | End(call: int)                     // returned, raised, cancelled or failed sending
    | SetCap(capped: int, cap: Option<int>)

  predicate Enabled(s: State, e: Event) {
    match e
    case Begin(c) => c !in s.calls && c !in s.taken
    case Charge(c, _) => c in s.calls && s.calls[c].charging.None?
    case Decided(c, _) => c in s.calls && s.calls[c].charging.Some?
    case ChargeRaised(c) => c in s.calls && s.calls[c].charging.Some?
    case End(c) => c in s.calls
    case SetCap(_, _) => true
  }

  function GiveBack(s: State, c: int): State
    requires c in s.calls
  {
    match s.calls[c].holder
    case None => s
    case Some(u) => s.(inflight := Released(s.inflight, u),
                       calls := s.calls[c := s.calls[c].(holder := None)],
                       given := s.given[c := At(s.given, c) + 1])
  }

  function Step(s: State, e: Event): State
    requires Enabled(s, e)
  {
    match e
    case Begin(c) => s.(calls := s.calls[c := Call(None, None)], taken := s.taken[c := 0])
    case Charge(c, u) =>
      if s.calls[c].holder.Some? then s.(calls := s.calls[c := s.calls[c].(charging := Some(false))])
      else if AtCap(s.inflight, s.caps, u) then s
      else s.(inflight := Acquired(s.inflight, u),
              calls := s.calls[c := Call(Some(u), Some(true))],
              taken := s.taken[c := At(s.taken, c) + 1])
    case Decided(c, allowed) =>
      var s1 := if !allowed && s.calls[c].charging.value then GiveBack(s, c) else s;
      s1.(calls := s1.calls[c := s1.calls[c].(charging := None)])
    case ChargeRaised(c) => s.(calls := s.calls[c := s.calls[c].(charging := None)])
    case End(c) =>
      var s1 := GiveBack(s, c);
      s1.(calls := s1.calls - {c})
    case SetCap(u, cap) => s.(caps := match cap case None => s.caps - {u} case Some(n) => s.caps[u := n])
  }

  /** What a charge does is what the code does between its awaits: a call without a slot takes one unless its user
      is at the cap, in which case nothing happens; one that has a slot keeps it, whoever is charged now. */
  method FollowCharge(table: SlotTable, holder: SlotHolder, ghost s: State, ghost c: int, user: int, limit: Option<int>)
      returns (denied: bool, took: bool)
    requires Enabled(s, Charge(c, user)) && table.inflight == s.inflight && holder.userId == s.calls[c].holder
    requires limit == if user in s.caps then Some(s.caps[user]) else None
    modifies table, holder
    ensures var s' := Step(s, Charge(c, user));
      && table.inflight == s'.inflight && holder.userId == s'.calls[c].holder
      && (if denied then s' == s else s'.calls[c].charging == Some(took))
      && s'.calls - {c} == s.calls - {c} && s'.caps == s.caps
    ensures denied <==>
      s.calls[c].holder == None && user in s.caps && At(s.inflight, user) >= s.caps[user]
  {
    denied, took := TakeSlot(table, holder, user, limit);
  }

  /** And what its decision does: only a denied charge that took a slot gives it back. */
  method FollowDecision(table: SlotTable, holder: SlotHolder, ghost s: State, ghost c: int, took: bool, allowed: bool)
    requires c in s.calls && s.calls[c].charging == Some(took)
    requires table.inflight == s.inflight && holder.userId == s.calls[c].holder
    modifies table, holder
    ensures var s' := Step(s, Decided(c, allowed));
      && table.inflight == s'.inflight && holder.userId == s'.calls[c].holder
      && s'.calls[c].charging == None && s'.calls - {c} == s.calls - {c} && s'.caps == s.caps
  {
    AfterCharge(table, holder, took, allowed);
  }

  /** The call's end gives back the slot it holds, if any. */
  method FollowEnd(table: SlotTable, holder: SlotHolder, ghost s: State, ghost c: int)
    requires c in s.calls && table.inflight == s.inflight && holder.userId == s.calls[c].holder
    modifies table, holder
    ensures var s' := Step(s, End(c));
      table.inflight == s'.inflight && holder.userId == None && s'.calls == s.calls - {c} && s'.caps == s.caps
  {
    holder.Release(table);
  }

  /** The live calls whose holder names the user. */
  function Holding(s: State, u: int): set<int> {
    set c | c in s.calls && s.calls[c].holder == Some(u)
  }

  ghost predicate CountsOk(s: State) {
    && (forall u :: At(s.inflight, u) == |Holding(s, u)|)
    && (forall u | u in s.inflight :: s.inflight[u] > 0)
  }

  predicate Holds(s: State, c: int) { c in s.calls && s.calls[c].holder.Some? }

  ghost predicate HistoryOk(s: State) {
    && s.calls.Keys <= s.taken.Keys && s.given.Keys <= s.taken.Keys
    && (forall c :: At(s.taken, c) - At(s.given, c) == if Holds(s, c) then 1 else 0)
  }

  ghost predicate Inv(s: State) { CountsOk(s) && HistoryOk(s) }

  function Start(caps: Counts): State { State(caps, map[], map[], map[], map[]) }

  /** A call begins without a slot; a charge that raised leaves the slot with the call; a cap is set or lifted for one
      user; and a call that ended is gone. */
  lemma CallsComeAndGo(s: State, e: Event)
    requires Enabled(s, e)
    ensures var s' := Step(s, e);
      && (e.Begin? ==> s'.calls == s.calls[e.call := Call(None, None)] && s'.inflight == s.inflight)
      && (e.ChargeRaised? ==> s'.inflight == s.inflight
                              && s'.calls == s.calls[e.call := Call(s.calls[e.call].holder, None)])
      && (e.End? ==> s'.calls == s.calls - {e.call})
      && (e.SetCap? ==> s'.inflight == s.inflight && s'.calls == s.calls
                        && s'.caps == match e.cap case None => s.caps
                             - {e.capped} case Some(n) => s.caps[e.capped := n])
  {
  }

  /** A live call can be charged, again too, while it awaits no charge; a charge awaited can be decided either way or
      raise; and a call can end at any moment, a charge under way or not. */
  lemma CallsMayAct(s: State, call: int, user: int, allowed: bool, cap: Option<int>)
    ensures Enabled(s, SetCap(user, cap))
    ensures call !in s.calls && call !in s.taken ==> Enabled(s, Begin(call))
    ensures call in s.calls ==>
      && Enabled(s, End(call))
      && (if s.calls[call].charging == None then Enabled(s, Charge(call, user))
          else Enabled(s, Decided(call, allowed)) && Enabled(s, ChargeRaised(call)))
  {
  }

  // ----- keeping the invariant -----------------------------------------------------------

  lemma OneMore(s: State, c: int, u: int, s1: State)
    requires CountsOk(s) && c in s.calls && s.calls[c].holder.None?
    requires s1.inflight == Acquired(s.inflight, u)
    requires c in s1.calls && s1.calls == s.calls[c := s1.calls[c]] && s1.calls[c].holder == Some(u)
    ensures CountsOk(s1)
  {
    assert Holding(s1, u) == Holding(s, u) + {c};
    forall v | v != u ensures Holding(s1, v) == Holding(s, v) {
    }
  }

  lemma OneLess(s: State, c: int, u: int, s1: State)
    requires CountsOk(s) && c in s.calls && s.calls[c].holder == Some(u)
    requires s1.inflight == Released(s.inflight, u)
    requires s1.calls == s.calls[c := s.calls[c].(holder := None)]
    ensures CountsOk(s1) && forall v :: At(s1.inflight, v) <= At(s.inflight, v)
  {
    assert c in Holding(s, u);
    assert Holding(s1, u) == Holding(s, u) - {c};
    forall v | v != u ensures Holding(s1, v) == Holding(s, v) {
    }
  }

  lemma TakeKeeps(s: State, c: int, u: int)
    requires Inv(s) && Enabled(s, Charge(c, u)) && s.calls[c].holder.None? && !AtCap(s.inflight, s.caps, u)
    ensures Inv(Step(s, Charge(c, u)))
  {
    hide CountsOk;
    OneMore(s, c, u, Step(s, Charge(c, u)));
  }

  lemma GiveBackKeeps(s: State, c: int)
    requires Inv(s) && c in s.calls
    ensures Inv(GiveBack(s, c)) && GiveBack(s, c).calls.Keys == s.calls.Keys
    ensures GiveBack(s, c).calls[c] == s.calls[c].(holder := None)
    ensures GiveBack(s, c).caps == s.caps && forall v :: At(GiveBack(s, c).inflight, v) <= At(s.inflight, v)
  {
    hide CountsOk, Released;
    if s.calls[c].holder.Some? {
      OneLess(s, c, s.calls[c].holder.value, GiveBack(s, c));
    }
  }

  /** Changing what a call awaits, or beginning or ending one that holds nothing, moves no slot. */
  lemma NoSlotMoves(s: State, s1: State)
    requires Inv(s) && s1.inflight == s.inflight && s1.given == s.given
    requires forall c :: Holds(s, c) <==> Holds(s1, c)
    requires forall c | c in s1.calls && Holds(s, c) :: s1.calls[c].holder == s.calls[c].holder
    requires forall c :: At(s1.taken, c) == At(s.taken, c)
    requires s1.calls.Keys <= s1.taken.Keys && s.taken.Keys <= s1.taken.Keys
    ensures Inv(s1)
  {
    forall u ensures Holding(s1, u) == Holding(s, u) {
      forall c ensures c in Holding(s1, u) <==> c in Holding(s, u) {
        assert c in Holding(s, u) ==> Holds(s, c);
        assert c in Holding(s1, u) ==> Holds(s1, c);
      }
    }
  }

  lemma DecidedKeeps(s: State, c: int, allowed: bool)
    requires Inv(s) && Enabled(s, Decided(c, allowed))
    ensures Inv(Step(s, Decided(c, allowed)))
  {
    hide CountsOk, GiveBack;
    GiveBackKeeps(s, c);
    NoSlotMoves(if !allowed && s.calls[c].charging.value then GiveBack(s, c) else s, Step(s, Decided(c, allowed)));
  }

  lemma EndKeeps(s: State, c: int)
    requires Inv(s) && Enabled(s, End(c))
    ensures Inv(Step(s, End(c)))
  {
    hide CountsOk, GiveBack;
    GiveBackKeeps(s, c);
    NoSlotMoves(GiveBack(s, c), Step(s, End(c)));
  }

  lemma StepKeepsInv(s: State, e: Event)
    requires Inv(s) && Enabled(s, e)
    ensures Inv(Step(s, e))
  {
    hide GiveBack, CountsOk;
    match e {
      case Begin(c) => NoSlotMoves(s, Step(s, e));
      case Charge(c, u) =>
        if s.calls[c].holder.None? && !AtCap(s.inflight, s.caps, u) {
          TakeKeeps(s, c, u);
        } else {
          NoSlotMoves(s, Step(s, e));
        }
      case Decided(c, allowed) => DecidedKeeps(s, c, allowed);
      case ChargeRaised(c) => NoSlotMoves(s, Step(s, e));
      case End(c) => EndKeeps(s, c);
      case SetCap(_, _) => NoSlotMoves(s, Step(s, e));
    }
  }

  /** Only a charge below the cap takes a slot. */
  lemma OnlyBelowCap(s: State, e: Event, u: int)
    requires Inv(s) && Enabled(s, e)
    ensures At(Step(s, e).inflight, u) <= At(s.inflight, u) ||
            (e.Charge? && e.user == u && !AtCap(s.inflight, s.caps, u)
              && At(Step(s, e).inflight, u) == At(s.inflight, u) + 1)
    ensures !(e.SetCap? && e.capped == u) ==>
      At(Step(s, e).caps, u) == At(s.caps, u) && (u in Step(s, e).caps <==> u in s.caps)
  {
    hide GiveBack, Inv;
    if e.Decided? { GiveBackKeeps(s, e.call); }
    if e.End? { GiveBackKeeps(s, e.call); }
  }

  // ----- runs ------------------------------------------------------------------------------

  function Run(s: State, events: seq<Event>): State
    decreases |events|
  {
    if events == [] then s
    else if Enabled(s, events[0]) then Run(Step(s, events[0]), events[1..])
    else Run(s, events[1..])
  }

  lemma {:induction false} RunKeepsInv(s: State, events: seq<Event>)
    requires Inv(s)
    ensures Inv(Run(s, events))
    decreases |events|
  {
    hide Inv, Enabled, Step;
    if events != [] {
      if Enabled(s, events[0]) {
        StepKeepsInv(s, events[0]);
        RunKeepsInv(Step(s, events[0]), events[1..]);
      } else {
        RunKeepsInv(s, events[1..]);
      }
    }
  }

  lemma StartInv(caps: Counts)
    ensures Inv(Start(caps))
  {
  }

  /** A user's in-flight count is the number of live calls whose holder names them, under every
      interleaving; users with none are absent; and an ended call has given back what it took. */
  lemma SlotsMatchLiveCalls(caps: Counts, events: seq<Event>, u: int, c: int)
    ensures var s := Run(Start(caps), events);
      && At(s.inflight, u) == |Holding(s, u)|
      && (u in s.inflight <==> Holding(s, u) != {})
      && (c !in s.calls ==> At(s.taken, c) == At(s.given, c))
      && (c in s.calls ==> At(s.taken, c) - 1 <= At(s.given, c) <= At(s.taken, c))
  {
    hide Run;
    StartInv(caps);
    RunKeepsInv(Start(caps), events);
    var s := Run(Start(caps), events);
    assert u in s.inflight <==> At(s.inflight, u) > 0;
  }

  /** No slot leaks and none is given back twice: once every call has ended, however each did and whatever was
      denied on the way, the table is empty again, and every slot taken went back once. */
  lemma NothingLeaks(caps: Counts, events: seq<Event>)
    requires Run(Start(caps), events).calls == map[]
    ensures Run(Start(caps), events).inflight == map[]
    ensures forall c :: At(Run(Start(caps), events).taken, c) == At(Run(Start(caps), events).given, c)
  {
    hide Run;
    var s := Run(Start(caps), events);
    forall u, c ensures u !in s.inflight && At(s.taken, c) == At(s.given, c) {
      SlotsMatchLiveCalls(caps, events, u, c);
    }
  }

  /** While a user's cap stays as it is, their count never passes it. */
  lemma {:induction false} CapHolds(s: State, events: seq<Event>, u: int)
    requires Inv(s) && u in s.caps && At(s.inflight, u) <= s.caps[u]
    requires forall i | 0 <= i < |events| :: !(events[i].SetCap? && events[i].capped == u)
    ensures At(Run(s, events).inflight, u) <= s.caps[u]
    decreases |events|
  {
    hide Inv, Enabled, Step;
    if events != [] {
      assert forall i | 0 <= i < |events[1..]| :: events[1..][i] == events[i + 1];
      if Enabled(s, events[0]) {
        StepKeepsInv(s, events[0]);
        OnlyBelowCap(s, events[0], u);
        CapHolds(Step(s, events[0]), events[1..], u);
      } else {
        CapHolds(s, events[1..], u);
      }
    }
  }
}
