/** What each operation locks, in order, and that it keeps to the lock order. */
module LockPrograms {
  import opened LockOrder

  function Block(n: Name, body: seq<Op>): seq<Op> { [In(n)] + body + [Out] }

  /** app/request_tracker.py */
  const TOUCH_BUFFER := Block(Usage, [])
  const FLUSH := Block(Flush, TOUCH_BUFFER + TOUCH_BUFFER)
  const SWEEP_BOTH := Block(Tracker, TOUCH_BUFFER)
  const END_REQUEST := SWEEP_BOTH + Block(Tracker, [])
  const RENAME_IDENTITY := Block(Flush, SWEEP_BOTH)
  const DROP_BUFFERED := Block(Flush, TOUCH_BUFFER)

  /** app/auth/pools.py settle_pool and admit_member: pause_flush, then flush_pending inside it. */
  const SETTLE := Block(Flush, FLUSH)

  /** app/rate_limit.py refresh_now */
  const REFRESH := Block(Reload, Block(Config, []))

  /** app/auth/database.py update_user, when renaming. */
  const RENAME_USER := Block(Flush, FLUSH + RENAME_IDENTITY)

  function Times(n: nat, body: seq<Op>): seq<Op> {
    if n == 0 then [] else body + Times(n - 1, body)
  }

  /** app/routes/pools.py: joining, leaving, dissolving and previewing settle under the pool's guard. */
  function Composition(p: int, settlements: nat): seq<Op> { Block(Pool(p), Times(settlements, SETTLE)) }

  function DeleteUser(p: int): seq<Op> { Block(Pool(p), Block(Flush, SETTLE + RENAME_IDENTITY)) }

  function Guards(ids: seq<int>, body: seq<Op>): seq<Op> {
    if ids == [] then body else Block(Pool(ids[0]), Guards(ids[1..], body))
  }

  /** resettle_pools: one refresh, every pool's guard in ascending order, one settlement each, refresh. */
  function Resettle(ids: seq<int>): seq<Op> {
    if ids == [] then REFRESH else REFRESH + Guards(ids, Times(|ids|, SETTLE)) + REFRESH
  }

  /** The usage purge of app/routes/admin.py. `outer` are the users' pools when it began, whose guards
      it takes first; `inner` are their pools when it resettles, with the flush held off. */
  function PurgeUsage(outer: seq<int>, inner: seq<int>): seq<Op> {
    Guards(outer, Block(Flush, FLUSH + DROP_BUFFERED + Resettle(inner)))
  }

  /** app/rate_limit.py: reading one cached count, and a request's check. */
  function ReadCount(k: int): seq<Op> { Block(Flight(k), TOUCH_BUFFER) }

  function Check(user: int, pooled: int, own: int): seq<Op> {
    Block(Config, []) + Block(UserGate(user), ReadCount(pooled) + ReadCount(own)) + ReadCount(pooled)
  }

  // ----- what they take, and what they hold then -----------------------------------------------

  function Pools(ids: seq<int>): seq<Name> { seq(|ids|, i requires 0 <= i < |ids| => Pool(ids[i])) }

  /** For every lock a program asks for, in order, all that is held with it. */
  function Stacks(ops: seq<Op>, held: seq<Name>): seq<seq<Name>> {
    if ops == [] then []
    else match ops[0]
      case In(n) => [held + [n]] + Stacks(ops[1..], held + [n])
      case Out => Stacks(ops[1..], if |held| > 0 then held[..|held| - 1] else [])
  }

  lemma {:induction false} Concat(a: seq<Op>, b: seq<Op>, held: seq<Name>)
    ensures Disciplined(a + b, held) <==> Disciplined(a, held) && Disciplined(b, After(a, held))
    ensures After(a + b, held) == After(b, After(a, held))
    ensures Stacks(a + b, held) == Stacks(a, held) + Stacks(b, After(a, held))
    decreases |a|
  {
    if a == [] {
      assert a + b == b;
    } else {
      assert (a + b)[0] == a[0] && (a + b)[1..] == a[1..] + b;
      match a[0] {
        case In(n) => Concat(a[1..], b, held + [n]);
        case Out => Concat(a[1..], b, if |held| > 0 then held[..|held| - 1] else []);
      }
    }
  }

  /** From `held` a program takes its locks so, and hands back what it took. */
  predicate Takes(ops: seq<Op>, held: seq<Name>, stacks: seq<seq<Name>>) {
    Stacks(ops, held) == stacks && After(ops, held) == held
  }

  lemma BlockTakes(n: Name, body: seq<Op>, held: seq<Name>, stacks: seq<seq<Name>>)
    requires Takes(body, held + [n], stacks)
    ensures Takes(Block(n, body), held, [held + [n]] + stacks)
  {
    var inside := held + [n];
    assert inside[..|inside| - 1] == held;
    assert [In(n)][0] == In(n) && [In(n)][1..] == [] && [Out][0] == Out && [Out][1..] == [];
    Concat(body, [Out], inside);
    Concat([In(n)], body + [Out], held);
    assert Block(n, body) == [In(n)] + (body + [Out]);
    assert Stacks([Out], inside) == [] && Stacks(body + [Out], inside) == stacks;
    assert Stacks([In(n)], held) == [inside];
  }

  lemma BothTake(a: seq<Op>, b: seq<Op>, held: seq<Name>, before: seq<seq<Name>>, after: seq<seq<Name>>)
    requires Takes(a, held, before) && Takes(b, held, after)
    ensures Takes(a + b, held, before + after)
  {
    Concat(a, b, held);
  }

  lemma EmptyTakes(n: Name, held: seq<Name>)
    ensures Takes(Block(n, []), held, [held + [n]])
  {
    BlockTakes(n, [], held, []);
  }

  function Repeated(n: nat, stacks: seq<seq<Name>>): seq<seq<Name>> {
    if n == 0 then [] else stacks + Repeated(n - 1, stacks)
  }

  lemma {:induction false} TimesTake(n: nat, body: seq<Op>, held: seq<Name>, stacks: seq<seq<Name>>)
    requires Takes(body, held, stacks)
    ensures Takes(Times(n, body), held, Repeated(n, stacks))
  {
    if n > 0 {
      TimesTake(n - 1, body, held, stacks);
      BothTake(body, Times(n - 1, body), held, stacks, Repeated(n - 1, stacks));
    }
  }

  /** One guard after the other, on top of what was held. */
  function Guarding(ids: seq<int>, held: seq<Name>): seq<seq<Name>> {
    seq(|ids|, i requires 0 <= i < |ids| => held + Pools(ids[..i + 1]))
  }

  lemma {:induction false} GuardsTake(ids: seq<int>, body: seq<Op>, held: seq<Name>, stacks: seq<seq<Name>>)
    requires Takes(body, held + Pools(ids), stacks)
    ensures Takes(Guards(ids, body), held, Guarding(ids, held) + stacks)
    decreases |ids|
  {
    hide Takes;
    if ids == [] {
      assert held + Pools(ids) == held;
      assert Guarding(ids, held) + stacks == stacks;
    } else {
      var inside := held + [Pool(ids[0])];
      assert inside + Pools(ids[1..]) == held + Pools(ids);
      GuardsTake(ids[1..], body, inside, stacks);
      BlockTakes(Pool(ids[0]), Guards(ids[1..], body), held, Guarding(ids[1..], inside) + stacks);
      forall i | 0 <= i < |ids| ensures Guarding(ids, held)[i] == ([inside] + Guarding(ids[1..], inside))[i] {
        if i == 0 {
          assert Pools(ids[..1]) == [Pool(ids[0])];
        } else {
          assert held + Pools(ids[..i + 1]) == inside + Pools(ids[1..][..i]);
        }
      }
      assert Guarding(ids, held) == [inside] + Guarding(ids[1..], inside);
      assert [inside] + (Guarding(ids[1..], inside) + stacks) == Guarding(ids, held) + stacks;
    }
  }

  function Flushing(held: seq<Name>): seq<seq<Name>> {
    [held + [Flush], held + [Flush] + [Usage], held + [Flush] + [Usage]]
  }

  function Sweeping(held: seq<Name>): seq<seq<Name>> { [held + [Tracker], held + [Tracker] + [Usage]] }

  function Renaming(held: seq<Name>): seq<seq<Name>> { [held + [Flush]] + Sweeping(held + [Flush]) }

  function Settling(held: seq<Name>): seq<seq<Name>> { [held + [Flush]] + Flushing(held + [Flush]) }

  function Refreshing(held: seq<Name>): seq<seq<Name>> { [held + [Reload], held + [Reload] + [Config]] }

  lemma FlushTakes(held: seq<Name>)
    ensures Takes(FLUSH, held, Flushing(held))
  {
    hide Takes;
    var inside := held + [Flush];
    EmptyTakes(Usage, inside);
    BothTake(TOUCH_BUFFER, TOUCH_BUFFER, inside, [inside + [Usage]], [inside + [Usage]]);
    assert [inside + [Usage]] + [inside + [Usage]] == [inside + [Usage], inside + [Usage]];
    BlockTakes(Flush, TOUCH_BUFFER + TOUCH_BUFFER, held, [inside + [Usage], inside + [Usage]]);
    assert Flushing(held) == [inside] + [inside + [Usage], inside + [Usage]];
  }

  lemma SweepTakes(held: seq<Name>)
    ensures Takes(SWEEP_BOTH, held, Sweeping(held))
  {
    hide Takes;
    EmptyTakes(Usage, held + [Tracker]);
    BlockTakes(Tracker, TOUCH_BUFFER, held, [held + [Tracker] + [Usage]]);
    assert Sweeping(held) == [held + [Tracker]] + [held + [Tracker] + [Usage]];
  }

  /** A flush takes its mutex and, holding it, the buffer's lock twice, around the write; the end of a request takes
      the buffer's lock inside the tracker's, and then the tracker's alone; a rename does the first with the flush held
      off, a drop takes the buffer's lock with it held off; settling holds it off around a flush of its own. */
  lemma LocksTaken(held: seq<Name>)
    ensures Takes(FLUSH, held, [held + [Flush], held + [Flush] + [Usage], held + [Flush] + [Usage]])
    ensures Takes(END_REQUEST, held, [held + [Tracker], held + [Tracker] + [Usage], held + [Tracker]])
    ensures Takes(RENAME_IDENTITY, held,
                  [held + [Flush], held + [Flush] + [Tracker], held + [Flush] + [Tracker] + [Usage]])
    ensures Takes(DROP_BUFFERED, held, [held + [Flush], held + [Flush] + [Usage]])
    ensures Takes(SETTLE, held, [held + [Flush]] + Flushing(held + [Flush]))
    ensures Takes(REFRESH, held, [held + [Reload], held + [Reload] + [Config]])
    ensures var inside := held + [Flush];
      Takes(RENAME_USER, held, [inside] + (Flushing(inside) + Renaming(inside)))
  {
    hide Takes;
    var inside := held + [Flush];
    FlushTakes(held);
    FlushTakes(inside);
    BlockTakes(Flush, FLUSH, held, Flushing(inside));
    SweepTakes(held);
    EmptyTakes(Tracker, held);
    BothTake(SWEEP_BOTH, Block(Tracker, []), held, Sweeping(held), [held + [Tracker]]);
    assert Sweeping(held) + [held + [Tracker]] == [held + [Tracker], held + [Tracker] + [Usage], held + [Tracker]];
    SweepTakes(inside);
    BlockTakes(Flush, SWEEP_BOTH, held, Sweeping(inside));
    assert [inside] + Sweeping(inside) == [inside, inside + [Tracker], inside + [Tracker] + [Usage]];
    EmptyTakes(Usage, inside);
    BlockTakes(Flush, TOUCH_BUFFER, held, [inside + [Usage]]);
    assert [inside] + [inside + [Usage]] == [inside, inside + [Usage]];
    EmptyTakes(Config, held + [Reload]);
    BlockTakes(Reload, Block(Config, []), held, [held + [Reload] + [Config]]);
    assert Refreshing(held) == [held + [Reload]] + [held + [Reload] + [Config]];
    SweepTakes(inside + [Flush]);
    BlockTakes(Flush, SWEEP_BOTH, inside, Sweeping(inside + [Flush]));
    var renaming := Renaming(inside);
    BothTake(FLUSH, RENAME_IDENTITY, inside, Flushing(inside), renaming);
    BlockTakes(Flush, FLUSH + RENAME_IDENTITY, held, Flushing(inside) + renaming);
  }

  /** Refreshing, then under every guard in the order given one settlement each, and refreshing again. */
  function Resettling(ids: seq<int>, held: seq<Name>): seq<seq<Name>> {
    if ids == [] then Refreshing(held)
    else Refreshing(held) + (Guarding(ids, held) + Repeated(|ids|, Settling(held + Pools(ids)))) + Refreshing(held)
  }

  lemma ResettleTakes(ids: seq<int>, held: seq<Name>)
    ensures Takes(Resettle(ids), held, Resettling(ids, held))
  {
    hide Takes;
    LocksTaken(held);
    if ids != [] {
      var inside, settles := held + Pools(ids), Times(|ids|, SETTLE);
      LocksTaken(inside);
      TimesTake(|ids|, SETTLE, inside, Settling(inside));
      var settling := Repeated(|ids|, Settling(inside));
      GuardsTake(ids, settles, held, settling);
      BothTake(REFRESH, Guards(ids, settles), held, Refreshing(held), Guarding(ids, held) + settling);
      BothTake(REFRESH + Guards(ids, settles), REFRESH, held, Refreshing(held) + (Guarding(ids, held) + settling),
               Refreshing(held));
    }
  }

  /** A composition change settles inside the guard of its pool; an account's deletion settles and renames there with
      the flush held off; the purge flushes, drops and resettles inside all its first guards with the flush held
      off. */
  lemma PoolLocksTaken(p: int, n: nat, outer: seq<int>, ids: seq<int>)
    ensures Takes(Composition(p, n), [], [[Pool(p)]] + Repeated(n, Settling([Pool(p)])))
    ensures var inside := [Pool(p)] + [Flush];
      Takes(DeleteUser(p), [],
            [[Pool(p)]] + ([inside] + (Settling(inside) + Renaming(inside))))
    ensures Takes(Resettle(ids), [], Resettling(ids, []))
    ensures var inside := Pools(outer) + [Flush];
      Takes(PurgeUsage(outer, ids), [],
            Guarding(outer, []) + ([inside]
              + (Flushing(inside) + [inside + [Flush], inside + [Flush] + [Usage]] + Resettling(ids, inside))))
  {
    hide Takes;
    assert [] + [Pool(p)] == [Pool(p)];
    LocksTaken([Pool(p)]);
    TimesTake(n, SETTLE, [Pool(p)], Settling([Pool(p)]));
    BlockTakes(Pool(p), Times(n, SETTLE), [], Repeated(n, Settling([Pool(p)])));
    DeletionTakes(p);
    ResettleTakes(ids, []);
    PurgeTakes(outer, ids);
  }

  lemma DeletionTakes(p: int)
    ensures var inside := [Pool(p)] + [Flush];
      Takes(DeleteUser(p), [],
            [[Pool(p)]] + ([inside] + (Settling(inside) + Renaming(inside))))
  {
    hide Takes;
    assert [] + [Pool(p)] == [Pool(p)];
    var inside := [Pool(p)] + [Flush];
    LocksTaken(inside);
    var renaming := Renaming(inside);
    assert renaming == [inside + [Flush], inside + [Flush] + [Tracker], inside + [Flush] + [Tracker] + [Usage]];
    BothTake(SETTLE, RENAME_IDENTITY, inside, Settling(inside), renaming);
    BlockTakes(Flush, SETTLE + RENAME_IDENTITY, [Pool(p)], Settling(inside) + renaming);
    BlockTakes(Pool(p), Block(Flush, SETTLE + RENAME_IDENTITY), [], [inside] + (Settling(inside) + renaming));
  }

  lemma PurgeTakes(outer: seq<int>, ids: seq<int>)
    ensures var inside := Pools(outer) + [Flush];
      Takes(PurgeUsage(outer, ids), [],
            Guarding(outer, []) + ([inside]
              + (Flushing(inside) + [inside + [Flush], inside + [Flush] + [Usage]] + Resettling(ids, inside))))
  {
    hide Takes, Resettle, Resettling;
    var held := Pools(outer);
    assert [] + held == held;
    var inside := held + [Flush];
    LocksTaken(inside);
    ResettleTakes(ids, inside);
    var dropping := [inside + [Flush], inside + [Flush] + [Usage]];
    BothTake(FLUSH, DROP_BUFFERED, inside, Flushing(inside), dropping);
    BothTake(FLUSH + DROP_BUFFERED, Resettle(ids), inside, Flushing(inside) + dropping, Resettling(ids, inside));
    BlockTakes(Flush, FLUSH + DROP_BUFFERED + Resettle(ids), held,
               Flushing(inside) + dropping + Resettling(ids, inside));
    GuardsTake(outer, Block(Flush, FLUSH + DROP_BUFFERED + Resettle(ids)), [],
               [inside] + (Flushing(inside) + dropping + Resettling(ids, inside)));
  }

  function Reading(k: int, held: seq<Name>): seq<seq<Name>> { [held + [Flight(k)], held + [Flight(k)] + [Usage]] }

  lemma ReadingIs(k: int, n: Name)
    ensures Reading(k, []) == [[Flight(k)], [Flight(k), Usage]]
    ensures Reading(k, [n]) == [[n, Flight(k)], [n, Flight(k), Usage]]
  {
    assert [] + [Flight(k)] == [Flight(k)] && [Flight(k)] + [Usage] == [Flight(k), Usage];
    assert [n] + [Flight(k)] == [n, Flight(k)] && [n, Flight(k)] + [Usage] == [n, Flight(k), Usage];
  }

  /** A rate check reads its configuration, then the counts it needs inside the user's section, and once more after
      it; each read may have to load, under the flight's lock. */
  lemma CheckLocksTaken(user: int, pooled: int, own: int)
    ensures Takes(Check(user, pooled, own), [],
                  [[Config], [UserGate(user)],
                   [UserGate(user), Flight(pooled)], [UserGate(user), Flight(pooled), Usage],
                   [UserGate(user), Flight(own)], [UserGate(user), Flight(own), Usage],
                   [Flight(pooled)], [Flight(pooled), Usage]])
  {
    hide Takes;
    var inside := [UserGate(user)];
    ReadTakes(pooled, inside);
    ReadTakes(own, inside);
    ReadTakes(pooled, []);
    EmptyTakes(Config, []);
    assert [] + inside == inside && [] + [Config] == [Config];
    ReadingIs(pooled, UserGate(user));
    ReadingIs(own, UserGate(user));
    var reading := Reading(pooled, inside) + Reading(own, inside);
    BothTake(ReadCount(pooled), ReadCount(own), inside, Reading(pooled, inside), Reading(own, inside));
    BlockTakes(UserGate(user), ReadCount(pooled) + ReadCount(own), [], reading);
    var section := Block(UserGate(user), ReadCount(pooled) + ReadCount(own));
    BothTake(Block(Config, []), section, [], [[Config]], [inside] + reading);
    BothTake(Block(Config, []) + section, ReadCount(pooled), [], [[Config]] + ([inside] + reading),
      Reading(pooled, []));
    assert reading == [[UserGate(user), Flight(pooled)], [UserGate(user), Flight(pooled), Usage],
                       [UserGate(user), Flight(own)], [UserGate(user), Flight(own), Usage]];
    assert [[Config]] + ([inside] + reading) + Reading(pooled, []) ==
      [[Config], [UserGate(user)],
       [UserGate(user), Flight(pooled)], [UserGate(user), Flight(pooled), Usage],
       [UserGate(user), Flight(own)], [UserGate(user), Flight(own), Usage],
       [Flight(pooled)], [Flight(pooled), Usage]];
  }

  lemma ReadTakes(k: int, held: seq<Name>)
    ensures Takes(ReadCount(k), held, Reading(k, held))
  {
    hide Takes;
    EmptyTakes(Usage, held + [Flight(k)]);
    BlockTakes(Flight(k), TOUCH_BUFFER, held, [held + [Flight(k)] + [Usage]]);
    assert Reading(k, held) == [held + [Flight(k)]] + [held + [Flight(k)] + [Usage]];
  }

  // ----- composing ------------------------------------------------------------------------

  /** Keeps the order from `held`, and hands back what it took. */
  ghost predicate Safe(ops: seq<Op>, held: seq<Name>) {
    Disciplined(ops, held) && After(ops, held) == held
  }

  lemma BothSafe(a: seq<Op>, b: seq<Op>, held: seq<Name>)
    requires Safe(a, held) && Safe(b, held)
    ensures Safe(a + b, held)
  {
    Concat(a, b, held);
  }

  lemma BlockSafe(n: Name, body: seq<Op>, held: seq<Name>)
    requires MayEnter(n, held) && Safe(body, held + [n])
    ensures Safe(Block(n, body), held)
  {
    var inside := held + [n];
    assert inside[..|inside| - 1] == held;
    assert [In(n)][0] == In(n) && [In(n)][1..] == [] && [Out][0] == Out && [Out][1..] == [];
    Concat(body, [Out], inside);
    Concat([In(n)], body + [Out], held);
    assert Block(n, body) == [In(n)] + (body + [Out]);
  }

  /** A block entered with nothing held. */
  lemma OuterSafe(n: Name, body: seq<Op>)
    requires Safe(body, [n])
    ensures Safe(Block(n, body), [])
  {
    assert [] + [n] == [n];
    BlockSafe(n, body, []);
  }

  lemma {:induction false} TimesSafe(n: nat, body: seq<Op>, held: seq<Name>)
    requires Safe(body, held)
    ensures Safe(Times(n, body), held)
  {
    if n > 0 {
      TimesSafe(n - 1, body, held);
      BothSafe(body, Times(n - 1, body), held);
    }
  }

  /** Pool locks, or the flush mutex: what may be held around a settlement. */
  ghost predicate Low(held: seq<Name>) { forall m | m in held :: m.Pool? || m.Flush? }

  lemma EmptySafe(n: Name, held: seq<Name>)
    requires MayEnter(n, held)
    ensures Safe(Block(n, []), held)
  {
    BlockSafe(n, [], held);
  }

  lemma BufferSafe(held: seq<Name>)
    requires forall m | m in held :: m != Usage
    ensures Safe(TOUCH_BUFFER, held)
  {
    EmptySafe(Usage, held);
  }

  lemma FlushSafe(held: seq<Name>)
    requires Low(held)
    ensures Safe(FLUSH, held) && Safe(DROP_BUFFERED, held)
  {
    hide Safe;
    var inside := held + [Flush];
    BufferSafe(inside);
    BothSafe(TOUCH_BUFFER, TOUCH_BUFFER, inside);
    BlockSafe(Flush, TOUCH_BUFFER + TOUCH_BUFFER, held);
    BlockSafe(Flush, TOUCH_BUFFER, held);
  }

  lemma SettleSafe(held: seq<Name>)
    requires Low(held)
    ensures Safe(SETTLE, held)
  {
    hide Safe;
    FlushSafe(held + [Flush]);
    BlockSafe(Flush, FLUSH, held);
  }

  lemma RenameSafe(held: seq<Name>)
    requires Low(held)
    ensures Safe(RENAME_IDENTITY, held)
  {
    hide Safe;
    var inside := held + [Flush];
    BufferSafe(inside + [Tracker]);
    BlockSafe(Tracker, TOUCH_BUFFER, inside);
    BlockSafe(Flush, SWEEP_BOTH, held);
  }

  lemma RefreshSafe(held: seq<Name>)
    requires Low(held)
    ensures Safe(REFRESH, held)
  {
    hide Safe;
    EmptySafe(Config, held + [Reload]);
    BlockSafe(Reload, Block(Config, []), held);
  }

  // ----- the operations ---------------------------------------------------------------------

  predicate Ascending(ids: seq<int>) { forall i, j | 0 <= i < j < |ids| :: ids[i] < ids[j] }

  /** Safe inside any pool guards and held-off flush that include the guards needed. */
  ghost predicate SafeUnder(body: seq<Op>, needed: seq<int>) {
    forall held | Low(held) && Have(needed, held) :: Safe(body, held)
  }

  ghost predicate Have(ids: seq<int>, held: seq<Name>) { forall p | p in ids :: Pool(p) in held }

  /** Every guard is either above all that is held, or held already. */
  ghost predicate CanGuard(ids: seq<int>, held: seq<Name>) {
    (Ascending(ids) && forall m, p | m in held && p in ids :: m.Pool? && m.id < p) || Have(ids, held)
  }

  lemma CanGuardNext(ids: seq<int>, held: seq<Name>)
    requires CanGuard(ids, held) && ids != []
    ensures MayEnter(Pool(ids[0]), held) && CanGuard(ids[1..], held + [Pool(ids[0])])
  {
    var rest, inside := ids[1..], held + [Pool(ids[0])];
    assert forall p | p in rest :: p in ids;
    if Have(ids, held) {
      assert Pool(ids[0]) in held;
      assert Have(rest, inside);
    } else {
      forall m | m in held ensures Below(m, Pool(ids[0])) {
        assert ids[0] in ids;
      }
      assert Ascending(rest);
      forall m, p | m in inside && p in rest ensures m.Pool? && m.id < p {
        var i :| 0 <= i < |rest| && rest[i] == p;
        assert p == ids[i + 1];
      }
    }
  }

  lemma {:induction false} GuardsSafe(ids: seq<int>, body: seq<Op>, held: seq<Name>, needed: seq<int>)
    requires Low(held) && CanGuard(ids, held)
    requires forall p | p in needed :: p in ids || Pool(p) in held
    requires SafeUnder(body, needed)
    ensures Safe(Guards(ids, body), held)
    decreases |ids|
  {
    hide Safe, CanGuard, MayEnter;
    if ids == [] {
      assert Have(needed, held);
    } else {
      var inside := held + [Pool(ids[0])];
      CanGuardNext(ids, held);
      forall p | p in needed ensures p in ids[1..] || Pool(p) in inside {
        assert ids == [ids[0]] + ids[1..];
      }
      GuardsSafe(ids[1..], body, inside, needed);
      BlockSafe(Pool(ids[0]), Guards(ids[1..], body), held);
    }
  }

  lemma SettlesSafe(n: nat, held: seq<Name>)
    requires Low(held)
    ensures Safe(Times(n, SETTLE), held)
  {
    SettleSafe(held);
    TimesSafe(n, SETTLE, held);
  }

  lemma SettlesSafeUnder(n: nat)
    ensures SafeUnder(Times(n, SETTLE), [])
  {
    hide Safe;
    forall held | Low(held) && Have([], held) ensures Safe(Times(n, SETTLE), held) {
      SettlesSafe(n, held);
    }
  }

  lemma TrackerOperationsAreOrdered()
    ensures Safe(FLUSH, []) && Safe(END_REQUEST, []) && Safe(RENAME_IDENTITY, []) && Safe(DROP_BUFFERED, [])
    ensures Safe(RENAME_USER, [])
  {
    hide Safe;
    FlushSafe([]);
    RenameSafe([]);
    BufferSafe([Tracker]);
    OuterSafe(Tracker, TOUCH_BUFFER);
    EmptySafe(Tracker, []);
    BothSafe(SWEEP_BOTH, Block(Tracker, []), []);
    FlushSafe([Flush]);
    RenameSafe([Flush]);
    BothSafe(FLUSH, RENAME_IDENTITY, [Flush]);
    OuterSafe(Flush, FLUSH + RENAME_IDENTITY);
  }

  lemma PoolOperationsAreOrdered(p: int, settlements: nat)
    ensures Safe(Composition(p, settlements), []) && Safe(DeleteUser(p), [])
  {
    hide Safe;
    var held := [Pool(p)];
    SettlesSafe(settlements, held);
    OuterSafe(Pool(p), Times(settlements, SETTLE));
    SettleSafe(held + [Flush]);
    RenameSafe(held + [Flush]);
    BothSafe(SETTLE, RENAME_IDENTITY, held + [Flush]);
    BlockSafe(Flush, SETTLE + RENAME_IDENTITY, held);
    OuterSafe(Pool(p), Block(Flush, SETTLE + RENAME_IDENTITY));
  }

  lemma ResettleIsOrdered(ids: seq<int>)
    requires Ascending(ids)
    ensures Safe(Resettle(ids), [])
  {
    hide Safe;
    RefreshSafe([]);
    if ids != [] {
      SettlesSafeUnder(|ids|);
      GuardsSafe(ids, Times(|ids|, SETTLE), [], []);
      BothSafe(REFRESH, Guards(ids, Times(|ids|, SETTLE)), []);
      BothSafe(REFRESH + Guards(ids, Times(|ids|, SETTLE)), REFRESH, []);
    }
  }

  lemma ChecksAreOrdered(user: int, pooled: int, own: int)
    ensures Safe(Check(user, pooled, own), [])
  {
    hide Safe;
    ReadSafe(pooled, []);
    ReadSafe(pooled, [UserGate(user)]);
    ReadSafe(own, [UserGate(user)]);
    BothSafe(ReadCount(pooled), ReadCount(own), [UserGate(user)]);
    OuterSafe(UserGate(user), ReadCount(pooled) + ReadCount(own));
    EmptySafe(Config, []);
    BothSafe(Block(Config, []), Block(UserGate(user), ReadCount(pooled) + ReadCount(own)), []);
    BothSafe(Block(Config, []) + Block(UserGate(user), ReadCount(pooled) + ReadCount(own)), ReadCount(pooled), []);
  }

  lemma ReadSafe(k: int, held: seq<Name>)
    requires forall m | m in held :: m.UserGate?
    ensures Safe(ReadCount(k), held)
  {
    hide Safe;
    BufferSafe(held + [Flight(k)]);
    BlockSafe(Flight(k), TOUCH_BUFFER, held);
  }

  // ----- the usage purge ------------------------------------------------------------------------

  lemma ResettleInsideSafe(ids: seq<int>, held: seq<Name>)
    requires Low(held) && forall p | p in ids :: Pool(p) in held
    ensures Safe(Resettle(ids), held)
  {
    hide Safe;
    RefreshSafe(held);
    if ids != [] {
      SettlesSafeUnder(|ids|);
      GuardsSafe(ids, Times(|ids|, SETTLE), held, []);
      BothSafe(REFRESH, Guards(ids, Times(|ids|, SETTLE)), held);
      BothSafe(REFRESH + Guards(ids, Times(|ids|, SETTLE)), REFRESH, held);
    }
  }

  lemma PurgeInsideSafe(inner: seq<int>, held: seq<Name>)
    requires Low(held) && forall p | p in inner :: Pool(p) in held
    ensures Safe(Block(Flush, FLUSH + DROP_BUFFERED + Resettle(inner)), held)
  {
    hide Safe;
    var inside := held + [Flush];
    FlushSafe(inside);
    BothSafe(FLUSH, DROP_BUFFERED, inside);
    ResettleInsideSafe(inner, inside);
    BothSafe(FLUSH + DROP_BUFFERED, Resettle(inner), inside);
    BlockSafe(Flush, FLUSH + DROP_BUFFERED + Resettle(inner), held);
  }

  lemma InsideBlock(n: Name, body: seq<Op>, held: seq<Name>)
    requires Disciplined(Block(n, body), held)
    ensures MayEnter(n, held) && Disciplined(body, held + [n])
  {
    assert Block(n, body)[1..] == body + [Out];
    Concat(body, [Out], held + [n]);
  }

  /** With the flush held off, a guard not already held breaks the order. */
  lemma {:induction false} LateGuardBreaksOrder(ids: seq<int>, body: seq<Op>, held: seq<Name>, p: int)
    requires Flush in held && p in ids && Pool(p) !in held
    ensures !Disciplined(Guards(ids, body), held)
    decreases |ids|
  {
    hide Disciplined;
    if Disciplined(Guards(ids, body), held) {
      InsideBlock(Pool(ids[0]), Guards(ids[1..], body), held);
      assert Pool(ids[0]) in held;
      assert ids == [ids[0]] + ids[1..];
      LateGuardBreaksOrder(ids[1..], body, held + [Pool(ids[0])], p);
    }
  }

  ghost predicate Under(inside: seq<Name>, held: seq<Name>, ids: seq<int>) {
    forall m :: m in inside <==> m in held || (m.Pool? && m.id in ids)
  }

  lemma {:induction false} GuardsThen(ids: seq<int>, body: seq<Op>, held: seq<Name>)
    requires Disciplined(Guards(ids, body), held)
    ensures exists inside :: Disciplined(body, inside) && Under(inside, held, ids)
    decreases |ids|
  {
    hide Disciplined;
    if ids == [] {
      assert Under(held, held, ids);
    } else {
      var n := Pool(ids[0]);
      InsideBlock(n, Guards(ids[1..], body), held);
      GuardsThen(ids[1..], body, held + [n]);
      var inside :| Disciplined(body, inside) && Under(inside, held + [n], ids[1..]);
      assert ids == [ids[0]] + ids[1..];
      assert Under(inside, held, ids);
    }
  }

  lemma PurgeInsideOrder(inner: seq<int>, held: seq<Name>, p: int)
    requires Disciplined(Block(Flush, FLUSH + DROP_BUFFERED + Resettle(inner)), held)
    requires Low(held) && p in inner
    ensures Pool(p) in held
  {
    hide Disciplined, After;
    var inside := held + [Flush];
    var before := FLUSH + DROP_BUFFERED;
    InsideBlock(Flush, before + Resettle(inner), held);
    Concat(before, Resettle(inner), inside);
    FlushSafe(inside);
    BothSafe(FLUSH, DROP_BUFFERED, inside);
    RefreshSafe(inside);
    var guards := Guards(inner, Times(|inner|, SETTLE));
    Concat(REFRESH + guards, REFRESH, inside);
    Concat(REFRESH, guards, inside);
    if Pool(p) !in held {
      LateGuardBreaksOrder(inner, Times(|inner|, SETTLE), inside, p);
    }
  }

  /** The purge keeps to the lock order exactly when no purged user has, by the time it resettles, a
      pool that none of them had when it began: those guards are taken with the flush held off. */
  lemma PurgeIsOrderedIff(outer: seq<int>, inner: seq<int>)
    requires Ascending(outer) && Ascending(inner)
    ensures Disciplined(PurgeUsage(outer, inner), []) <==> forall p | p in inner :: p in outer
    ensures Disciplined(PurgeUsage(outer, inner), []) ==> After(PurgeUsage(outer, inner), []) == []
  {
    var body := Block(Flush, FLUSH + DROP_BUFFERED + Resettle(inner));
    if forall p | p in inner :: p in outer {
      forall held | Low(held) && Have(inner, held) ensures Safe(body, held) {
        PurgeInsideSafe(inner, held);
      }
      GuardsSafe(outer, body, [], inner);
    }
    if Disciplined(PurgeUsage(outer, inner), []) {
      GuardsThen(outer, body, []);
      var inside :| Disciplined(body, inside) && Under(inside, [], outer);
      forall p | p in inner ensures p in outer {
        PurgeInsideOrder(inner, inside, p);
      }
    }
  }
}
