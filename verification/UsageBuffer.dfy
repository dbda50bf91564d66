/** The in-memory usage buffer of app/request_tracker.py: what each operation on it means, and
    the operations themselves, updating the dictionaries in place. */
module UsageBuffer {
  import opened Options
  import opened Sums
  import opened ModelNames

  datatype UsageKey = UsageKey(date: int, hour: int, userId: int, identity: string, userType: string,
                               model: string, server: string, poolId: int)

  /** The unique keys of the daily and hourly tables: identity and type are only labels. */
  datatype DayKey = DayKey(date: int, userId: int, model: string, server: string, poolId: int)
  datatype HourKey = HourKey(date: int, hour: int, userId: int, model: string, server: string, poolId: int)

  function DayOf(k: UsageKey): DayKey { DayKey(k.date, k.userId, k.model, k.server, k.poolId) }
  function HourOf(k: UsageKey): HourKey { HourKey(k.date, k.hour, k.userId, k.model, k.server, k.poolId) }

  type Buffer = map<UsageKey, int>

  /** Only positive counts are kept. */
  ghost predicate Positive(b: Buffer) { forall k | k in b :: b[k] > 0 }

  datatype Axis = ByUser(userId: int) | ByModel(model: string) | ByPool(poolId: int)

  predicate OnAxis(axis: Axis, userId: int, model: string, poolId: int) {
    match axis
    case ByUser(u) => userId == u
    case ByModel(m) => model == m
    case ByPool(p) => poolId == p
  }

  predicate Matches(axis: Axis, k: UsageKey) { OnAxis(axis, k.userId, k.model, k.poolId) }
  predicate DayMatches(axis: Axis, k: DayKey) { OnAxis(axis, k.userId, k.model, k.poolId) }
  predicate HourMatches(axis: Axis, k: HourKey) { OnAxis(axis, k.userId, k.model, k.poolId) }

  // ----- in-flight requests -----------------------------------------------------

  datatype ActiveRequest = ActiveRequest(server: string, model: Option<string>, identity: string, userType: string,
                                         userId: Option<int>)

  datatype Status = Completed | Cancelled | Errored

  /** Only a completed or cancelled request of an authenticated user that names a model is counted. */
  predicate IsCounted(r: ActiveRequest, status: Status) {
    && r.model.Some? && r.model.value != ""
    && r.userType != "unknown"
    && r.userId.Some?
    && status != Errored
  }

  /** BYOK traffic is never a pool's. */
  function KeyFor(r: ActiveRequest, date: int, hour: int, poolId: int): UsageKey
    requires r.model.Some? && r.userId.Some?
  {
    UsageKey(date, hour, r.userId.value, r.identity, r.userType, r.model.value, r.server,
             if IsByokModel(r.model.value) then 0 else poolId)
  }

  // ----- what the operations mean ------------------------------------------------

  function Bump(b: Buffer, k: UsageKey): Buffer { b[k := At(b, k) + 1] }

  /** Subtracting a flushed snapshot; whatever it takes to 0 or below is deleted. */
  function Minus(b: Buffer, snapshot: Buffer): Buffer {
    map k | k in b.Keys + snapshot.Keys && (k in snapshot ==> At(b, k) - snapshot[k] > 0) :: At(b, k) - At(snapshot, k)
  }

  function Dropped(b: Buffer, axis: Axis): Buffer {
    map k | k in b && !Matches(axis, k) :: b[k]
  }

  ghost function OnAxisKeys(b: Buffer, axis: Axis): set<UsageKey> {
    set k | k in b && Matches(axis, k)
  }

  ghost function MatchingKeys(b: Buffer, date: int, userIds: set<int>, matching: string -> bool): set<UsageKey> {
    set k | k in b && k.date == date && k.userId in userIds && matching(k.model)
  }

  function Relabel(k: UsageKey, userId: int, name: string): UsageKey {
    if k.userId == userId then k.(identity := name) else k
  }

  ghost function RelabelAs(userId: int, name: string): UsageKey -> UsageKey {
    k => Relabel(k, userId, name)
  }

  /** Every count of the user under their new name, merged with what that name already has. */
  ghost predicate IsRelabelled(b: Buffer, b': Buffer, userId: int, name: string) {
    && (forall k :: At(b', k) == Group(b, RelabelAs(userId, name), k))
    && (forall k | k in b' :: k.userId == userId ==> k.identity == name)
  }

  function RenameRequest(r: ActiveRequest, userId: int, name: string): ActiveRequest {
    if r.userId == Some(userId) then r.(identity := name) else r
  }

  function ForgetRequest(r: ActiveRequest, userId: int): ActiveRequest {
    if r.userId == Some(userId) then r.(userId := None) else r
  }

  // ----- effect of each on grouped counts ---------------------------------------------

  lemma MinusAt(b: Buffer, snapshot: Buffer, k: UsageKey)
    requires k in snapshot ==> snapshot[k] <= At(b, k)
    ensures At(Minus(b, snapshot), k) == At(b, k) - At(snapshot, k)
  {
  }

  /** Subtracting a snapshot that is nowhere above the buffer loses no count. */
  lemma MinusGroup<G>(b: Buffer, snapshot: Buffer, f: UsageKey -> G, g: G)
    requires forall k | k in snapshot :: snapshot[k] <= At(b, k)
    ensures Group(Minus(b, snapshot), f, g) == Group(b, f, g) - Group(snapshot, f, g)
  {
    hide Minus, Group;
    forall k ensures At(Minus(b, snapshot), k) == At(b, k) + (-1) * At(snapshot, k) {
      MinusAt(b, snapshot, k);
    }
    GroupPlus(Minus(b, snapshot), b, -1, snapshot, f, g);
  }

  lemma DroppedGroup<G>(b: Buffer, axis: Axis, f: UsageKey -> G, g: G, gone: bool)
    requires forall k | f(k) == g :: Matches(axis, k) <==> gone
    ensures Group(Dropped(b, axis), f, g) == if gone then 0 else Group(b, f, g)
  {
    hide Sum;
    var b' := Dropped(b, axis);
    if gone {
      assert Fiber(b', f, g) == {};
      SumNone(b');
    } else {
      assert Fiber(b', f, g) == Fiber(b, f, g);
      SumSame(b, b', Fiber(b, f, g));
    }
  }

  /** Renaming changes no count that is read without the label. */
  lemma RelabelledGroup<G>(b: Buffer, b': Buffer, userId: int, name: string, f: UsageKey -> G, g: G)
    requires IsRelabelled(b, b', userId, name)
    requires forall k :: f(Relabel(k, userId, name)) == f(k)
    ensures Group(b', f, g) == Group(b, f, g)
  {
    hide Sum;
    var r := RelabelAs(userId, name);
    var into := (set k | k in b && f(k) == g :: r(k)) + Fiber(b', f, g);
    forall k | k in into ensures f(k) == g {
    }
    GroupsAddUp(b, r, b', into);
    SumSupport(b', into, Fiber(b', f, g));
    assert FiberOver(b, r, into) == Fiber(b, f, g);
  }

  // ----- the tracker ------------------------------------------------------------------

  class RequestTracker {
    var active: map<string, ActiveRequest>
    var buffer: Buffer

    constructor ()
      ensures active == map[] && buffer == map[]
    {
      active, buffer := map[], map[];
    }

    /** end_request: the pop and the increment happen together. */
    method EndRequest(id: string, status: Status, date: int, hour: int, poolId: int)
      modifies this
      ensures active == old(active) - {id}
      ensures id !in old(active) ==> buffer == old(buffer)
      ensures id in old(active) ==>
        var r := old(active)[id];
        // errored, without a model, of an unknown or unattributed user: no trace
        if status == Errored || r.model in {None, Some("")} || r.userType == "unknown" || r.userId == None then
          buffer == old(buffer)
        // completed or cancelled: exactly one more, under these fields
        else
          exists k: UsageKey ::
            && buffer == old(buffer)[k := At(old(buffer), k) + 1]
            && k.date == date && k.hour == hour && Some(k.userId) == r.userId && Some(k.model) == r.model
            && k.identity == r.identity && k.userType == r.userType && k.server == r.server
            && (k.poolId == 0 <==> poolId == 0 || IsByokModel(k.model)) && (k.poolId == 0 || k.poolId == poolId)
      ensures id in old(active) && IsCounted(old(active)[id], status) ==>
        buffer == Bump(old(buffer), KeyFor(old(active)[id], date, hour, poolId))
      ensures !(id in old(active) && IsCounted(old(active)[id], status)) ==> buffer == old(buffer)
    {
      if id in active {
        var entry := active[id];
        active := active - {id};
        if IsCounted(entry, status) {
          var key := KeyFor(entry, date, hour, poolId);
          buffer := buffer[key := At(buffer, key) + 1];
          CountedUnder(old(buffer), entry, date, hour, poolId);
        } else {
          NotCounted(entry, status);
        }
      }
    }

    /** The last part of a flush: each flushed count comes off, and keys left with nothing go. */
    method SubtractSnapshot(snapshot: Buffer)
      modifies this`buffer
      ensures buffer == Minus(old(buffer), snapshot)
      ensures forall k | k !in snapshot :: (k in buffer <==> k in old(buffer)) && At(buffer, k) == At(old(buffer), k)
      ensures forall k | k in snapshot ::
        if At(old(buffer), k) > snapshot[k] then k in buffer && buffer[k] == At(old(buffer), k) - snapshot[k]
        else k !in buffer
    {
      hide Subtracted, Minus, Seen;
      var keys := ListKeys(snapshot);
      ghost var b := buffer;
      SubtractedNothing(b, snapshot);
      NoneSeen(keys);
      for i := 0 to |keys|
        invariant buffer == Subtracted(b, snapshot, Seen(keys, i))
      {
        var key := keys[i];
        SeenNext(keys, i);
        SubtractedNext(b, snapshot, Seen(keys, i), key);
        var left := At(buffer, key) - snapshot[key];
        if left <= 0 {
          buffer := buffer - {key};
        } else {
          buffer := buffer[key := left];
        }
      }
      SeenAll(keys, snapshot);
      SubtractedAll(b, snapshot);
      forall k ensures
        if k !in snapshot then (k in buffer <==> k in b) && At(buffer, k) == At(b, k)
        else if At(b, k) > snapshot[k] then k in buffer && buffer[k] == At(b, k) - snapshot[k]
        else k !in buffer
      {
        MinusMeans(b, snapshot, k);
      }
    }

    /** drop_buffered_usage: returns how many requests were dropped. */
    method DropBuffered(axis: Axis) returns (dropped: int)
      modifies this`buffer
      ensures buffer == Dropped(old(buffer), axis)
      ensures dropped == Sum(old(buffer), OnAxisKeys(old(buffer), axis))
      ensures forall k: UsageKey ::
        k in buffer <==> k in old(buffer) && axis !in {ByUser(k.userId), ByModel(k.model), ByPool(k.poolId)}
      ensures forall k | k in buffer :: buffer[k] == old(buffer)[k]
      ensures dropped == Sum(old(buffer), old(buffer).Keys - buffer.Keys)
    {
      hide Sum, Gone, Seen, Matches;
      var keys := ListKeys(buffer);
      ghost var b := buffer;
      dropped := 0;
      GoneNone(b, keys, axis);
      for i := 0 to |keys|
        invariant dropped == Sum(b, Gone(keys, i, axis))
        invariant buffer == b - Gone(keys, i, axis)
      {
        var key := keys[i];
        GoneNext(b, keys, i, axis);
        if Matches(axis, key) {
          dropped := dropped + buffer[key];
          buffer := buffer - {key};
        }
      }
      GoneAll(b, keys, axis);
      DroppedMeans(b, axis);
    }

    /** rename_identity: in-flight and buffered usage of the user goes under the new name. */
    method RenameIdentity(userId: int, name: string)
      modifies this
      ensures active == map id | id in old(active) :: RenameRequest(old(active)[id], userId, name)
      ensures IsRelabelled(old(buffer), buffer, userId, name)
      ensures active.Keys == old(active).Keys
      ensures forall id | id in active ::
        active[id] == if old(active)[id].userId == Some(userId) then old(active)[id].(identity := name)
          else old(active)[id]
      ensures forall k: UsageKey | k.userId != userId :: At(buffer, k) == At(old(buffer), k)
      ensures forall k: UsageKey | k.userId == userId && k.identity != name :: k !in buffer
      ensures forall k: UsageKey | k.userId == userId && k.identity == name ::
        At(buffer, k) == Sum(old(buffer), set j | j in old(buffer) && j.(identity := name) == k)
    {
      hide Sum;
      active := map id | id in active :: RenameRequest(active[id], userId, name);
      MoveEntries(userId, name);
      RelabelledMeans(old(buffer), buffer, userId, name);
    }

    /** One entry: if it is the user's under another name, it is popped and added to its relabelled key. */
    method MoveEntry(key: UsageKey, userId: int, name: string)
      requires key in buffer
      modifies this`buffer
      ensures var r := Relabel(key, userId, name);
        && (forall k ::
              At(buffer, k) == At(old(buffer), k)
                + (if k == r then old(buffer)[key] else 0) - (if k == key then old(buffer)[key] else 0))
        && buffer.Keys == (if r == key then old(buffer).Keys else old(buffer).Keys - {key} + {r})
    {
      if key.userId == userId && key.identity != name {
        var relabelled := key.(identity := name);
        var n := buffer[key];
        buffer := buffer - {key};
        buffer := buffer[relabelled := At(buffer, relabelled) + n];
      }
    }

    /** The loop of rename_identity over every buffered key. */
    method MoveEntries(userId: int, name: string)
      modifies this`buffer
      ensures IsRelabelled(old(buffer), buffer, userId, name)
    {
      hide Sum, Moved, Moving, Relabel, Seen;
      var keys := ListKeys(buffer);
      ghost var b := buffer;
      MovingNothing(b, userId, name);
      NoneSeen(keys);
      for i := 0 to |keys|
        invariant Moving(b, buffer, Seen(keys, i), userId, name)
      {
        SeenNext(keys, i);
        assert keys[i] in b;
        StillThere(b, buffer, Seen(keys, i), keys[i], userId, name);
        ghost var now := buffer;
        MoveEntry(keys[i], userId, name);
        MovingNext(b, now, buffer, Seen(keys, i), keys[i], userId, name);
      }
      SeenAll(keys, b);
      MovingEverything(b, buffer, userId, name);
    }

    /** forget_user: buffered counts go, in-flight requests stop being attributed. */
    method ForgetUser(userId: int) returns (dropped: int)
      modifies this
      ensures active == map id | id in old(active) :: ForgetRequest(old(active)[id], userId)
      ensures buffer == Dropped(old(buffer), ByUser(userId))
      ensures dropped == Sum(old(buffer), OnAxisKeys(old(buffer), ByUser(userId)))
      ensures active.Keys == old(active).Keys
      ensures forall id | id in active ::
        active[id] == if old(active)[id].userId == Some(userId) then old(active)[id].(userId := None)
          else old(active)[id]
      ensures forall k: UsageKey :: k in buffer <==> k in old(buffer) && k.userId != userId
      ensures forall k | k in buffer :: buffer[k] == old(buffer)[k]
      ensures dropped == Sum(old(buffer), old(buffer).Keys - buffer.Keys)
    {
      active := map id | id in active :: ForgetRequest(active[id], userId);
      dropped := DropBuffered(ByUser(userId));
    }

    /** The buffer half of a today-count: every matching count, once. */
    method CountBuffered(date: int, userIds: set<int>, matching: string -> bool) returns (n: int)
      ensures n == Sum(buffer, MatchingKeys(buffer, date, userIds, matching))
      ensures n == Sum(buffer, set k | k in buffer && k.date == date && k.userId in userIds && matching(k.model))
    {
      hide Sum;
      var keys := ListKeys(buffer);
      n := 0;
      SumNone(buffer);
      ghost var seen: set<UsageKey> := {};
      for i := 0 to |keys|
        invariant seen == set k | k in Seen(keys, i) && k.date == date && k.userId in userIds && matching(k.model)
        invariant n == Sum(buffer, seen)
      {
        var key := keys[i];
        SeenNext(keys, i);
        if key.date == date && key.userId in userIds && matching(key.model) {
          n := n + buffer[key];
          SumPick(buffer, seen + {key}, key);
          assert seen + {key} - {key} == seen;
          seen := seen + {key};
        }
      }
      SeenAll(keys, buffer);
      assert seen == MatchingKeys(buffer, date, userIds, matching);
    }
  }

  // ----- which requests count, and under which key ------------------------------------

  lemma NotCounted(r: ActiveRequest, status: Status)
    requires !IsCounted(r, status)
    ensures status == Errored || r.model in {None, Some("")} || r.userType == "unknown" || r.userId == None
  {
  }

  lemma CountedUnder(b: Buffer, r: ActiveRequest, date: int, hour: int, poolId: int)
    requires r.model.Some? && r.userId.Some?
    ensures exists k: UsageKey ::
      && Bump(b, KeyFor(r, date, hour, poolId)) == b[k := At(b, k) + 1]
      && k.date == date && k.hour == hour && Some(k.userId) == r.userId && Some(k.model) == r.model
      && k.identity == r.identity && k.userType == r.userType && k.server == r.server
      && (k.poolId == 0 <==> poolId == 0 || IsByokModel(k.model)) && (k.poolId == 0 || k.poolId == poolId)
  {
    var k := KeyFor(r, date, hour, poolId);
    assert Bump(b, k) == b[k := At(b, k) + 1];
  }

  // ----- what these come to, key by key ----------------------------------------------

  lemma MinusMeans(b: Buffer, snapshot: Buffer, k: UsageKey)
    ensures var left := Minus(b, snapshot);
      if k !in snapshot then (k in left <==> k in b) && At(left, k) == At(b, k)
      else if At(b, k) > snapshot[k] then k in left && left[k] == At(b, k) - snapshot[k]
      else k !in left
  {
  }

  lemma DroppedMeans(b: Buffer, axis: Axis)
    ensures b.Keys - Dropped(b, axis).Keys == OnAxisKeys(b, axis)
    ensures forall k: UsageKey :: 
      k in Dropped(b, axis) <==> k in b && axis !in {ByUser(k.userId), ByModel(k.model), ByPool(k.poolId)}
  {
  }

  lemma RelabelledMeans(b: Buffer, b': Buffer, userId: int, name: string)
    requires IsRelabelled(b, b', userId, name)
    ensures forall k: UsageKey | k.userId != userId :: At(b', k) == At(b, k)
    ensures forall k: UsageKey | k.userId == userId && k.identity == name ::
      At(b', k) == Sum(b, set j | j in b && j.(identity := name) == k)
  {
    hide Sum;
    forall k: UsageKey | k.userId != userId ensures At(b', k) == At(b, k) {
      var at := Fiber(b, RelabelAs(userId, name), k);
      if k in b {
        assert at == {k};
        SumPick(b, at, k);
        assert at - {k} == {};
      } else {
        assert at == {};
      }
      SumNone(b);
    }
    forall k: UsageKey | k.userId == userId && k.identity == name
      ensures At(b', k) == Sum(b, set j | j in b && j.(identity := name) == k)
    {
      assert Fiber(b, RelabelAs(userId, name), k) == set j | j in b && j.(identity := name) == k;
    }
  }

  // ----- subtracting entries one at a time ------------------------------------------

  lemma NoneSeen(keys: seq<UsageKey>)
    ensures Seen(keys, 0) == {}
  {
  }

  /** The buffer with the snapshot's entries in `done` subtracted. */
  function Subtracted(b: Buffer, snapshot: Buffer, done: set<UsageKey>): Buffer {
    map k | k in b.Keys + done && (k in done ==> At(b, k) - At(snapshot, k) > 0) ::
      At(b, k) - if k in done then At(snapshot, k) else 0
  }

  lemma SubtractedNothing(b: Buffer, snapshot: Buffer)
    ensures Subtracted(b, snapshot, {}) == b
  {
  }

  lemma SubtractedNext(b: Buffer, snapshot: Buffer, done: set<UsageKey>, key: UsageKey)
    requires key in snapshot && key !in done
    ensures var now := Subtracted(b, snapshot, done);
      var left := At(now, key) - snapshot[key];
      Subtracted(b, snapshot, done + {key}) == if left <= 0 then now - {key} else now[key := left]
  {
    var now := Subtracted(b, snapshot, done);
    assert At(now, key) == At(b, key);
  }

  lemma SubtractedAll(b: Buffer, snapshot: Buffer)
    ensures Subtracted(b, snapshot, snapshot.Keys) == Minus(b, snapshot)
  {
  }

  // ----- dropping entries one at a time ---------------------------------------------

  ghost function Gone(keys: seq<UsageKey>, n: nat, axis: Axis): set<UsageKey>
    requires n <= |keys|
  {
    set k | k in keys[..n] && Matches(axis, k)
  }

  lemma GoneNone(b: Buffer, keys: seq<UsageKey>, axis: Axis)
    ensures Sum(b, Gone(keys, 0, axis)) == 0 && b - Gone(keys, 0, axis) == b
  {
    hide Sum;
    assert Gone(keys, 0, axis) == {};
    SumNone(b);
  }

  lemma GoneNext(b: Buffer, keys: seq<UsageKey>, i: nat, axis: Axis)
    requires i < |keys| && (forall k :: k in keys <==> k in b)
    requires NoDuplicates(keys)
    ensures keys[i] in b && keys[i] !in Gone(keys, i, axis)
    ensures Gone(keys, i + 1, axis) == if Matches(axis, keys[i]) then Gone(keys, i, axis) + {keys[i]}
      else Gone(keys, i, axis)
    ensures Sum(b, Gone(keys, i + 1, axis)) == Sum(b, Gone(keys, i, axis)) + if Matches(axis, keys[i]) then b[keys[i]]
      else 0
  {
    hide Sum, Matches;
    var gone := Gone(keys, i, axis);
    assert keys[..i + 1] == keys[..i] + [keys[i]];
    if Matches(axis, keys[i]) {
      SumPick(b, gone + {keys[i]}, keys[i]);
      assert gone + {keys[i]} - {keys[i]} == gone;
    }
  }

  lemma GoneAll(b: Buffer, keys: seq<UsageKey>, axis: Axis)
    requires forall k :: k in keys <==> k in b
    ensures Gone(keys, |keys|, axis) == OnAxisKeys(b, axis)
    ensures b - Gone(keys, |keys|, axis) == Dropped(b, axis)
  {
    hide Matches;
    assert keys[..|keys|] == keys;
  }

  // ----- moving entries one at a time -----------------------------------------------

  predicate Stale(k: UsageKey, userId: int, name: string) { k.userId == userId && k.identity != name }

  ghost function MovedInto(b: Buffer, r: UsageKey -> UsageKey, done: set<UsageKey>, k: UsageKey): set<UsageKey> {
    set j | j in b && j in done && r(j) == k
  }

  /** The buffer with the entries in `done` moved to their projections and the rest in place. */
  ghost function Moved(b: Buffer, r: UsageKey -> UsageKey, done: set<UsageKey>, k: UsageKey): int {
    Sum(b, MovedInto(b, r, done, k)) + if k in done then 0 else At(b, k)
  }

  lemma MovedNothing(b: Buffer, r: UsageKey -> UsageKey)
    ensures forall k :: Moved(b, r, {}, k) == At(b, k)
  {
    hide Sum;
    forall k ensures Moved(b, r, {}, k) == At(b, k) {
      assert MovedInto(b, r, {}, k) == {};
      SumNone(b);
    }
  }

  lemma MovedEverything(b: Buffer, r: UsageKey -> UsageKey)
    ensures forall k :: Moved(b, r, b.Keys, k) == Group(b, r, k)
  {
    hide Sum;
    forall k ensures Moved(b, r, b.Keys, k) == Group(b, r, k) {
      assert MovedInto(b, r, b.Keys, k) == Fiber(b, r, k);
    }
  }

  /** Moving `key` adds its count to where it goes and takes it from where it was. */
  ghost function Shift(b: Buffer, r: UsageKey -> UsageKey, key: UsageKey, k: UsageKey): int
    requires key in b
  {
    (if k == r(key) then b[key] else 0) - (if k == key then b[key] else 0)
  }

  lemma MovedOneMore(b: Buffer, r: UsageKey -> UsageKey, done: set<UsageKey>, key: UsageKey)
    requires key in b && key !in done
    ensures forall k :: Moved(b, r, done + {key}, k) == Moved(b, r, done, k) + Shift(b, r, key, k)
  {
    hide Sum;
    forall k ensures Moved(b, r, done + {key}, k) == Moved(b, r, done, k) + Shift(b, r, key, k) {
      var s, s' := MovedInto(b, r, done, k), MovedInto(b, r, done + {key}, k);
      if k == r(key) {
        assert s' - {key} == s;
        SumPick(b, s', key);
      } else {
        assert s' == s;
      }
    }
  }

  /** An entry that is about to move still holds exactly its own count. */
  lemma MovedStays(b: Buffer, r: UsageKey -> UsageKey, done: set<UsageKey>, key: UsageKey)
    requires key in b && key !in done && forall j :: r(j) != key
    ensures Moved(b, r, done, key) == b[key]
  {
    hide Sum;
    assert MovedInto(b, r, done, key) == {};
    SumNone(b);
  }

  /** The buffer `now`, with the entries in `done` moved, out of `b`. */
  ghost predicate Moving(b: Buffer, now: Buffer, done: set<UsageKey>, userId: int, name: string) {
    && (forall k :: At(now, k) == Moved(b, RelabelAs(userId, name), done, k))
    && b.Keys - done <= now.Keys
    && (forall k | k in now && Stale(k, userId, name) :: k in b && k !in done)
  }

  lemma MovingNothing(b: Buffer, userId: int, name: string)
    ensures Moving(b, b, {}, userId, name)
  {
    hide Moved;
    MovedNothing(b, RelabelAs(userId, name));
  }

  lemma StillThere(b: Buffer, now: Buffer, done: set<UsageKey>, key: UsageKey, userId: int, name: string)
    requires Moving(b, now, done, userId, name) && key in b && key !in done
    ensures key in now
  {
    hide Moved;
  }

  lemma MovingNext(b: Buffer, now: Buffer, next: Buffer, done: set<UsageKey>, key: UsageKey, userId: int, name: string)
    requires Moving(b, now, done, userId, name) && key in b && key !in done && key in now
    requires var r := Relabel(key, userId, name);
      && (forall k :: At(next, k) == At(now, k) + (if k == r then now[key] else 0) - (if k == key then now[key] else 0))
      && next.Keys == (if r == key then now.Keys else now.Keys - {key} + {r})
    ensures Moving(b, next, done + {key}, userId, name)
  {
    hide Moved;
    var r := RelabelAs(userId, name);
    MovedOneMore(b, r, done, key);
    if r(key) != key {
      MovedStays(b, r, done, key);
    }
  }

  lemma MovingEverything(b: Buffer, now: Buffer, userId: int, name: string)
    requires Moving(b, now, b.Keys, userId, name)
    ensures IsRelabelled(b, now, userId, name)
  {
    hide Moved, Group;
    MovedEverything(b, RelabelAs(userId, name));
  }
}
