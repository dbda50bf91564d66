/** The split as app/auth/pools.py runs it: lists and dictionaries updated in loops. */
module Apportionment {
  import opened Sums
  import opened Sorting
  import opened CappedSplit
  import opened SplitPass
  import opened SplitLaws
  import opened SplitRounds

  method Total(values: map<int, int>, keys: seq<int>) returns (n: int)
    requires NoDuplicates(keys) && Elements(keys) <= values.Keys
    ensures n == Sum(values, Elements(keys))
  {
    n := 0;
    SumNone(values);
    assert Elements(keys[..0]) == {};
    for i := 0 to |keys|
      invariant n == Sum(values, Elements(keys[..i]))
    {
      SeenNext(keys, i);
      assert keys[i] in Elements(keys);
      SumPick(values, Elements(keys[..i+1]), keys[i]);
      assert Elements(keys[..i+1]) - {keys[i]} == Elements(keys[..i]);
      n := n + values[keys[i]];
    }
    assert keys[..|keys|] == keys;
  }

  method FloorShares(t: Terms, active: seq<int>, r: nat, w: int) returns (floors: map<int, int>)
    requires w > 0 && Elements(active) <= t.weight.Keys
    ensures floors == Floors(t, Elements(active), r, w)
  {
    floors := map[];
    for i := 0 to |active|
      invariant floors == Floors(t, Elements(active[..i]), r, w)
    {
      assert active[..i+1] == active[..i] + [active[i]];
      assert active[i] in Elements(active);
      floors := floors[active[i] := r * t.weight[active[i]] / w];
    }
    assert active[..|active|] == active;
  }

  /** The first `extra` members of the sorted list get one request more. */
  method GiveExtra(t: Terms, ghost all: set<int>, r: nat, w: int, order: seq<int>, extra: nat, floors: map<int, int>)
    returns (shares: map<int, int>)
    requires w > 0 && Ranked(t, r, w, order) && Elements(order) == all && floors.Keys == all
    requires extra <= |order|
    ensures shares.Keys == all
    ensures forall u | u in all :: shares[u] == floors[u] + if |Ahead(t, all, r, w, u)| < extra then 1 else 0
  {
    shares := floors;
    for i := 0 to extra
      invariant shares.Keys == all
      invariant forall u | u in all ::
        shares[u] == floors[u] + if |Ahead(t, all, r, w, u)| < i then 1 else 0
    {
      assert order[i] in Elements(order);
      forall v | v in all ensures |Ahead(t, all, r, w, v)| == i <==> v == order[i] {
        PlaceIsUnique(t, all, r, w, order, i, v);
      }
      shares := shares[order[i] := shares[order[i]] + 1];
    }
  }

  lemma PlaceIsUnique(t: Terms, all: set<int>, r: nat, w: int, order: seq<int>, i: nat, v: int)
    requires w > 0 && Ranked(t, r, w, order) && Elements(order) == all && i < |order| && v in all
    ensures |Ahead(t, all, r, w, v)| == i <==> v == order[i]
  {
    RankIsPlace(t, all, r, w, order, i);
    assert v in Elements(order);
    var j :| 0 <= j < |order| && order[j] == v;
    RankIsPlace(t, all, r, w, order, j);
  }

  method HandOutLeftover(t: Terms, active: seq<int>, r: nat, w: int, floors: map<int, int>)
    returns (shares: map<int, int>)
    requires NoDuplicates(active)
    requires Ready(t, Elements(active), r, w) && floors == Floors(t, Elements(active), r, w)
    ensures shares == Pass(t, Elements(active), r, w)
  {
    hide Sum, Pass;
    ghost var all := Elements(active);
    var given := Total(floors, active);
    var leftover := r - given;
    LeftoverFits(t, all, r, w);
    if leftover != 0 {
      var order := Sorted(NotAfter(t, r, w), active);
      SortedByRank(t, r, w, active);
      Fewer(Inexact(t, all, r, w), all);
      PrefixSize(t, r, w, order, |order|);
      assert order[..|order|] == order;
      shares := GiveExtra(t, all, r, w, order, Min(leftover, |order|), floors);
    } else {
      shares := floors;
    }
    IsPass(t, all, r, w, shares);
  }

  lemma IsPass(t: Terms, all: set<int>, r: nat, w: int, shares: map<int, int>)
    requires w > 0 && shares.Keys == all
    requires var extra := Leftover(t, all, r, w);
      forall u | u in all :: shares[u] == Floor(t, r, w, u) + if |Ahead(t, all, r, w, u)| < extra then 1 else 0
    ensures shares == Pass(t, all, r, w)
  {
    hide Sum, Floor, Leftover;
  }

  method MembersOver(t: Terms, active: seq<int>, shares: map<int, int>) returns (over: seq<int>)
    requires NoDuplicates(active)
    requires Elements(active) <= shares.Keys && Elements(active) <= t.headroom.Keys
    ensures NoDuplicates(over) && Elements(over) == Over(t, Elements(active), shares)
  {
    over := [];
    for i := 0 to |active|
      invariant NoDuplicates(over) && Elements(over) == Over(t, Elements(active[..i]), shares)
    {
      SeenNext(active, i);
      assert active[i] in Elements(active);
      ghost var done, x := Elements(active[..i]), active[i];
      assert Over(t, done + {x}, shares) == Over(t, done, shares) + if At(shares, x) > At(t.headroom, x) then {x}
        else {};
      if shares[active[i]] > t.headroom[active[i]] {
        assert active[i] !in Elements(over);
        assert Elements(over + [active[i]]) == Elements(over) + {active[i]};
        over := over + [active[i]];
      }
    }
    assert active[..|active|] == active;
  }

  /** Python's list.remove on a list without duplicates. */
  function Remove(s: seq<int>, u: int): (r: seq<int>)
    ensures |r| <= |s| && (u in s ==> |r| < |s|)
  {
    if s == [] then [] else if s[0] == u then s[1..] else [s[0]] + Remove(s[1..], u)
  }

  lemma {:induction false} RemoveElement(s: seq<int>, u: int)
    requires NoDuplicates(s)
    ensures NoDuplicates(Remove(s, u))
    ensures Elements(Remove(s, u)) == Elements(s) - {u}
  {
    if s != [] {
      assert Elements(s) == {s[0]} + Elements(s[1..]);
      if s[0] == u {
        assert u !in Elements(s[1..]);
      } else {
        RemoveElement(s[1..], u);
        var rest := Remove(s[1..], u);
        assert s[0] !in Elements(rest);
        assert Elements([s[0]] + rest) == {s[0]} + Elements(rest);
      }
    }
  }

  /** Pins the members who hit their cap at their headroom and takes them out of the running. */
  method PinMembers(t: Terms, over: seq<int>, active0: seq<int>, shares0: map<int, int>, remaining0: int)
    returns (active: seq<int>, shares: map<int, int>, remaining: int)
    requires NoDuplicates(over) && NoDuplicates(active0) && Elements(over) <= Elements(active0)
    requires Elements(over) <= t.headroom.Keys
    ensures NoDuplicates(active) && Elements(active) == Elements(active0) - Elements(over)
    ensures shares.Keys == shares0.Keys + Elements(over)
    ensures forall u | u in Elements(over) :: shares[u] == t.headroom[u]
    ensures forall u | u in shares0.Keys - Elements(over) :: shares[u] == shares0[u]
    ensures remaining == remaining0 - Sum(t.headroom, Elements(over))
  {
    hide Sum;
    active, shares, remaining := active0, shares0, remaining0;
    SumNone(t.headroom);
    assert Elements(over[..0]) == {};
    for i := 0 to |over|
      invariant NoDuplicates(active) && Elements(active) == Elements(active0) - Elements(over[..i])
      invariant shares.Keys == shares0.Keys + Elements(over[..i])
      invariant forall u | u in Elements(over[..i]) :: shares[u] == t.headroom[u]
      invariant forall u | u in shares0.Keys - Elements(over[..i]) :: shares[u] == shares0[u]
      invariant remaining == remaining0 - Sum(t.headroom, Elements(over[..i]))
    {
      SeenNext(over, i);
      assert over[i] in Elements(over);
      SumPick(t.headroom, Elements(over[..i+1]), over[i]);
      assert Elements(over[..i+1]) - {over[i]} == Elements(over[..i]);
      shares := shares[over[i] := t.headroom[over[i]]];
      remaining := remaining - t.headroom[over[i]];
      RemoveElement(active, over[i]);
      assert Elements(active0) - Elements(over[..i+1]) == (Elements(active0) - Elements(over[..i])) - {over[i]};
      active := Remove(active, over[i]);
    }
    assert over[..|over|] == over;
  }

  method PinMembersStrictly(t: Terms, over: seq<int>, active0: seq<int>, shares0: map<int, int>, remaining0: int)
    returns (active: seq<int>, shares: map<int, int>, remaining: int)
    requires NoDuplicates(over) && NoDuplicates(active0) && |over| > 0
    requires Elements(over) <= Elements(active0) <= shares0.Keys
    requires Elements(over) <= t.headroom.Keys
    ensures NoDuplicates(active) && Elements(active) == Elements(active0) - Elements(over)
    ensures |active| < |active0|
    ensures shares.Keys == shares0.Keys
    ensures forall u | u in Elements(over) :: shares[u] == At(t.headroom, u)
    ensures forall u | u in shares0.Keys - Elements(over) :: shares[u] == shares0[u]
    ensures remaining == remaining0 - Sum(t.headroom, Elements(over))
  {
    hide Sum;
    active, shares, remaining := PinMembers(t, over, active0, shares0, remaining0);
    ElementsSize(active);
    ElementsSize(active0);
    ElementsSize(over);
    Smaller(Elements(active0), Elements(over));
  }

  /** One run of the loop body's share computation. */
  method RunPass(t: Terms, active: seq<int>, r: nat, w: int) returns (shares: map<int, int>, over: seq<int>)
    requires NoDuplicates(active) && Ready(t, Elements(active), r, w)
    ensures shares == Pass(t, Elements(active), r, w) && shares.Keys == Elements(active)
    ensures NoDuplicates(over) && Elements(over) == Over(t, Elements(active), shares)
  {
    hide Sum;
    var floors := FloorShares(t, active, r, w);
    shares := HandOutLeftover(t, active, r, w, floors);
    over := MembersOver(t, active, shares);
  }

  /** What the loop keeps: the split of everyone ends as the split of those still active does,
      with everyone taken out so far pinned at their headroom. */
  ghost predicate Underway(t: Terms, total: nat, active: set<int>, shares: map<int, int>, remaining: int) {
    var e := Finish(t, t.weight.Keys, total);
    var rest := Finish(t, active, remaining);
    && remaining >= 0 && active <= t.weight.Keys && shares.Keys == t.weight.Keys
    && e == Ending((t.weight.Keys - active) + rest.pinned, rest.open, rest.remaining)
    && (forall u | u in t.weight.Keys - active :: shares[u] == At(t.headroom, u))
    && (forall u | u in active :: shares[u] == 0)
  }

  lemma OverAreActive(t: Terms, active: set<int>, shares: map<int, int>)
    ensures Over(t, active, shares) <= active
  {
  }

  lemma UnderwayKeys(t: Terms, total: nat, active: set<int>, shares: map<int, int>, remaining: int)
    requires Underway(t, total, active, shares, remaining)
    ensures active <= t.weight.Keys == shares.Keys
  {
  }

  /** The loop stops with nothing more to hand out. */
  lemma StoppedEmpty(t: Terms, total: nat, active: set<int>, shares: map<int, int>, remaining: int)
    requires t.Valid() && Underway(t, total, active, shares, remaining)
    requires active == {} || remaining <= 0 || Sum(t.weight, active) == 0
    ensures shares == Split(t, total)
  {
    hide Sum, Pass;
    assert Finish(t, active, remaining) == Ending({}, active, remaining);
    forall u | u in t.weight.Keys ensures shares[u] == Split(t, total)[u] {
    }
  }

  /** The loop stops because a pass fits everyone. */
  lemma StoppedFitting(t: Terms, total: nat, active: set<int>, shares: map<int, int>, remaining: int,
                       final: map<int, int>)
    requires t.Valid() && Underway(t, total, active, shares, remaining)
    requires remaining > 0 && Sum(t.weight, active) > 0
    requires Over(t, active, Pass(t, active, remaining, Sum(t.weight, active))) == {}
    requires final.Keys == t.weight.Keys
    requires forall u | u in active :: At(final, u) == At(Pass(t, active, remaining, Sum(t.weight, active)), u)
    requires forall u | u in t.weight.Keys - active :: At(final, u) == At(shares, u)
    ensures final == Split(t, total)
  {
    hide Sum, Pass;
    assert Finish(t, active, remaining) == Ending({}, active, remaining);
    forall u | u in t.weight.Keys ensures final[u] == Split(t, total)[u] {
    }
  }

  lemma FinishStep(t: Terms, active: set<int>, remaining: nat, over: set<int>)
    requires t.Valid() && active <= t.weight.Keys
    requires remaining > 0 && Sum(t.weight, active) > 0
    requires over == Over(t, active, Pass(t, active, remaining, Sum(t.weight, active))) && over != {}
    ensures remaining - Sum(t.headroom, over) > 0
    ensures var rest := Finish(t, active - over, remaining - Sum(t.headroom, over));
      Finish(t, active, remaining) == Ending(over + rest.pinned, rest.open, rest.remaining)
  {
    hide Sum, Pass;
    PinningLeavesSome(t, active, remaining, Sum(t.weight, active), over);
    SumNone(t.weight);
  }

  lemma StepUnderway(t: Terms, total: nat, active: set<int>, shares: map<int, int>, remaining: int,
                     over: set<int>, shares1: map<int, int>)
    requires t.Valid() && Underway(t, total, active, shares, remaining)
    requires remaining > 0 && Sum(t.weight, active) > 0
    requires over == Over(t, active, Pass(t, active, remaining, Sum(t.weight, active))) && over != {}
    requires shares1.Keys == t.weight.Keys
    requires forall u | u in over :: shares1[u] == At(t.headroom, u)
    requires forall u | u in t.weight.Keys - over :: shares1[u] == shares[u]
    ensures Underway(t, total, active - over, shares1, remaining - Sum(t.headroom, over))
  {
    hide Sum, Pass, Finish;
    FinishStep(t, active, remaining, over);
    var rest1 := Finish(t, active - over, remaining - Sum(t.headroom, over));
    Regroup(t.weight.Keys, active, over, rest1.pinned);
  }

  lemma Regroup(all: set<int>, active: set<int>, over: set<int>, pinned: set<int>)
    requires over <= active <= all
    ensures all - (active - over) == (all - active) + over
    ensures (all - active) + (over + pinned) == (all - (active - over)) + pinned
  {
  }

  lemma StartUnderway(t: Terms, total: nat, shares: map<int, int>)
    requires t.Valid() && shares.Keys == t.weight.Keys && forall u | u in shares :: shares[u] == 0
    ensures Underway(t, total, t.weight.Keys, shares, total)
  {
    hide Sum, Pass, Finish;
    assert t.weight.Keys - t.weight.Keys == {};
  }

  method AssignAll(active: seq<int>, floors: map<int, int>, shares0: map<int, int>) returns (shares: map<int, int>)
    requires NoDuplicates(active) && Elements(active) <= floors.Keys && Elements(active) <= shares0.Keys
    ensures shares.Keys == shares0.Keys
    ensures forall u | u in Elements(active) :: At(shares, u) == At(floors, u)
    ensures forall u | u in shares0.Keys - Elements(active) :: At(shares, u) == At(shares0, u)
  {
    shares := shares0;
    for i := 0 to |active|
      invariant shares.Keys == shares0.Keys
      invariant forall u | u in Elements(active[..i]) :: At(shares, u) == At(floors, u)
      invariant forall u | u in shares0.Keys - Elements(active) :: At(shares, u) == At(shares0, u)
    {
      SeenNext(active, i);
      assert active[i] in Elements(active);
      shares := shares[active[i] := floors[active[i]]];
    }
    assert active[..|active|] == active;
  }

  /** The loop of `apportion`, over already signless amounts. */
  method SplitLoop(t: Terms, ids: seq<int>, total: nat) returns (shares: map<int, int>, ghost passes: nat)
    requires t.Valid() && NoDuplicates(ids) && Elements(ids) == t.weight.Keys
    ensures shares == Split(t, total)
    ensures passes <= |ids|
  {
    hide Sum, Pass, Finish, Split, Underway, Over;
    passes := 0;
    shares := map u | u in ids :: 0;
    assert shares.Keys == Elements(ids);
    var active, remaining := ids, total as int;
    StartUnderway(t, total, shares);
    while |active| > 0 && remaining > 0
      invariant NoDuplicates(active) && |active| + passes <= |ids|
      invariant Underway(t, total, Elements(active), shares, remaining)
      decreases |active|
    {
      UnderwayKeys(t, total, Elements(active), shares, remaining);
      var weightSum := Total(t.weight, active);
      SumsAreNatural(t, Elements(active));
      if weightSum == 0 {
        break;
      }
      var floors, over := RunPass(t, active, remaining, weightSum);
      passes := passes + 1;
      ghost var was, had, left := Elements(active), shares, remaining;
      if |over| == 0 {
        assert Elements(over) == {};
        shares := AssignAll(active, floors, shares);
        StoppedFitting(t, total, was, had, left, shares);
        return;
      }
      assert over[0] in Elements(over);
      OverAreActive(t, Elements(active), floors);
      active, shares, remaining := PinMembersStrictly(t, over, active, shares, remaining);
      StepUnderway(t, total, was, had, left, Elements(over), shares);
    }
    assert |active| == 0 ==> Elements(active) == {};
    StoppedEmpty(t, total, Elements(active), shares, remaining);
  }

  /** `apportion`: the loop ends with the specified shares after at most one pass per member. */
  method Apportion(delta: int, members: seq<MemberShare>) returns (result: map<int, int>, ghost passes: nat)
    requires Distinct(members)
    ensures result == Shares(delta, members)
    ensures SharesAreInRounds(delta, members, result)
    ensures passes <= |members|
  {
    hide Sum, Split, SharesAreInRounds;
    var refunding := delta < 0;
    var total: nat := if refunding then -delta else delta;
    var ids := seq(|members|, i requires 0 <= i < |members| => members[i].userId);
    forall u | u in Ids(members) ensures u in Elements(ids) {
      var i :| 0 <= i < |members| && members[i].userId == u;
      assert ids[i] == u;
    }
    assert Elements(ids) == Ids(members);
    TermsAreValid(members, refunding);
    var shares;
    shares, passes := SplitLoop(TermsOf(members, refunding), ids, total);
    result := if refunding then map u | u in shares :: -shares[u] else shares;
    SharesInRounds(delta, members);
  }

}
