/** Laws of the whole capped split: exact total, bounds, the final level, and independence of list order. */
module SplitLaws {
  import opened Arith
  import opened Sums
  import opened CappedSplit
  import opened SplitPass

  // ----- pinning members at their headroom ---------------------------------

  /** A member over their headroom has a positive weight and lies strictly below the pass's level. */
  lemma OverIsBelowLevel(t: Terms, active: set<int>, r: nat, w: int, u: int)
    requires Ready(t, active, r, w)
    requires u in Over(t, active, Pass(t, active, r, w))
    ensures At(t.weight, u) > 0
    ensures At(t.headroom, u) * w < r * At(t.weight, u)
  {
    PassIsRounding(t, active, r, w, u);
    RoundedAbove(w, At(Pass(t, active, r, w), u), At(t.headroom, u), r * At(t.weight, u));
  }

  /** Pinning members leaves something to share with the rest. */
  lemma PinningLeavesSome(t: Terms, active: set<int>, r: nat, w: int, over: set<int>)
    requires Ready(t, active, r, w)
    requires over == Over(t, active, Pass(t, active, r, w)) && over != {}
    ensures r - Sum(t.headroom, over) > 0
  {
    var share := Pass(t, active, r, w);
    PassTotal(t, active, r, w);
    SumSplit(share, active, over);
    forall u | u in active ensures At(share, u) >= 0 {
      PassIsRounding(t, active, r, w, u);
    }
    SumNonNegative(share, active - over);
    var k := AnElement(over);
    SumPick(share, over, k);
    SumPick(t.headroom, over, k);
    SumLe(t.headroom, share, over - {k});
  }

  /** How far each pinned member lies below the level, in units of `1 / w`. */
  ghost function Slack(t: Terms, over: set<int>, r: int, w: int): map<int, int> {
    map u | u in over :: r * At(t.weight, u) - w * At(t.headroom, u)
  }

  lemma SlackTotal(t: Terms, over: set<int>, r: int, w: int)
    ensures Sum(Slack(t, over, r, w), over) == r * Sum(t.weight, over) - w * Sum(t.headroom, over)
  {
    var s := Slack(t, over, r, w);
    var h := map u | u in over :: w * At(t.headroom, u);
    SumLinear(h, w, t.headroom, 0, h, over);
    SumLinear(s, r, t.weight, -1, h, over);
  }

  /** Pinning strictly raises the level `r / w` for the rest. */
  lemma PinningRaisesLevel(t: Terms, active: set<int>, r: nat, w: int, over: set<int>)
    requires Ready(t, active, r, w)
    requires over == Over(t, active, Pass(t, active, r, w)) && over != {}
    ensures r * (w - Sum(t.weight, over)) < (r - Sum(t.headroom, over)) * w
  {
    var slack := Slack(t, over, r, w);
    SlackTotal(t, over, r, w);
    forall u | u in over ensures At(slack, u) >= 1 {
      OverIsBelowLevel(t, active, r, w, u);
      assert w * At(t.headroom, u) == At(t.headroom, u) * w;
    }
    SumNonNegative(slack, over);
    var k := AnElement(over);
    assert At(slack, k) >= 1;
    RatioRises(r, w, Sum(t.weight, over), Sum(t.headroom, over));
  }

  lemma SumsAreNatural(t: Terms, s: set<int>)
    requires t.Valid()
    ensures Sum(t.weight, s) >= 0 && Sum(t.headroom, s) >= 0
    ensures forall u | u in s :: At(t.weight, u) <= Sum(t.weight, s)
  {
    forall u | u in s ensures 0 <= At(t.weight, u) && 0 <= At(t.headroom, u) {
    }
    SumNonNegative(t.weight, s);
    SumNonNegative(t.headroom, s);
  }

  // ----- how the split ends -------------------------------------------------

  /** Everyone is either pinned or open, and something is left for the open ones. */
  lemma {:induction false} EndPartition(t: Terms, active: set<int>, r: nat)
    requires t.Valid() && active <= t.weight.Keys
    ensures var e := Finish(t, active, r);
      && e.pinned !! e.open && e.pinned + e.open == active
      && e.remaining == r - Sum(t.headroom, e.pinned)
      && (if r > 0 then e.remaining > 0 else e.pinned == {} && e.remaining == 0)
    decreases |active|
  {
    hide Sum, Pass;
    var w := Sum(t.weight, active);
    SumNone(t.headroom);
    if active != {} && r > 0 && w > 0 {
      var over := Over(t, active, Pass(t, active, r, w));
      if over != {} {
        PinningLeavesSome(t, active, r, w, over);
        Smaller(active, over);
        var r1 := r - Sum(t.headroom, over);
        EndPartition(t, active - over, r1);
        SumUnion(t.headroom, over, Finish(t, active - over, r1).pinned);
      }
    }
  }

  /** The final level `remaining / w` is no lower than the level of any pass. */
  lemma {:induction false} EndLevel(t: Terms, active: set<int>, r: nat)
    requires t.Valid() && active <= t.weight.Keys
    ensures var e := Finish(t, active, r);
      var wf := Sum(t.weight, e.open);
      wf > 0 ==> r * wf <= e.remaining * Sum(t.weight, active)
    decreases |active|
  {
    hide Sum, Pass;
    var w := Sum(t.weight, active);
    if active != {} && r > 0 && w > 0 {
      var over := Over(t, active, Pass(t, active, r, w));
      if over != {} {
        PinningLeavesSome(t, active, r, w, over);
        PinningRaisesLevel(t, active, r, w, over);
        SumSplit(t.weight, active, over);
        Smaller(active, over);
        var r1, w1 := r - Sum(t.headroom, over), w - Sum(t.weight, over);
        EndLevel(t, active - over, r1);
        EndPartition(t, active - over, r1);
        var e := Finish(t, active - over, r1);
        var wf := Sum(t.weight, e.open);
        if wf > 0 {
          SumSplit(t.weight, active - over, e.open);
          SumsAreNatural(t, active - over - e.open);
          RatioChain(r, w, r1, w1, e.remaining, wf);
        }
      }
    }
  }

  /** Whoever was pinned, in whatever pass, has weight and lies strictly below the final level. */
  lemma {:induction false} PinnedBelowEnd(t: Terms, active: set<int>, r: nat, u: int)
    requires t.Valid() && active <= t.weight.Keys && u in Finish(t, active, r).pinned
    ensures At(t.weight, u) > 0
    ensures var e := Finish(t, active, r);
      var wf := Sum(t.weight, e.open);
      wf > 0 ==> At(t.headroom, u) * wf < e.remaining * At(t.weight, u)
    decreases |active|
  {
    hide Sum, Pass;
    var w := Sum(t.weight, active);
    var over := Over(t, active, Pass(t, active, r, w));
    PinningLeavesSome(t, active, r, w, over);
    Smaller(active, over);
    var e := Finish(t, active, r);
    if u in over {
      OverIsBelowLevel(t, active, r, w, u);
      EndLevel(t, active, r);
      var wf := Sum(t.weight, e.open);
      if wf > 0 {
        BelowLater(At(t.headroom, u), At(t.weight, u), r, w, e.remaining, wf);
      }
    } else {
      PinnedBelowEnd(t, active - over, r - Sum(t.headroom, over), u);
    }
  }

  /** The last pass fits everyone it covers. */
  lemma {:induction false} EndFits(t: Terms, active: set<int>, r: nat, u: int)
    requires t.Valid() && active <= t.weight.Keys && u in Finish(t, active, r).open
    requires Finish(t, active, r).remaining > 0 && Sum(t.weight, Finish(t, active, r).open) > 0
    ensures var e := Finish(t, active, r);
      At(Pass(t, e.open, e.remaining, Sum(t.weight, e.open)), u) <= At(t.headroom, u)
    decreases |active|
  {
    hide Sum, Pass;
    var w := Sum(t.weight, active);
    if active != {} && r > 0 && w > 0 {
      var over := Over(t, active, Pass(t, active, r, w));
      if over == {} {
        assert u !in over;
      } else {
        PinningLeavesSome(t, active, r, w, over);
        Smaller(active, over);
        EndFits(t, active - over, r - Sum(t.headroom, over), u);
      }
    }
  }

  // ----- the laws -----------------------------------------------------------

  ghost function Positive(t: Terms): set<int> {
    set u | u in t.weight.Keys && At(t.weight, u) > 0
  }

  /** What a member gets, by how the split ended. */
  lemma PinnedShare(t: Terms, r: nat, u: int)
    requires t.Valid() && u in Finish(t, t.weight.Keys, r).pinned
    ensures u in t.weight.Keys && u in Split(t, r)
    ensures At(Split(t, r), u) == At(t.headroom, u)
    ensures At(t.weight, u) > 0
  {
    hide Sum, Pass, Finish;
    EndPartition(t, t.weight.Keys, r);
    PinnedBelowEnd(t, t.weight.Keys, r, u);
    assert u in t.weight.Keys;
  }

  lemma OpenShare(t: Terms, r: nat, u: int)
    requires t.Valid() && u in Finish(t, t.weight.Keys, r).open
    ensures u in t.weight.Keys && u in Split(t, r)
    ensures var e := Finish(t, t.weight.Keys, r);
      var w := Sum(t.weight, e.open);
      && At(Split(t, r), u) == (if e.remaining <= 0 || w <= 0 then 0 else At(Pass(t, e.open, e.remaining, w), u))
      && 0 <= At(Split(t, r), u) <= At(t.headroom, u)
      && (if w > 0 then Abs(w * At(Split(t, r), u) - e.remaining * At(t.weight, u)) < w else At(Split(t, r), u) == 0)
      && (At(t.weight, u) == 0 ==> At(Split(t, r), u) == 0)
  {
    hide Sum, Pass, Finish;
    EndPartition(t, t.weight.Keys, r);
    var e := Finish(t, t.weight.Keys, r);
    var w := Sum(t.weight, e.open);
    assert u in t.weight.Keys;
    if w > 0 && e.remaining > 0 {
      PassIsRounding(t, e.open, e.remaining, w, u);
      EndFits(t, t.weight.Keys, r, u);
    } else if w > 0 {
      assert w * 0 == 0 && 0 * At(t.weight, u) == 0;
    }
  }

  /** Every share lies between 0 and the headroom, and nobody without weight gets anything. */
  lemma ShareBounds(t: Terms, r: nat, u: int)
    requires t.Valid() && u in t.weight
    ensures u in Split(t, r) && 0 <= Split(t, r)[u] <= At(t.headroom, u)
    ensures At(t.weight, u) == 0 ==> Split(t, r)[u] == 0
  {
    hide Sum, Pass, Finish, Split;
    EndPartition(t, t.weight.Keys, r);
    if u in Finish(t, t.weight.Keys, r).pinned {
      PinnedShare(t, r, u);
    } else {
      OpenShare(t, r, u);
    }
  }

  lemma OpenTotal(t: Terms, r: nat)
    requires t.Valid()
    ensures var e := Finish(t, t.weight.Keys, r);
      Sum(Split(t, r), e.open) == if e.remaining > 0 && Sum(t.weight, e.open) > 0 then e.remaining else 0
  {
    hide Sum, Pass, Finish, Split;
    EndPartition(t, t.weight.Keys, r);
    var e := Finish(t, t.weight.Keys, r);
    var w := Sum(t.weight, e.open);
    var part := if e.remaining > 0 && w > 0 then Pass(t, e.open, e.remaining, w) else map[];
    forall u | u in e.open ensures At(Split(t, r), u) == At(part, u) {
      OpenShare(t, r, u);
    }
    SumSame(Split(t, r), part, e.open);
    if e.remaining > 0 && w > 0 {
      PassTotal(t, e.open, e.remaining, w);
    } else {
      SumEmptyMap<int>(e.open);
    }
  }

  lemma PinnedTotal(t: Terms, r: nat)
    requires t.Valid()
    ensures var e := Finish(t, t.weight.Keys, r); Sum(Split(t, r), e.pinned) == Sum(t.headroom, e.pinned)
  {
    hide Sum, Pass, Finish, Split;
    var e := Finish(t, t.weight.Keys, r);
    forall u | u in e.pinned ensures At(Split(t, r), u) == At(t.headroom, u) {
      PinnedShare(t, r, u);
    }
    SumSame(Split(t, r), t.headroom, e.pinned);
  }

  /** The shares never exceed the headroom of those with weight. */
  lemma SplitFits(t: Terms, r: nat)
    requires t.Valid()
    ensures Sum(Split(t, r), t.weight.Keys) <= Sum(t.headroom, Positive(t))
  {
    hide Sum, Pass, Finish, Split;
    var s := Split(t, r);
    forall u | u in t.weight.Keys
      ensures At(s, u) <= At(t.headroom, u) && (u !in Positive(t) ==> At(s, u) == 0)
    {
      ShareBounds(t, r, u);
    }
    SumSupport(s, t.weight.Keys, Positive(t));
    SumLe(s, t.headroom, Positive(t));
  }

  /** When the split ends with something undistributed, everyone with weight is pinned. */
  lemma ExhaustedMeansAllPinned(t: Terms, r: nat)
    requires t.Valid()
    requires Sum(t.weight, Finish(t, t.weight.Keys, r).open) == 0
    ensures Finish(t, t.weight.Keys, r).pinned == Positive(t)
  {
    hide Sum, Pass, Finish;
    EndPartition(t, t.weight.Keys, r);
    var e := Finish(t, t.weight.Keys, r);
    SumsAreNatural(t, e.open);
    forall u | u in e.pinned ensures u in Positive(t) {
      PinnedShare(t, r, u);
    }
    forall u | u in Positive(t) ensures u in e.pinned {
      assert u in e.pinned || u in e.open;
    }
  }

  /** The shares add up to the whole amount, or to all the headroom there is if that is less. */
  lemma SplitTotal(t: Terms, r: nat)
    requires t.Valid()
    ensures Sum(Split(t, r), t.weight.Keys) == Min(r, Sum(t.headroom, Positive(t)))
  {
    hide Sum, Pass, Finish, Split;
    var s := Split(t, r);
    EndPartition(t, t.weight.Keys, r);
    var e := Finish(t, t.weight.Keys, r);
    SumUnion(s, e.pinned, e.open);
    OpenTotal(t, r);
    PinnedTotal(t, r);
    SplitFits(t, r);
    SumsAreNatural(t, Positive(t));
    SumsAreNatural(t, e.open);
    if r > 0 && Sum(t.weight, e.open) == 0 {
      ExhaustedMeansAllPinned(t, r);
    }
    if r == 0 {
      SumNone(s);
    }
  }

  /** The independent description of a capped proportional split: a set of members pinned at
      their headroom, and a level `remaining / w` shared by everyone else. Pinned members lie
      strictly below the level, so nobody is pinned prematurely; the others get the floor or
      ceiling of level times limit, within their headroom. */
  ghost predicate CappedProportional(t: Terms, r: nat, share: map<int, int>, pinned: set<int>) {
    var open := t.weight.Keys - pinned;
    var w := Sum(t.weight, open);
    var remaining := r - Sum(t.headroom, pinned);
    && pinned <= t.weight.Keys
    && remaining >= 0
    && (forall u | u in pinned :: At(share, u) == At(t.headroom, u))
    && (forall u | u in pinned :: w > 0 ==> At(t.headroom, u) * w < remaining * At(t.weight, u))
    && (forall u | u in open :: 0 <= At(share, u) <= At(t.headroom, u))
    && (forall u | u in open :: if w > 0 then Abs(w * At(share, u) - remaining * At(t.weight, u)) < w
         else At(share, u) == 0)
    && (w > 0 ==> Sum(share, open) == remaining)
  }

  lemma SplitIsCappedProportional(t: Terms, r: nat)
    requires t.Valid()
    ensures CappedProportional(t, r, Split(t, r), Finish(t, t.weight.Keys, r).pinned)
  {
    hide Sum, Pass, Finish, Split;
    EndPartition(t, t.weight.Keys, r);
    var e := Finish(t, t.weight.Keys, r);
    assert t.weight.Keys - e.pinned == e.open;
    OpenTotal(t, r);
    forall u | u in e.open
      ensures 0 <= At(Split(t, r), u) <= At(t.headroom, u)
      ensures var w := Sum(t.weight, e.open);
        if w > 0 then Abs(w * At(Split(t, r), u) - e.remaining * At(t.weight, u)) < w else At(Split(t, r), u) == 0
    {
      OpenShare(t, r, u);
    }
    forall u | u in e.pinned
      ensures At(Split(t, r), u) == At(t.headroom, u)
      ensures var w := Sum(t.weight, e.open); w > 0 ==> At(t.headroom, u) * w < e.remaining * At(t.weight, u)
    {
      PinnedShare(t, r, u);
      PinnedBelowEnd(t, t.weight.Keys, r, u);
    }
  }

  // ----- the split as settlement calls it ------------------------------------

  lemma TermsAreValid(members: seq<MemberShare>, refunding: bool)
    requires Distinct(members)
    ensures TermsOf(members, refunding).Valid()
    ensures TermsOf(members, refunding).weight.Keys == Ids(members)
  {
  }

  lemma TermsOfMember(members: seq<MemberShare>, refunding: bool, m: MemberShare)
    requires Distinct(members) && m in members
    ensures var t := TermsOf(members, refunding);
      && m.userId in t.weight.Keys
      && At(t.weight, m.userId) == Max(0, m.limit)
      && At(t.headroom, m.userId) == Headroom(m, refunding)
      && At(t.consumed, m.userId) == m.consumed
  {
  }

  lemma ShareOf(delta: int, members: seq<MemberShare>, u: int)
    requires Distinct(members) && u in Ids(members)
    ensures u in Shares(delta, members)
    ensures var s := Split(TermsOf(members, delta < 0), Abs(delta));
      u in s && Shares(delta, members)[u] == if delta < 0 then -s[u] else s[u]
  {
    TermsAreValid(members, delta < 0);
  }

  /** Charging never takes `charged` past the limit (nor past where it already was), refunding
      never takes it below 0; the sign of a share is the sign of the delta. */
  lemma ChargedStaysInRange(delta: int, members: seq<MemberShare>, m: MemberShare)
    requires Distinct(members) && m in members
    ensures m.userId in Shares(delta, members)
    ensures var share := Shares(delta, members)[m.userId];
      if delta >= 0 then 0 <= share && m.charged + share <= Max(m.charged, m.limit)
      else share <= 0 && m.charged + share >= Min(m.charged, 0)
    ensures m.limit <= 0 ==> Shares(delta, members)[m.userId] == 0
  {
    hide Sum, Pass, Finish, Split, TermsOf;
    TermsAreValid(members, delta < 0);
    TermsOfMember(members, delta < 0, m);
    ShareOf(delta, members, m.userId);
    ShareBounds(TermsOf(members, delta < 0), Abs(delta), m.userId);
  }

  /** All the headroom that can take part: members without a positive limit absorb nothing. */
  ghost function Absorbable(delta: int, members: seq<MemberShare>): int
    requires Distinct(members)
  {
    var t := TermsOf(members, delta < 0);
    Sum(t.headroom, Positive(t))
  }

  lemma SharesTotal(delta: int, members: seq<MemberShare>)
    requires Distinct(members)
    ensures Sum(Shares(delta, members), Ids(members))
      == (if delta < 0 then -1 else 1) * Min(Abs(delta), Absorbable(delta, members))
  {
    var t := TermsOf(members, delta < 0);
    var s := Split(t, Abs(delta));
    TermsAreValid(members, delta < 0);
    SplitTotal(t, Abs(delta));
    SumLinear(Shares(delta, members), if delta < 0 then -1 else 1, s, 0, s, Ids(members));
  }

  /** The result does not depend on the order the members are listed in. */
  lemma OrderDoesNotMatter(delta: int, members: seq<MemberShare>, other: seq<MemberShare>)
    requires Distinct(members) && Distinct(other)
    requires multiset(members) == multiset(other)
    ensures Shares(delta, members) == Shares(delta, other)
  {
    hide Split;
    forall m ensures m in members <==> m in other {
      assert m in members <==> m in multiset(members);
      assert m in other <==> m in multiset(other);
    }
    var t, o := TermsOf(members, delta < 0), TermsOf(other, delta < 0);
    assert t.weight == o.weight;
    assert t.headroom == o.headroom;
    assert t.consumed == o.consumed;
  }

  /** Fair rounding of the whole split, charge or refund: next to a member who did not hit their cap, nobody
      with a smaller limit, or the same limit and less consumption, or both the same and a higher id, gets
      a larger share. */
  lemma FairSplit(delta: int, members: seq<MemberShare>, a: MemberShare, b: MemberShare)
    requires Distinct(members) && a in members && b in members
    requires a.limit <= b.limit && (a.limit == b.limit ==> a.consumed <= b.consumed)
    requires a.limit == b.limit && a.consumed == b.consumed ==> b.userId < a.userId
    requires Abs(At(Shares(delta, members), b.userId)) < Headroom(b, delta < 0)
    ensures Abs(At(Shares(delta, members), a.userId)) <= Abs(At(Shares(delta, members), b.userId))
  {
    hide Sum, Pass, Finish, Split, TermsOf, Shares;
    var t := TermsOf(members, delta < 0);
    TermsAreValid(members, delta < 0);
    ShareOf(delta, members, a.userId);
    ShareOf(delta, members, b.userId);
    TermsOfMember(members, delta < 0, a);
    TermsOfMember(members, delta < 0, b);
    ShareBounds(t, Abs(delta), a.userId);
    ShareBounds(t, Abs(delta), b.userId);
    if a.limit > 0 {
      FairTerms(t, Abs(delta), a.userId, b.userId);
    }
  }

  lemma FairTerms(t: Terms, r: nat, a: int, b: int)
    requires t.Valid() && a in t.weight.Keys && b in t.weight.Keys
    requires Outranks(t, b, a)
    requires At(Split(t, r), b) < At(t.headroom, b)
    ensures At(Split(t, r), a) <= At(Split(t, r), b)
  {
    hide Sum, Pass, Finish, Split;
    EndPartition(t, t.weight.Keys, r);
    var e := Finish(t, t.weight.Keys, r);
    var w := Sum(t.weight, e.open);
    if b in e.pinned {
      PinnedShare(t, r, b);
    }
    assert b in e.open;
    OpenShare(t, r, b);
    SumsAreNatural(t, e.open);
    if a in e.open {
      OpenShare(t, r, a);
      if w > 0 && e.remaining > 0 {
        FairRounding(t, e.open, e.remaining, w, a, b);
      }
    } else {
      PinnedShare(t, r, a);
      PinnedBelowEnd(t, t.weight.Keys, r, a);
      SumZeroPositive(t, e.open, b);
      PinnedIsSmaller(t, e.open, e.remaining, w, At(t.headroom, a), At(t.weight, a), b);
    }
  }

  lemma SumZeroPositive(t: Terms, s: set<int>, u: int)
    requires t.Valid() && u in s && At(t.weight, u) > 0
    ensures Sum(t.weight, s) > 0
  {
    SumsAreNatural(t, s);
  }

  lemma PinnedIsSmaller(t: Terms, open: set<int>, r: nat, w: int, h: int, v: int, u: int)
    requires Ready(t, open, r, w) && u in open
    requires 0 <= v <= At(t.weight, u) && h * w < r * v
    ensures h <= At(Pass(t, open, r, w), u)
  {
    DivMod(r, At(t.weight, u), w);
    MulMono(v, At(t.weight, u), r);
    var q := Floor(t, r, w, u);
    assert h * w < w * q + w;
    Gap(w, h, q);
    assert h * w == w * h;
  }
}
