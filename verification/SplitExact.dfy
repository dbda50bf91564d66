/** Who ought to be pinned: the split that divides to the fraction. Its pinned set is unique, and the loop,
    which rounds before it pins, never pins anybody outside it. */
module SplitExact {
  import opened Arith
  import opened Sums
  import opened CappedSplit
  import opened SplitLaws

  /** With some members pinned, the level of the others is `Rest / OpenWeight`. */
  ghost function Rest(t: Terms, r: int, pinned: set<int>): int { r - Sum(t.headroom, pinned) }

  ghost function OpenWeight(t: Terms, pinned: set<int>): int { Sum(t.weight, t.weight.Keys - pinned) }

  predicate Below(t: Terms, rest: int, w: int, u: int) { At(t.headroom, u) * w < rest * At(t.weight, u) }

  /** Pinned are exactly those whose headroom lies below the level. */
  ghost predicate ExactFit(t: Terms, r: int, pinned: set<int>) {
    && pinned <= t.weight.Keys
    && OpenWeight(t, pinned) > 0
    && forall u | u in t.weight.Keys :: u in pinned <==> Below(t, Rest(t, r, pinned), OpenWeight(t, pinned), u)
  }

  /** No choice of pinned members gives the others a higher level than the exact one. */
  lemma ExactIsHighest(t: Terms, r: int, p: set<int>, q: set<int>)
    requires t.Valid() && p <= t.weight.Keys && ExactFit(t, r, q)
    ensures Rest(t, r, p) * OpenWeight(t, q) <= Rest(t, r, q) * OpenWeight(t, p)
  {
    hide Sum;
    var b, x := Rest(t, r, q), OpenWeight(t, q);
    SlackTotal(t, q - p, b, x);
    SlackTotal(t, p - q, -b, -x);
    assert forall u | u in q - p :: Below(t, b, x, u);
    assert forall u | u in p - q :: !Below(t, b, x, u);
    forall u | u in p - q ensures At(Slack(t, p - q, -b, -x), u) >= 0 {
      assert -b * At(t.weight, u) - -x * At(t.headroom, u) == At(t.headroom, u) * x - b * At(t.weight, u);
    }
    forall u | u in q - p ensures At(Slack(t, q - p, b, x), u) >= 0 {
      assert x * At(t.headroom, u) == At(t.headroom, u) * x;
    }
    SumNonNegative(Slack(t, q - p, b, x), q - p);
    SumNonNegative(Slack(t, p - q, -b, -x), p - q);
    OneMinusOther(t.headroom, q, p);
    OneMinusOther(t.weight, q, p);
    SumSplit(t.weight, t.weight.Keys, p);
    SumSplit(t.weight, t.weight.Keys, q);
    Rearrange(Rest(t, r, p), OpenWeight(t, p), b, x,
              Sum(t.headroom, q - p), Sum(t.headroom, p - q), Sum(t.weight, q - p), Sum(t.weight, p - q));
  }

  lemma OneMinusOther(m: map<int, int>, q: set<int>, p: set<int>)
    ensures Sum(m, q) - Sum(m, p) == Sum(m, q - p) - Sum(m, p - q)
  {
    hide Sum;
    SumSplit(m, q, q * p);
    SumSplit(m, p, q * p);
    assert q - q * p == q - p && p - q * p == p - q;
  }

  lemma Rearrange(a: int, y: int, b: int, x: int, hq: int, hp: int, vq: int, vp: int)
    requires a - b == hq - hp && y - x == vq - vp
    requires b * vq - x * hq >= 0 && -b * vp - -x * hp >= 0
    ensures a * x <= b * y
  {
    assert a * x == b * x + (hq - hp) * x;
    assert b * y == b * x + b * (vq - vp);
    assert (hq - hp) * x == x * hq - x * hp;
    assert b * (vq - vp) == b * vq - b * vp;
    assert -b * vp - -x * hp == x * hp - b * vp;
  }

  /** Pinning only members below one's own level is never premature: the exact level is above them too. */
  lemma PinnedWithinExact(t: Terms, r: int, p: set<int>, q: set<int>)
    requires t.Valid() && p <= t.weight.Keys && ExactFit(t, r, q)
    requires OpenWeight(t, p) > 0
    requires forall u | u in p :: Below(t, Rest(t, r, p), OpenWeight(t, p), u)
    ensures p <= q
  {
    hide Sum, Rest, OpenWeight;
    ExactIsHighest(t, r, p, q);
    forall u | u in p ensures u in q {
      BelowHigher(t, Rest(t, r, p), OpenWeight(t, p), Rest(t, r, q), OpenWeight(t, q), u);
    }
  }

  lemma BelowHigher(t: Terms, a: int, y: int, b: int, x: int, u: int)
    requires 0 <= At(t.weight, u) && x > 0 && y > 0 && a * x <= b * y && Below(t, a, y, u)
    ensures Below(t, b, x, u)
  {
    var h, v := At(t.headroom, u), At(t.weight, u);
    MulStrict(h * y, a * v, x);
    MulMono(a * x, b * y, v);
    assert y * (h * x) == h * y * x && y * (b * v) == b * y * v && a * v * x == a * x * v;
    MulCancelStrict(h * x, b * v, y);
  }

  /** There is at most one exact fit. */
  lemma OneExactFit(t: Terms, r: int, p: set<int>, q: set<int>)
    requires t.Valid() && ExactFit(t, r, p) && ExactFit(t, r, q)
    ensures p == q
  {
    hide Sum, Rest, OpenWeight;
    PinnedWithinExact(t, r, p, q);
    PinnedWithinExact(t, r, q, p);
  }

  // ----- when there is one ------------------------------------------------------------------

  /** Pinning those found below the level raises it: a better guess, as long as somebody stays open. */
  lemma {:induction false} Refine(t: Terms, r: int, p: set<int>) returns (q: set<int>)
    requires t.Valid() && p <= t.weight.Keys && OpenWeight(t, p) > 0
    requires forall u | u in p :: Below(t, Rest(t, r, p), OpenWeight(t, p), u)
    requires r <= Sum(t.headroom, Positive(t))
    ensures ExactFit(t, r, q)
    decreases |t.weight.Keys - p|
  {
    hide Sum, Rest, OpenWeight;
    var rest, w := Rest(t, r, p), OpenWeight(t, p);
    var over := set u | u in t.weight.Keys - p && Below(t, rest, w, u);
    if over == {} {
      q := p;
      forall u | u in t.weight.Keys ensures u in p <==> Below(t, rest, w, u) {
        assert u !in over;
      }
    } else {
      PinningThem(t, r, p, over);
      forall u | u in p + over ensures Below(t, Rest(t, r, p + over), OpenWeight(t, p + over), u) {
        BelowHigher(t, rest, w, Rest(t, r, p + over), OpenWeight(t, p + over), u);
      }
      assert t.weight.Keys - (p + over) == (t.weight.Keys - p) - over;
      Smaller(t.weight.Keys - p, over);
      q := Refine(t, r, p + over);
    }
  }

  lemma PinningThem(t: Terms, r: int, p: set<int>, over: set<int>)
    requires t.Valid() && p <= t.weight.Keys && over <= t.weight.Keys - p && over != {} && OpenWeight(t, p) > 0
    requires forall u | u in over :: Below(t, Rest(t, r, p), OpenWeight(t, p), u)
    requires r <= Sum(t.headroom, Positive(t))
    ensures OpenWeight(t, p + over) > 0
    ensures Rest(t, r, p) * OpenWeight(t, p + over) <= Rest(t, r, p + over) * OpenWeight(t, p)
  {
    hide Sum;
    var rest, w := Rest(t, r, p), OpenWeight(t, p);
    SlackTotal(t, over, rest, w);
    forall u | u in over ensures At(Slack(t, over, rest, w), u) >= 1 {
      assert Below(t, rest, w, u);
      assert w * At(t.headroom, u) == At(t.headroom, u) * w;
    }
    SumNonNegative(Slack(t, over, rest, w), over);
    var u := AnElement(over);
    assert At(Slack(t, over, rest, w), u) >= 1;
    SumUnion(t.headroom, p, over);
    SumSplit(t.weight, t.weight.Keys - p, over);
    assert t.weight.Keys - (p + over) == (t.weight.Keys - p) - over;
    SumsAreNatural(t, t.weight.Keys - (p + over));
    var v, h := Sum(t.weight, over), Sum(t.headroom, over);
    assert (rest - h) * w - rest * (w - v) == rest * v - w * h;
    if OpenWeight(t, p + over) == 0 {
      assert w * (rest - h) == rest * v - w * h;
      MulCancelStrict(0, rest - h, w);
      EverybodyPinned(t, p + over);
    }
  }

  lemma EverybodyPinned(t: Terms, pinned: set<int>)
    requires t.Valid() && pinned <= t.weight.Keys && OpenWeight(t, pinned) == 0
    ensures Sum(t.headroom, Positive(t)) <= Sum(t.headroom, pinned)
  {
    hide Sum;
    SumsAreNatural(t, t.weight.Keys - pinned);
    forall u | u in Positive(t) ensures u in pinned {
      assert u in t.weight.Keys - pinned ==> At(t.weight, u) <= 0;
    }
    SumSplit(t.headroom, pinned, Positive(t));
    SumsAreNatural(t, pinned - Positive(t));
  }

  /** Whoever divides exactly has members to divide among, and headroom enough for all of it. */
  lemma ExactFitHasRoom(t: Terms, r: int, q: set<int>)
    requires t.Valid() && ExactFit(t, r, q)
    ensures Positive(t) != {} && r <= Sum(t.headroom, Positive(t))
  {
    hide Sum;
    var rest, w, open := Rest(t, r, q), OpenWeight(t, q), Positive(t) - q;
    assert q <= Positive(t) by {
      forall u | u in q ensures At(t.weight, u) > 0 {
        assert Below(t, rest, w, u);
      }
    }
    forall u | u in t.weight.Keys - q && u !in open ensures At(t.weight, u) == 0 {
      assert u !in Positive(t);
    }
    SumSupport(t.weight, t.weight.Keys - q, open);
    SumNone(t.weight);
    assert open != {};
    SlackTotal(t, open, -rest, -w);
    forall u | u in open ensures At(Slack(t, open, -rest, -w), u) >= 0 {
      assert !Below(t, rest, w, u);
      assert -rest * At(t.weight, u) - -w * At(t.headroom, u) == At(t.headroom, u) * w - rest * At(t.weight, u);
    }
    SumNonNegative(Slack(t, open, -rest, -w), open);
    assert -rest * w - -w * Sum(t.headroom, open) == w * Sum(t.headroom, open) - w * rest;
    MulCancel(rest, Sum(t.headroom, open), w);
    SumSplit(t.headroom, Positive(t), q);
  }

  /** There is an exact fit if and only if some member has weight and the headroom of those who have is enough. */
  lemma ExactFitExistsIff(t: Terms, r: int)
    requires t.Valid()
    ensures (exists q :: ExactFit(t, r, q)) <==> Positive(t) != {} && r <= Sum(t.headroom, Positive(t))
  {
    hide Sum, ExactFit;
    if q :| ExactFit(t, r, q) {
      ExactFitHasRoom(t, r, q);
    }
    if Positive(t) != {} && r <= Sum(t.headroom, Positive(t)) {
      SumsAreNatural(t, t.weight.Keys);
      assert t.weight.Keys - {} == t.weight.Keys;
      var u := AnElement(Positive(t));
      assert OpenWeight(t, {}) > 0;
      var q := Refine(t, r, {});
    }
  }

  /** The loop pins nobody whom an exact division would leave under their cap, in whatever pass. */
  lemma SplitPinsWithinExact(t: Terms, r: nat, q: set<int>)
    requires t.Valid() && ExactFit(t, r, q)
    ensures Finish(t, t.weight.Keys, r).pinned <= q
  {
    hide Sum, Pass, Finish;
    EndPartition(t, t.weight.Keys, r);
    var e := Finish(t, t.weight.Keys, r);
    assert t.weight.Keys - e.pinned == e.open;
    forall u | u in e.pinned ensures Sum(t.weight, e.open) > 0 ==> Below(t, e.remaining, Sum(t.weight, e.open), u) {
      PinnedBelowEnd(t, t.weight.Keys, r, u);
    }
    if Sum(t.weight, e.open) > 0 {
      PinnedWithinExact(t, r, e.pinned, q);
    } else {
      SumsAreNatural(t, e.open);
      ExactIsHighest(t, r, e.pinned, q);
      if e.remaining > 0 {
        MulStrict(0, e.remaining, OpenWeight(t, q));
        assert false;
      }
    }
  }

  /** Two equal limits, and room for one request under the first. */
  const ROOM_FOR_ONE := Terms(map[1 := 1, 2 := 1], map[1 := 1, 2 := 10], map[1 := 0, 2 := 0])

  lemma NobodyPinned(share: map<int, int>)
    requires share == map[1 := 1, 2 := 2]
    ensures CappedProportional(ROOM_FOR_ONE, 3, share, {}) && !ExactFit(ROOM_FOR_ONE, 3, {})
  {
    hide Sum;
    var t := ROOM_FOR_ONE;
    assert t.weight.Keys - {} == {1, 2};
    OfTwo(t.weight);
    OfTwo(t.headroom);
    OfTwo(share);
    assert Below(t, 3, 2, 1);
  }

  lemma FirstPinned(share: map<int, int>)
    requires share == map[1 := 1, 2 := 2]
    ensures CappedProportional(ROOM_FOR_ONE, 3, share, {1}) && ExactFit(ROOM_FOR_ONE, 3, {1})
  {
    hide Sum;
    var t := ROOM_FOR_ONE;
    assert t.weight.Keys - {1} == {2};
    OfTwo(t.weight);
    OfTwo(t.headroom);
    OfTwo(share);
    assert !Below(t, 2, 1, 2) && Below(t, 2, 1, 1);
  }

  /** Rounding leaves two ways to meet the description of SplitLaws: with three requests to split, the member
      rounded down to their headroom may count as pinned or not. */
  lemma RoundedToCapIsPinnedOrNot(share: map<int, int>)
    requires share == map[1 := 1, 2 := 2]
    ensures ROOM_FOR_ONE.Valid()
    ensures CappedProportional(ROOM_FOR_ONE, 3, share, {}) && !ExactFit(ROOM_FOR_ONE, 3, {})
    ensures CappedProportional(ROOM_FOR_ONE, 3, share, {1}) && ExactFit(ROOM_FOR_ONE, 3, {1})
  {
    hide CappedProportional, ExactFit;
    NobodyPinned(share);
    FirstPinned(share);
  }

  lemma OfTwo(m: map<int, int>)
    ensures Sum(m, {}) == 0 && Sum(m, {1}) == At(m, 1) && Sum(m, {2}) == At(m, 2)
    ensures Sum(m, {1, 2}) == At(m, 1) + At(m, 2)
  {
    SumPick(m, {1}, 1);
    SumPick(m, {2}, 2);
    SumPick(m, {1, 2}, 1);
    assert {1} - {1} == {} && {2} - {2} == {} && {1, 2} - {1} == {2};
  }
}
