/** The split as its documentation describes it, in the members' own limits, charges and consumption: largest
    remainder in rounds, each round pinning whoever it would take past their cap. One split meets the
    description, and it is the one the loop computes. */
module SplitRounds {
  import opened Arith
  import opened Sums
  import opened CappedSplit
  import opened SplitPass
  import opened SplitLaws

  /** A member's exact share of r at weight v out of w, as a whole number and w-ths left over. */
  function Whole(r: nat, v: int, w: int): int
    requires w > 0
  {
    r * v / w
  }

  function LeftOver(r: nat, v: int, w: int): int
    requires w > 0
  {
    r * v % w
  }

  function Exceeding(share: map<int, int>, headroom: map<int, int>, active: set<int>): set<int> {
    set u | u in active && At(share, u) > At(headroom, u)
  }

  /** Of two members the one who is served first: the larger remainder, between equal ones the heavier
      consumer, between equal consumers the lower id. */
  predicate ServedFirst(weight: map<int, int>, consumed: map<int, int>, r: nat, w: int, u: int, v: int)
    requires w > 0
  {
    var mine, others := LeftOver(r, At(weight, u), w), LeftOver(r, At(weight, v), w);
    || mine > others
    || (mine == others && At(consumed, u) > At(consumed, v))
    || (mine == others && At(consumed, u) == At(consumed, v) && u < v)
  }

  /** Everybody has the whole part of their exact share of r, or one more; nobody has one more before those who are
      served first do; and r is handed out. */
  ghost predicate LargestRemainder(weight: map<int, int>, consumed: map<int, int>, active: set<int>, r: nat, w: int,
                                   share: map<int, int>)
    requires w > 0
  {
    && (forall u | u in active ::
         At(share, u) == Whole(r, At(weight, u), w) || At(share, u) == Whole(r, At(weight, u), w) + 1)
    && (forall u, v | u in active && v in active && ServedFirst(weight, consumed, r, w, u, v) ::
          At(share, v) == Whole(r, At(weight, v), w) + 1 ==> At(share, u) == Whole(r, At(weight, u), w) + 1)
    && Sum(share, active) == r
  }

  /** Whoever a round takes past their cap is pinned there, and the rest goes to the next round. */
  ghost predicate InRounds(weight: map<int, int>, headroom: map<int, int>, consumed: map<int, int>, active: set<int>,
                           r: int, share: map<int, int>)
    decreases |active|
  {
    var w := Sum(weight, active);
    if active == {} || r <= 0 || w <= 0 then forall u | u in active :: At(share, u) == 0
    else
      exists round :: LargestRemainder(weight, consumed, active, r, w, round)
        && var over := Exceeding(round, headroom, active);
           if over == {} then forall u | u in active :: At(share, u) == At(round, u)
           else
             assert |active - over| < |active| by { Smaller(active, over); }
             && (forall u | u in over :: At(share, u) == At(headroom, u))
             && InRounds(weight, headroom, consumed, active - over, r - Sum(headroom, over), share)
  }

  // ----- a round --------------------------------------------------------------------------

  lemma AheadOfLater(t: Terms, active: set<int>, r: nat, w: int, u: int, v: int)
    requires w > 0 && ServedFirst(t.weight, t.consumed, r, w, u, v)
    ensures |Ahead(t, active, r, w, u)| <= |Ahead(t, active, r, w, v)|
  {
    assert Ahead(t, active, r, w, u) <= Ahead(t, active, r, w, v);
    Fewer(Ahead(t, active, r, w, u), Ahead(t, active, r, w, v));
  }

  /** One pass of the loop is a round. */
  lemma PassIsLargestRemainder(t: Terms, active: set<int>, r: nat, w: int)
    requires Ready(t, active, r, w)
    ensures LargestRemainder(t.weight, t.consumed, active, r, w, Pass(t, active, r, w))
  {
    hide Sum, Ahead, Leftover, ServedFirst;
    PassTotal(t, active, r, w);
    forall u, v | u in active && v in active && ServedFirst(t.weight, t.consumed, r, w, u, v)
      ensures At(Pass(t, active, r, w), v) == Whole(r, At(t.weight, v), w) + 1 ==>
        At(Pass(t, active, r, w), u) == Whole(r, At(t.weight, u), w) + 1
    {
      AheadOfLater(t, active, r, w, u, v);
    }
  }

  /** Who got one more. */
  ghost function Extra(weight: map<int, int>, active: set<int>, r: nat, w: int, share: map<int, int>): set<int>
    requires w > 0
  {
    set u | u in active && At(share, u) == Whole(r, At(weight, u), w) + 1
  }

  lemma ExtraTotal(weight: map<int, int>, consumed: map<int, int>, active: set<int>, r: nat, w: int,
                   share: map<int, int>)
    requires w > 0 && LargestRemainder(weight, consumed, active, r, w, share)
    ensures |Extra(weight, active, r, w, share)| == r - Sum(map u | u in active :: Whole(r, At(weight, u), w), active)
  {
    hide Sum, ServedFirst, Whole;
    var extra := Extra(weight, active, r, w, share);
    var floors := map u | u in active :: Whole(r, At(weight, u), w);
    var ones := map u | u in extra :: 1;
    forall u | u in active ensures At(share, u) == At(floors, u) + At(ones, u) {
      assert u in extra <==> At(share, u) == Whole(r, At(weight, u), w) + 1;
    }
    SumPlus(share, floors, ones, active);
    SumSupport(ones, active, extra);
    SumOnes(ones, extra);
  }

  lemma OneIsFirst(weight: map<int, int>, consumed: map<int, int>, r: nat, w: int, u: int, v: int)
    requires w > 0
    ensures u == v || ServedFirst(weight, consumed, r, w, u, v) || ServedFirst(weight, consumed, r, w, v, u)
  {
    hide LeftOver;
  }

  /** There is one way to hand out a round. */
  lemma OneLargestRemainder(weight: map<int, int>, consumed: map<int, int>, active: set<int>, r: nat, w: int,
                            a: map<int, int>, b: map<int, int>)
    requires w > 0
    requires LargestRemainder(weight, consumed, active, r, w, a) && LargestRemainder(weight, consumed, active, r, w, b)
    ensures forall u | u in active :: At(a, u) == At(b, u)
  {
    hide Sum, Whole, LeftOver;
    var more, others := Extra(weight, active, r, w, a), Extra(weight, active, r, w, b);
    ExtraTotal(weight, consumed, active, r, w, a);
    ExtraTotal(weight, consumed, active, r, w, b);
    if more != others {
      var u := OneMoreThan(more, others);
      var v := OneMoreThan(others, more);
      OneIsFirst(weight, consumed, r, w, u, v);
    }
    forall u | u in active ensures At(a, u) == At(b, u) {
      assert u in more <==> u in others;
    }
  }

  lemma SameSize(s: set<int>, t: set<int>)
    requires s <= t && |s| == |t|
    ensures s == t
  {
    assert t == s + (t - s);
  }

  lemma OneMoreThan(s: set<int>, t: set<int>) returns (u: int)
    requires |s| == |t| && s != t
    ensures u in s && u !in t
  {
    if s <= t { SameSize(s, t); }
    assert forall x | x in s :: x in t || x in s - t;
    u := AnElement(s - t);
  }

  lemma SameExceeding(a: map<int, int>, b: map<int, int>, headroom: map<int, int>, active: set<int>)
    requires forall u | u in active :: At(a, u) == At(b, u)
    ensures Exceeding(a, headroom, active) == Exceeding(b, headroom, active)
  {
    forall u | u in active ensures u in Exceeding(a, headroom, active) <==> u in Exceeding(b, headroom, active) {
      assert At(a, u) == At(b, u);
    }
  }

  // ----- the rounds -------------------------------------------------------------------------

  lemma RoundThenRest(weight: map<int, int>, headroom: map<int, int>, consumed: map<int, int>, active: set<int>,
                      r: int, share: map<int, int>, round: map<int, int>)
    requires active != {} && r > 0 && Sum(weight, active) > 0
    requires LargestRemainder(weight, consumed, active, r, Sum(weight, active), round)
    requires var over := Exceeding(round, headroom, active);
      if over == {} then forall u | u in active :: At(share, u) == At(round, u)
      else
        && (forall u | u in over :: At(share, u) == At(headroom, u))
        && InRounds(weight, headroom, consumed, active - over, r - Sum(headroom, over), share)
    ensures InRounds(weight, headroom, consumed, active, r, share)
  {
    hide Sum, LargestRemainder, Exceeding;
  }

  lemma NoRound(weight: map<int, int>, headroom: map<int, int>, consumed: map<int, int>, active: set<int>, r: int,
                share: map<int, int>)
    requires active == {} || r <= 0 || Sum(weight, active) <= 0
    requires forall u | u in active :: At(share, u) == 0
    ensures InRounds(weight, headroom, consumed, active, r, share)
  {
    hide Sum;
  }

  lemma {:induction false} FinishInRounds(t: Terms, active: set<int>, r: int, share: map<int, int>)
    requires t.Valid() && active <= t.weight.Keys
    requires var e := Finish(t, active, r);
      var w := Sum(t.weight, e.open);
      && (forall u | u in e.pinned :: At(share, u) == At(t.headroom, u))
      && forall u | u in e.open ::
        At(share, u) == if e.remaining <= 0 || w <= 0 then 0 else At(Pass(t, e.open, e.remaining, w), u)
    ensures InRounds(t.weight, t.headroom, t.consumed, active, r, share)
    decreases |active|
  {
    hide Sum, Pass, LargestRemainder, InRounds;
    var w := Sum(t.weight, active);
    if active != {} && r > 0 && w > 0 {
      var round := Pass(t, active, r, w);
      var over := Over(t, active, round);
      PassIsLargestRemainder(t, active, r, w);
      assert over == Exceeding(round, t.headroom, active);
      if over != {} {
        PinningLeavesSome(t, active, r, w, over);
        Smaller(active, over);
        FinishInRounds(t, active - over, r - Sum(t.headroom, over), share);
      }
      RoundThenRest(t.weight, t.headroom, t.consumed, active, r, share, round);
    } else {
      NoRound(t.weight, t.headroom, t.consumed, active, r, share);
    }
  }

  lemma SplitInRounds(t: Terms, r: nat)
    requires t.Valid()
    ensures InRounds(t.weight, t.headroom, t.consumed, t.weight.Keys, r, Split(t, r))
  {
    hide Sum, Pass, Finish, InRounds;
    EndPartition(t, t.weight.Keys, r);
    var e := Finish(t, t.weight.Keys, r);
    forall u | u in e.open ensures At(Split(t, r), u) ==
      if e.remaining <= 0 || Sum(t.weight, e.open) <= 0 then 0
        else At(Pass(t, e.open, e.remaining, Sum(t.weight, e.open)), u)
    {
      OpenShare(t, r, u);
    }
    forall u | u in e.pinned ensures At(Split(t, r), u) == At(t.headroom, u) {
      PinnedShare(t, r, u);
    }
    FinishInRounds(t, t.weight.Keys, r, Split(t, r));
  }

  lemma {:induction false} OneInRounds(weight: map<int, int>, headroom: map<int, int>, consumed: map<int, int>,
                                       active: set<int>, r: int, a: map<int, int>, b: map<int, int>)
    requires InRounds(weight, headroom, consumed, active, r, a) && InRounds(weight, headroom, consumed, active, r, b)
    ensures forall u | u in active :: At(a, u) == At(b, u)
    decreases |active|
  {
    hide Sum, LargestRemainder;
    var w := Sum(weight, active);
    if active != {} && r > 0 && w > 0 {
      var x := FirstRound(weight, headroom, consumed, active, r, a);
      var y := FirstRound(weight, headroom, consumed, active, r, b);
      OneLargestRemainder(weight, consumed, active, r, w, x, y);
      var over := Exceeding(x, headroom, active);
      SameExceeding(x, y, headroom, active);
      if over != {} {
        Smaller(active, over);
        OneInRounds(weight, headroom, consumed, active - over, r - Sum(headroom, over), a, b);
      }
    }
  }

  lemma FirstRound(weight: map<int, int>, headroom: map<int, int>, consumed: map<int, int>, active: set<int>, r: int,
                   share: map<int, int>) returns (round: map<int, int>)
    requires InRounds(weight, headroom, consumed, active, r, share)
    requires active != {} && r > 0 && Sum(weight, active) > 0
    ensures LargestRemainder(weight, consumed, active, r, Sum(weight, active), round)
    ensures var over := Exceeding(round, headroom, active);
      if over == {} then forall u | u in active :: At(share, u) == At(round, u)
      else
        && (forall u | u in over :: At(share, u) == At(headroom, u))
        && InRounds(weight, headroom, consumed, active - over, r - Sum(headroom, over), share)
  {
    hide Sum, LargestRemainder;
    round :| LargestRemainder(weight, consumed, active, r, Sum(weight, active), round)
      && var over := Exceeding(round, headroom, active);
         if over == {} then forall u | u in active :: At(share, u) == At(round, u)
         else
           && (forall u | u in over :: At(share, u) == At(headroom, u))
           && InRounds(weight, headroom, consumed, active - over, r - Sum(headroom, over), share);
  }

  // ----- in the members' own terms ----------------------------------------------------------------

  function Weights(members: seq<MemberShare>): map<int, int>
    requires Distinct(members)
  {
    map m | m in members :: m.userId := if m.limit > 0 then m.limit else 0
  }

  /** What each can still take: of a charge what their limit leaves them, of a refund what they were charged. */
  function Rooms(delta: int, members: seq<MemberShare>): map<int, int>
    requires Distinct(members)
  {
    map m | m in members :: m.userId :=
      if delta < 0 then (if m.charged > 0 then m.charged else 0)
      else if m.limit > m.charged then m.limit - m.charged else 0
  }

  function Consumption(members: seq<MemberShare>): map<int, int>
    requires Distinct(members)
  {
    map m | m in members :: m.userId := m.consumed
  }

  /** The size of each member's share is what the rounds give them; members without a positive limit weigh nothing. */
  ghost predicate SharesAreInRounds(delta: int, members: seq<MemberShare>, shares: map<int, int>)
    requires Distinct(members)
  {
    InRounds(Weights(members), Rooms(delta, members), Consumption(members), set m | m in members :: m.userId,
             if delta < 0 then -delta else delta, Unsigned(delta, shares))
  }

  lemma SameWeights(members: seq<MemberShare>)
    requires Distinct(members)
    ensures TermsOf(members, false).weight == TermsOf(members, true).weight == Weights(members)
  {
  }

  lemma SameConsumption(members: seq<MemberShare>)
    requires Distinct(members)
    ensures TermsOf(members, false).consumed == TermsOf(members, true).consumed == Consumption(members)
  {
  }

  lemma SameRooms(members: seq<MemberShare>, delta: int)
    requires Distinct(members)
    ensures TermsOf(members, delta < 0).headroom == Rooms(delta, members)
  {
    var rooms, t := Rooms(delta, members), TermsOf(members, delta < 0);
    forall m | m in members ensures m.userId in rooms && rooms[m.userId] == Headroom(m, delta < 0) {
    }
    forall m | m in members ensures t.headroom[m.userId] == Headroom(m, delta < 0) {
    }
    forall u | u in rooms ensures u in t.headroom && rooms[u] == t.headroom[u] {
      var m :| m in members && m.userId == u;
    }
    assert t.headroom.Keys == rooms.Keys;
  }

  lemma InTermsOf(delta: int, members: seq<MemberShare>, shares: map<int, int>)
    requires Distinct(members)
    ensures var t := TermsOf(members, delta < 0);
      SharesAreInRounds(delta, members, shares) <==>
      InRounds(t.weight, t.headroom, t.consumed, t.weight.Keys, Abs(delta), Unsigned(delta, shares))
  {
    hide InRounds, Weights, Rooms, Consumption;
    SameWeights(members);
    SameConsumption(members);
    SameRooms(members, delta);
    TermsAreValid(members, delta < 0);
  }

  function Unsigned(delta: int, shares: map<int, int>): map<int, int> {
    map u | u in shares :: if delta < 0 then -shares[u] else shares[u]
  }

  lemma SharesAreSplit(delta: int, members: seq<MemberShare>, shares: map<int, int>)
    requires Distinct(members)
    ensures Shares(delta, members).Keys == Ids(members)
    ensures Unsigned(delta, Shares(delta, members)) == Split(TermsOf(members, delta < 0), Abs(delta))
    ensures shares.Keys == Ids(members) && Unsigned(delta, shares) == Unsigned(delta, Shares(delta, members)) ==>
      shares == Shares(delta, members)
  {
    hide Sum, Split, TermsOf;
    TermsAreValid(members, delta < 0);
    SplitKeys(TermsOf(members, delta < 0), Abs(delta));
    var s := Shares(delta, members);
    if shares.Keys == s.Keys && Unsigned(delta, shares) == Unsigned(delta, s) {
      forall u | u in shares ensures shares[u] == s[u] {
        assert Unsigned(delta, shares)[u] == Unsigned(delta, s)[u];
      }
    }
  }

  /** The shares are the only ones, for exactly the members, that the rounds give: and so is what the loop returns. */
  lemma SharesInRoundsIff(delta: int, members: seq<MemberShare>, shares: map<int, int>)
    requires Distinct(members) && shares.Keys == set m | m in members :: m.userId
    ensures SharesAreInRounds(delta, members, shares) <==> shares == Shares(delta, members)
  {
    hide Sum, Split, InRounds, TermsOf, SharesAreInRounds, Shares, Unsigned;
    var t := TermsOf(members, delta < 0);
    var split, mine := Split(t, Abs(delta)), Unsigned(delta, shares);
    TermsAreValid(members, delta < 0);
    InTermsOf(delta, members, shares);
    SplitInRounds(t, Abs(delta));
    SharesAreSplit(delta, members, shares);
    if SharesAreInRounds(delta, members, shares) {
      OneInRounds(t.weight, t.headroom, t.consumed, t.weight.Keys, Abs(delta), mine, split);
      SplitKeys(t, Abs(delta));
      SameMaps(delta, shares, split, t.weight.Keys);
    }
  }

  lemma SharesInRounds(delta: int, members: seq<MemberShare>)
    requires Distinct(members)
    ensures SharesAreInRounds(delta, members, Shares(delta, members))
  {
    hide Split, SharesAreInRounds, Shares, Unsigned;
    SharesAreSplit(delta, members, map[]);
    SharesInRoundsIff(delta, members, Shares(delta, members));
  }

  lemma SameMaps(delta: int, shares: map<int, int>, split: map<int, int>, ids: set<int>)
    requires shares.Keys == split.Keys == ids && forall u | u in ids :: At(Unsigned(delta, shares), u) == At(split, u)
    ensures Unsigned(delta, shares) == split
  {
    forall u | u in ids ensures Unsigned(delta, shares)[u] == split[u] {
      assert At(Unsigned(delta, shares), u) == At(split, u);
    }
    assert Unsigned(delta, shares).Keys == ids;
  }

  lemma SplitKeys(t: Terms, r: int)
    ensures Split(t, r).Keys == t.weight.Keys
  {
    hide Sum, Pass, Finish;
  }

  // ----- two members side by side ----------------------------------------------------------------------

  /** Between two members neither of whom hit their cap: both have the whole part of their exact share at one
      level, or one more; and the one with the larger remainder has one more if the other does, between equal
      remainders the heavier consumer, then the lower id, whatever their limits. */
  lemma LeftoverGoesByRemainder(delta: int, members: seq<MemberShare>, a: MemberShare, b: MemberShare)
      returns (r: int, w: int)
    requires Distinct(members) && a in members && b in members && a.limit > 0 && b.limit > 0
    requires Abs(At(Shares(delta, members), a.userId)) < (if delta < 0 then a.charged else a.limit - a.charged)
    requires Abs(At(Shares(delta, members), b.userId)) < (if delta < 0 then b.charged else b.limit - b.charged)
    ensures w > 0 && r >= 0
    ensures var x, y := Abs(At(Shares(delta, members), a.userId)), Abs(At(Shares(delta, members), b.userId));
      && (x == r * a.limit / w || x == r * a.limit / w + 1) && (y == r * b.limit / w || y == r * b.limit / w + 1)
      && (y == r * b.limit / w + 1
          && (|| r * a.limit % w > r * b.limit % w
              || (r * a.limit % w == r * b.limit % w
                  && (a.consumed > b.consumed || (a.consumed == b.consumed && a.userId < b.userId))))
          ==> x == r * a.limit / w + 1)
    ensures exists pinned ::
      && pinned <= Ids(members) && a.userId !in pinned && b.userId !in pinned
      && (forall m | m in members && m.userId in pinned ::
            Abs(At(Shares(delta, members), m.userId)) == Headroom(m, delta < 0))
      && w == Sum(TermsOf(members, delta < 0).weight, Ids(members) - pinned)
      && r == Abs(delta) - Sum(TermsOf(members, delta < 0).headroom, pinned)
  {
    hide Sum, Pass, Finish, Split, LargestRemainder, TermsOf;
    var t := TermsOf(members, delta < 0);
    TermsAreValid(members, delta < 0);
    var e := Finish(t, t.weight.Keys, Abs(delta));
    EndPartition(t, t.weight.Keys, Abs(delta));
    w, r := Sum(t.weight, e.open), e.remaining;
    Uncapped(delta, members, a);
    Uncapped(delta, members, b);
    SumZeroPositive(t, e.open, a.userId);
    assert Ids(members) - e.pinned == e.open;
    forall m | m in members && m.userId in e.pinned
      ensures Abs(At(Shares(delta, members), m.userId)) == Headroom(m, delta < 0)
    {
      TermsOfMember(members, delta < 0, m);
      ShareOf(delta, members, m.userId);
      PinnedShare(t, Abs(delta), m.userId);
    }
    if r > 0 {
      PassIsLargestRemainder(t, e.open, r, w);
      BothInRound(t, e.open, r, w, a.userId, b.userId);
    } else {
      NothingToDivide(r, w, a.limit);
      NothingToDivide(r, w, b.limit);
    }
  }

  lemma NothingToDivide(r: int, w: int, v: int)
    requires r == 0 && w > 0
    ensures r * v / w == 0 && r * v % w == 0
  {
    assert r * v == 0;
  }

  lemma Uncapped(delta: int, members: seq<MemberShare>, m: MemberShare)
    requires Distinct(members) && m in members && m.limit > 0
    requires Abs(At(Shares(delta, members), m.userId)) < (if delta < 0 then m.charged else m.limit - m.charged)
    ensures var t := TermsOf(members, delta < 0);
      var e := Finish(t, t.weight.Keys, Abs(delta));
      && t.Valid() && m.userId in e.open && At(t.weight, m.userId) == m.limit && At(t.consumed, m.userId) == m.consumed
      && Abs(At(Shares(delta, members), m.userId)) ==
           (if e.remaining <= 0 || Sum(t.weight, e.open) <= 0 then 0
            else At(Pass(t, e.open, e.remaining, Sum(t.weight, e.open)), m.userId))
  {
    hide Sum, Pass, Finish, Split, TermsOf;
    var t := TermsOf(members, delta < 0);
    TermsAreValid(members, delta < 0);
    TermsOfMember(members, delta < 0, m);
    ShareOf(delta, members, m.userId);
    ShareBounds(t, Abs(delta), m.userId);
    EndPartition(t, t.weight.Keys, Abs(delta));
    if m.userId in Finish(t, t.weight.Keys, Abs(delta)).pinned {
      PinnedShare(t, Abs(delta), m.userId);
    }
    OpenShare(t, Abs(delta), m.userId);
  }

  lemma BothInRound(t: Terms, open: set<int>, r: nat, w: int, u: int, v: int)
    requires w > 0 && u in open && v in open && LargestRemainder(t.weight, t.consumed, open, r, w, Pass(t, open, r, w))
    ensures var x, y := At(Pass(t, open, r, w), u), At(Pass(t, open, r, w), v);
      && (x == r * At(t.weight, u) / w || x == r * At(t.weight, u) / w + 1)
      && (y == r * At(t.weight, v) / w || y == r * At(t.weight, v) / w + 1)
      && (y == r * At(t.weight, v) / w + 1 && ServedFirst(t.weight, t.consumed, r, w, u, v) ==>
            x == r * At(t.weight, u) / w + 1)
  {
    hide Sum, Pass;
  }
}
