/** Largest-remainder split of whole requests among capped, weighted members: the
    specification of app/auth/pools.py `apportion`, independent of any list order. */
module CappedSplit {
  import opened Arith
  import opened Sums

  datatype MemberShare = MemberShare(userId: int, limit: int, charged: int, consumed: int)

  /** What one split reads, by user id. */
  datatype Terms = Terms(weight: map<int, int>, headroom: map<int, int>, consumed: map<int, int>) {
    ghost predicate Valid() {
      && weight.Keys == headroom.Keys == consumed.Keys
      && (forall u :: 0 <= At(weight, u))
      && (forall u :: 0 <= At(headroom, u))
    }
  }

  // ----- one pass ---------------------------------------------------------

  function Floor(t: Terms, r: nat, w: int, u: int): int
    requires w > 0
  {
    r * At(t.weight, u) / w
  }

  function Fraction(t: Terms, r: nat, w: int, u: int): int
    requires w > 0
  {
    r * At(t.weight, u) % w
  }

  /** Who takes a leftover request first: larger fraction, then heavier consumer, then lower id. */
  predicate Before(t: Terms, r: nat, w: int, u: int, v: int)
    requires w > 0
  {
    var fu, fv := Fraction(t, r, w, u), Fraction(t, r, w, v);
    var cu, cv := At(t.consumed, u), At(t.consumed, v);
    fu > fv || (fu == fv && (cu > cv || (cu == cv && u < v)))
  }

  ghost function Ahead(t: Terms, active: set<int>, r: nat, w: int, u: int): set<int>
    requires w > 0
  {
    set v | v in active && Before(t, r, w, v, u)
  }

  ghost function Floors(t: Terms, active: set<int>, r: nat, w: int): map<int, int>
    requires w > 0
  {
    map u | u in active :: Floor(t, r, w, u)
  }

  ghost function Leftover(t: Terms, active: set<int>, r: nat, w: int): int
    requires w > 0
  {
    r - Sum(Floors(t, active, r, w), active)
  }

  /** The floors of one pass with the leftover handed out by rank. */
  ghost function Pass(t: Terms, active: set<int>, r: nat, w: int): map<int, int>
    requires w > 0
  {
    var extra := Leftover(t, active, r, w);
    map u | u in active ::
      Floor(t, r, w, u) + if |Ahead(t, active, r, w, u)| < extra then 1 else 0
  }

  ghost function Over(t: Terms, active: set<int>, share: map<int, int>): set<int> {
    set u | u in active && At(share, u) > At(t.headroom, u)
  }

  // ----- the whole split --------------------------------------------------

  /** How a split ends: who was pinned at their headroom, who was not, and what those shared. */
  datatype Ending = Ending(pinned: set<int>, open: set<int>, remaining: int)

  ghost function Finish(t: Terms, active: set<int>, r: int): Ending
    decreases |active|
  {
    var w := Sum(t.weight, active);
    if active == {} || r <= 0 || w <= 0 then Ending({}, active, r)
    else
      var over := Over(t, active, Pass(t, active, r, w));
      if over == {} then Ending({}, active, r)
      else
        assert |active - over| < |active| by { Smaller(active, over); }
        var e := Finish(t, active - over, r - Sum(t.headroom, over));
        Ending(over + e.pinned, e.open, e.remaining)
  }

  /** The share of every member once the split has ended. */
  ghost function Split(t: Terms, r: int): map<int, int> {
    var e := Finish(t, t.weight.Keys, r);
    var w := Sum(t.weight, e.open);
    map u | u in t.weight.Keys ::
      if u in e.pinned then At(t.headroom, u)
      else if e.remaining <= 0 || w <= 0 then 0
      else At(Pass(t, e.open, e.remaining, w), u)
  }

  lemma Smaller(s: set<int>, t: set<int>)
    requires t <= s && t != {}
    ensures |s - t| < |s|
  {
    assert |s| == |s - t| + |t| by { assert s == (s - t) + t; }
    assert |t| > 0;
  }

  // ----- from members to terms --------------------------------------------

  function Headroom(m: MemberShare, refunding: bool): int {
    Max(0, if refunding then m.charged else m.limit - m.charged)
  }

  /** Member lists name each user once. */
  predicate Distinct(members: seq<MemberShare>) {
    forall i, j | 0 <= i < j < |members| :: members[i].userId != members[j].userId
  }

  function Ids(members: seq<MemberShare>): set<int> {
    set m | m in members :: m.userId
  }

  function TermsOf(members: seq<MemberShare>, refunding: bool): (t: Terms)
    requires Distinct(members)
  {
    Terms(
      map m | m in members :: m.userId := Max(0, m.limit),
      map m | m in members :: m.userId := Headroom(m, refunding),
      map m | m in members :: m.userId := m.consumed)
  }

  /** What the split returns: signed shares by user id. */
  ghost function Shares(delta: int, members: seq<MemberShare>): map<int, int>
    requires Distinct(members)
  {
    var s := Split(TermsOf(members, delta < 0), Abs(delta));
    map u | u in s :: if delta < 0 then -s[u] else s[u]
  }
}
