/** What one pass of the largest-remainder split guarantees before any cap is applied. */
module SplitPass {
  import opened Arith
  import opened Sums
  import opened Sorting
  import opened CappedSplit

  /** The pass is run over some active members of a valid split, with a positive weight to share by. */
  ghost predicate Ready(t: Terms, active: set<int>, r: nat, w: int) {
    t.Valid() && active <= t.weight.Keys && w == Sum(t.weight, active) && w > 0
  }

  ghost function Fractions(t: Terms, active: set<int>, r: nat, w: int): map<int, int>
    requires w > 0
  {
    map u | u in active :: Fraction(t, r, w, u)
  }

  ghost function Inexact(t: Terms, active: set<int>, r: nat, w: int): set<int>
    requires w > 0
  {
    set u | u in active && Fraction(t, r, w, u) > 0
  }

  lemma FloorsAndFractions(t: Terms, active: set<int>, r: nat, w: int)
    requires Ready(t, active, r, w)
    ensures w * Leftover(t, active, r, w) == Sum(Fractions(t, active, r, w), active)
  {
    var q, f := Floors(t, active, r, w), Fractions(t, active, r, w);
    var exact := map u | u in active :: r * At(t.weight, u);
    forall u | u in active ensures At(exact, u) == w * At(q, u) + 1 * At(f, u) {
      DivMod(r, At(t.weight, u), w);
    }
    SumLinear(exact, w, q, 1, f, active);
    SumLinear(exact, r, t.weight, 0, t.weight, active);
    assert w * (r - Sum(q, active)) == w * r - w * Sum(q, active);
    assert w * r == r * w;
  }

  /** The leftover is smaller than the number of members whose exact share is fractional. */
  lemma LeftoverFits(t: Terms, active: set<int>, r: nat, w: int)
    requires Ready(t, active, r, w)
    ensures 0 <= Leftover(t, active, r, w)
    ensures Leftover(t, active, r, w) > 0 ==> Leftover(t, active, r, w) < |Inexact(t, active, r, w)|
  {
    var f, some := Fractions(t, active, r, w), Inexact(t, active, r, w);
    var extra := Leftover(t, active, r, w);
    FloorsAndFractions(t, active, r, w);
    forall u | u in active ensures 0 <= At(f, u) < w {
      DivMod(r, At(t.weight, u), w);
    }
    SumNonNegative(f, active);
    SumSupport(f, active, some);
    var most := map u | u in some :: w - 1;
    SumLe(f, most, some);
    var ones := map u | u in some :: 1;
    SumLinear(most, w - 1, ones, 0, ones, some);
    SumOnes(ones, some);
    if extra < 0 {
      MulStrict(extra, 0, w);
    }
    if extra > 0 && extra >= |some| {
      Squeeze(w, extra, |some|);
    }
  }

  // ----- the order leftovers are handed out in -----------------------------

  ghost predicate Ranked(t: Terms, r: nat, w: int, s: seq<int>)
    requires w > 0
  {
    forall i, j | 0 <= i < j < |s| :: Before(t, r, w, s[i], s[j])
  }

  lemma PrefixSize(t: Terms, r: nat, w: int, s: seq<int>, n: nat)
    requires w > 0 && Ranked(t, r, w, s) && n <= |s|
    ensures |Elements(s[..n])| == n
  {
    forall i, j | 0 <= i < j < |s| ensures s[i] != s[j] {
      assert Before(t, r, w, s[i], s[j]);
    }
    assert NoDuplicates(s[..n]);
    ElementsSize(s[..n]);
  }

  /** A member's rank is its place in the sorted list. */
  lemma RankIsPlace(t: Terms, active: set<int>, r: nat, w: int, s: seq<int>, i: nat)
    requires w > 0 && Ranked(t, r, w, s) && Elements(s) == active && i < |s|
    ensures |Ahead(t, active, r, w, s[i])| == i
  {
    var ahead := Ahead(t, active, r, w, s[i]);
    forall v | v in ahead ensures v in Elements(s[..i]) {
      assert v in Elements(s);
      var j :| 0 <= j < |s| && s[j] == v;
      assert j < i;
      assert s[..i][j] == v;
    }
    forall v | v in Elements(s[..i]) ensures v in ahead {
      assert v in Elements(s);
    }
    assert ahead == Elements(s[..i]);
    PrefixSize(t, r, w, s, i);
  }

  /** Python's sort key: descending fraction, descending consumption, id. */
  function NotAfter(t: Terms, r: nat, w: int): (int, int) -> bool
    requires w > 0
  {
    (u, v) => u == v || Before(t, r, w, u, v)
  }

  lemma SortedByRank(t: Terms, r: nat, w: int, s: seq<int>)
    requires w > 0 && NoDuplicates(s)
    ensures Ranked(t, r, w, Sorted(NotAfter(t, r, w), s))
    ensures Elements(Sorted(NotAfter(t, r, w), s)) == Elements(s)
  {
    hide Fraction;
    var le := NotAfter(t, r, w);
    SortedSame(le, s);
    SortedOrdered(le, s);
    SameElements(s, Sorted(le, s));
  }

  ghost function Chosen(t: Terms, active: set<int>, r: nat, w: int, n: int): set<int>
    requires w > 0
  {
    set u | u in active && |Ahead(t, active, r, w, u)| < n
  }

  /** Exactly `n` members have rank below `n`. */
  lemma ChosenSize(t: Terms, active: set<int>, r: nat, w: int, n: nat)
    requires w > 0 && n <= |active|
    ensures |Chosen(t, active, r, w, n)| == n
  {
    var listed := Listing(active);
    var s := Sorted(NotAfter(t, r, w), listed);
    SortedByRank(t, r, w, listed);
    PrefixSize(t, r, w, s, |s|);
    assert s[..|s|] == s;
    forall u | u in Chosen(t, active, r, w, n) ensures u in Elements(s[..n]) {
      assert u in Elements(s);
      var i :| 0 <= i < |s| && s[i] == u;
      RankIsPlace(t, active, r, w, s, i);
      assert s[..n][i] == u;
    }
    forall u | u in Elements(s[..n]) ensures u in Chosen(t, active, r, w, n) {
      var j :| 0 <= j < n && s[j] == u;
      assert u in Elements(s);
      RankIsPlace(t, active, r, w, s, j);
    }
    assert Chosen(t, active, r, w, n) == Elements(s[..n]);
    PrefixSize(t, r, w, s, n);
  }

  // ----- the guarantees of a pass ------------------------------------------

  /** The shares of a pass add up to exactly what was to be split. */
  lemma PassTotal(t: Terms, active: set<int>, r: nat, w: int)
    requires Ready(t, active, r, w)
    ensures Sum(Pass(t, active, r, w), active) == r
  {
    var extra := Leftover(t, active, r, w);
    LeftoverFits(t, active, r, w);
    Fewer(Inexact(t, active, r, w), active);
    ChosenSize(t, active, r, w, extra);
    var chosen := Chosen(t, active, r, w, extra);
    var bonus := map u | u in chosen :: 1;
    SumPlus(Pass(t, active, r, w), Floors(t, active, r, w), bonus, active);
    SumSupport(bonus, active, chosen);
    SumOnes(bonus, chosen);
  }

  lemma Fewer(s: set<int>, t: set<int>)
    requires s <= t
    ensures |s| <= |t|
  {
    assert t == s + (t - s);
  }

  /** A leftover request only ever reaches a member whose exact share is fractional. */
  lemma LeftoverOnlyToFractions(t: Terms, active: set<int>, r: nat, w: int, u: int)
    requires Ready(t, active, r, w) && u in active
    requires At(Pass(t, active, r, w), u) != Floor(t, r, w, u)
    ensures At(Pass(t, active, r, w), u) == Floor(t, r, w, u) + 1
    ensures Fraction(t, r, w, u) > 0
  {
    LeftoverFits(t, active, r, w);
    DivMod(r, At(t.weight, u), w);
    if Fraction(t, r, w, u) == 0 {
      assert Inexact(t, active, r, w) <= Ahead(t, active, r, w, u);
      Fewer(Inexact(t, active, r, w), Ahead(t, active, r, w, u));
    }
  }

  /** Quota rule: every share of a pass is the floor or the ceiling of the exact one. */
  lemma PassIsRounding(t: Terms, active: set<int>, r: nat, w: int, u: int)
    requires Ready(t, active, r, w) && u in active
    ensures 0 <= At(Pass(t, active, r, w), u)
    ensures Abs(w * At(Pass(t, active, r, w), u) - r * At(t.weight, u)) < w
    ensures At(t.weight, u) == 0 ==> At(Pass(t, active, r, w), u) == 0
  {
    DivMod(r, At(t.weight, u), w);
    var p := At(Pass(t, active, r, w), u);
    var q := Floor(t, r, w, u);
    if p != q {
      LeftoverOnlyToFractions(t, active, r, w, u);
      assert w * (q + 1) == w * q + w;
    }
    if At(t.weight, u) == 0 {
      assert r * 0 == 0;
    }
  }

  /** By limit, then consumption, then the lower id. */
  predicate Outranks(t: Terms, v: int, u: int) {
    || At(t.weight, u) < At(t.weight, v)
    || (At(t.weight, u) == At(t.weight, v) && At(t.consumed, u) < At(t.consumed, v))
    || (At(t.weight, u) == At(t.weight, v) && At(t.consumed, u) == At(t.consumed, v) && v < u)
  }

  /** Fair rounding: a larger limit never gets a smaller share, between equal limits the heavier
      consumer gets at least as much, and between equal consumers the lower id. */
  lemma FairRounding(t: Terms, active: set<int>, r: nat, w: int, u: int, v: int)
    requires Ready(t, active, r, w) && u in active && v in active
    requires Outranks(t, v, u)
    ensures At(Pass(t, active, r, w), u) <= At(Pass(t, active, r, w), v)
  {
    DivMod(r, At(t.weight, u), w);
    DivMod(r, At(t.weight, v), w);
    var qu, qv := Floor(t, r, w, u), Floor(t, r, w, v);
    assert r * At(t.weight, u) <= r * At(t.weight, v);
    Monotone(w, qu, Fraction(t, r, w, u), qv, Fraction(t, r, w, v));
    if qu == qv {
      assert Before(t, r, w, v, u) || (r == 0 && At(t.weight, u) < At(t.weight, v)) by {
        if At(t.weight, u) < At(t.weight, v) && r > 0 {
          assert r * At(t.weight, u) < r * At(t.weight, v);
        }
      }
      if Before(t, r, w, v, u) {
        assert Ahead(t, active, r, w, v) <= Ahead(t, active, r, w, u);
        Fewer(Ahead(t, active, r, w, v), Ahead(t, active, r, w, u));
      } else {
        PassIsRounding(t, active, r, w, u);
        PassIsRounding(t, active, r, w, v);
        NothingToRound(w, At(Pass(t, active, r, w), u));
      }
    }
  }
}
