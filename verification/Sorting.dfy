/** Sorting a list by an order on its elements. */
module Sorting {

  ghost predicate IsOrder<T>(le: (T, T) -> bool, s: seq<T>) {
    && (forall a, b | a in s && b in s :: le(a, b) || le(b, a))
    && (forall a, b, c | a in s && b in s && c in s && le(a, b) && le(b, c) :: le(a, c))
  }

  ghost predicate Ordered<T>(le: (T, T) -> bool, s: seq<T>) {
    forall i, j | 0 <= i < j < |s| :: le(s[i], s[j])
  }

  function Placed<T>(le: (T, T) -> bool, s: seq<T>, x: T): seq<T> {
    if s == [] then [x]
    else if le(s[0], x) then [s[0]] + Placed(le, s[1..], x)
    else [x] + s
  }

  /** Stable. */
  function Sorted<T>(le: (T, T) -> bool, s: seq<T>): seq<T>
    decreases |s|
  {
    if s == [] then [] else Placed(le, Sorted(le, s[..|s| - 1]), s[|s| - 1])
  }

  lemma {:induction false} PlacedSame<T>(le: (T, T) -> bool, s: seq<T>, x: T)
    ensures multiset(Placed(le, s, x)) == multiset(s) + multiset{x}
  {
    if s != [] {
      assert s == [s[0]] + s[1..];
      if le(s[0], x) {
        PlacedSame(le, s[1..], x);
      }
    }
  }

  lemma OrderedCons<T>(le: (T, T) -> bool, x: T, s: seq<T>)
    requires Ordered(le, s) && forall y | y in s :: le(x, y)
    ensures Ordered(le, [x] + s)
  {
  }

  /** The head of an ordered list comes before all of it. */
  lemma HeadFirst<T>(le: (T, T) -> bool, s: seq<T>, x: T)
    requires Ordered(le, s) && x in s
    ensures x == s[0] || le(s[0], x)
  {
    var i :| 0 <= i < |s| && s[i] == x;
  }

  lemma {:induction false} PlacedOrdered<T>(le: (T, T) -> bool, s: seq<T>, x: T)
    requires Ordered(le, s) && IsOrder(le, s + [x])
    ensures Ordered(le, Placed(le, s, x))
  {
    hide IsOrder, Ordered;
    if s == [] {
      OrderedOne(le, x);
    } else {
      var all := s + [x];
      assert s[0] in all && x in all && forall y | y in s :: y in all;
      TailOrdered(le, s);
      if le(s[0], x) {
        SuborderOf(le, s[1..] + [x], all);
        PlacedOrdered(le, s[1..], x);
        PlacedSame(le, s[1..], x);
        forall y | y in Placed(le, s[1..], x) ensures le(s[0], y) {
          assert y in multiset(Placed(le, s[1..], x));
          if y != x {
            HeadFirst(le, s, y);
            OrderAt(le, all, s[0], y, y);
          }
        }
        OrderedCons(le, s[0], Placed(le, s[1..], x));
      } else {
        forall y | y in s ensures le(x, y) {
          HeadFirst(le, s, y);
          OrderAt(le, all, x, s[0], y);
        }
        OrderedCons(le, x, s);
      }
    }
  }

  lemma OrderAt<T>(le: (T, T) -> bool, s: seq<T>, a: T, b: T, c: T)
    requires IsOrder(le, s) && a in s && b in s && c in s
    ensures le(a, a) && (le(a, b) || le(b, a)) && (le(a, b) && le(b, c) ==> le(a, c))
  {
  }

  lemma SuborderOf<T>(le: (T, T) -> bool, s: seq<T>, all: seq<T>)
    requires IsOrder(le, all) && forall x | x in s :: x in all
    ensures IsOrder(le, s)
  {
  }

  lemma OrderedOne<T>(le: (T, T) -> bool, x: T)
    ensures Ordered(le, [x])
  {
  }

  lemma TailOrdered<T>(le: (T, T) -> bool, s: seq<T>)
    requires Ordered(le, s) && s != []
    ensures Ordered(le, s[1..])
  {
  }

  lemma {:induction false} SortedSame<T>(le: (T, T) -> bool, s: seq<T>)
    ensures multiset(Sorted(le, s)) == multiset(s)
    decreases |s|
  {
    if s != [] {
      var last := |s| - 1;
      SortedSame(le, s[..last]);
      PlacedSame(le, Sorted(le, s[..last]), s[last]);
      assert s == s[..last] + [s[last]];
    }
  }

  lemma {:induction false} SortedOrdered<T>(le: (T, T) -> bool, s: seq<T>)
    requires IsOrder(le, s)
    ensures Ordered(le, Sorted(le, s))
    decreases |s|
  {
    if s != [] {
      var last := |s| - 1;
      var sorted := Sorted(le, s[..last]);
      SortedSame(le, s[..last]);
      assert s == s[..last] + [s[last]];
      assert forall x | x in s[..last] :: x in s;
      SortedOrdered(le, s[..last]);
      forall x | x in sorted + [s[last]] ensures x in s {
        assert x in sorted ==> x in multiset(sorted);
      }
      PlacedOrdered(le, sorted, s[last]);
    }
  }

  lemma TailSame<T>(s: seq<T>)
    requires s != []
    ensures multiset(s[1..]) == multiset(s) - multiset{s[0]}
  {
    assert s == [s[0]] + s[1..];
  }

  /** There is one way to order a collection, when no two elements come before each other. */
  lemma {:induction false} OneOrder<T>(le: (T, T) -> bool, a: seq<T>, b: seq<T>)
    requires Ordered(le, a) && Ordered(le, b) && multiset(a) == multiset(b)
    requires forall x, y | x in a && y in a && le(x, y) && le(y, x) :: x == y
    ensures a == b
    decreases |a|
  {
    hide Ordered;
    assert |a| == |multiset(a)| == |multiset(b)| == |b|;
    if a != [] {
      assert a[0] in multiset(b) && b[0] in multiset(a);
      HeadFirst(le, a, b[0]);
      HeadFirst(le, b, a[0]);
      TailSame(a);
      TailSame(b);
      TailOrdered(le, a);
      TailOrdered(le, b);
      assert forall x | x in a[1..] :: x in a;
      OneOrder(le, a[1..], b[1..]);
      assert a == [a[0]] + a[1..] && b == [b[0]] + b[1..];
    }
  }
}
