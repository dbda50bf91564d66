/** Finite sums of the values of a map over a set of keys; an absent key counts as 0. */
module Sums {

  function Max(a: int, b: int): int { if a < b then b else a }

  function Min(a: int, b: int): int { if a < b then a else b }

  /** The value at a key; a missing row reads as 0. */
  function At<K>(m: map<K, int>, k: K): int {
    if k in m then m[k] else 0
  }

  lemma AnElement<K>(s: set<K>) returns (k: K)
    requires s != {}
    ensures k in s
  {
    k :| k in s;
  }

  ghost function Sum<K(!new)>(m: map<K, int>, s: set<K>): int
    decreases |s|
  {
    if s == {} then 0
    else
      var k :| k in s;
      At(m, k) + Sum(m, s - {k})
  }

  lemma SumNone<K(!new)>(m: map<K, int>)
    ensures Sum(m, {}) == 0
  {
  }

  lemma {:induction false} SumPick<K(!new)>(m: map<K, int>, s: set<K>, k: K)
    requires k in s
    ensures Sum(m, s) == At(m, k) + Sum(m, s - {k})
    decreases |s|
  {
    var j :| j in s && Sum(m, s) == At(m, j) + Sum(m, s - {j});
    if j != k {
      SumPick(m, s - {j}, k);
      SumPick(m, s - {k}, j);
      assert s - {j} - {k} == s - {k} - {j};
    }
  }

  lemma {:induction false} SumUnion<K(!new)>(m: map<K, int>, s: set<K>, t: set<K>)
    requires s !! t
    ensures Sum(m, s + t) == Sum(m, s) + Sum(m, t)
    decreases |s|
  {
    if s == {} {
      assert s + t == t;
    } else {
      var k :| k in s;
      SumPick(m, s, k);
      SumPick(m, s + t, k);
      assert s + t - {k} == (s - {k}) + t;
      SumUnion(m, s - {k}, t);
    }
  }

  /** Splitting the keys in two splits the sum. */
  lemma SumSplit<K(!new)>(m: map<K, int>, s: set<K>, t: set<K>)
    requires t <= s
    ensures Sum(m, s) == Sum(m, t) + Sum(m, s - t)
  {
    assert t + (s - t) == s;
    SumUnion(m, t, s - t);
  }

  lemma {:induction false} SumSame<K(!new)>(m: map<K, int>, n: map<K, int>, s: set<K>)
    requires forall k | k in s :: At(m, k) == At(n, k)
    ensures Sum(m, s) == Sum(n, s)
    decreases |s|
  {
    if s != {} {
      var k :| k in s;
      SumPick(m, s, k);
      SumPick(n, s, k);
      SumSame(m, n, s - {k});
    }
  }

  lemma {:induction false} SumLe<K(!new)>(m: map<K, int>, n: map<K, int>, s: set<K>)
    requires forall k | k in s :: At(m, k) <= At(n, k)
    ensures Sum(m, s) <= Sum(n, s)
    decreases |s|
  {
    if s != {} {
      var k :| k in s;
      SumPick(m, s, k);
      SumPick(n, s, k);
      SumLe(m, n, s - {k});
    }
  }

  lemma {:induction false} SumNonNegative<K(!new)>(m: map<K, int>, s: set<K>)
    requires forall k | k in s :: 0 <= At(m, k)
    ensures 0 <= Sum(m, s)
    ensures forall k | k in s :: At(m, k) <= Sum(m, s)
    decreases |s|
  {
    if s != {} {
      forall k | k in s ensures At(m, k) <= Sum(m, s) {
        SumPick(m, s, k);
        SumNonNegative(m, s - {k});
      }
    }
  }

  /** Non-negative terms that add up to 0 are all 0. */
  lemma SumZero<K(!new)>(m: map<K, int>, s: set<K>)
    requires forall k | k in s :: 0 <= At(m, k)
    requires Sum(m, s) == 0
    ensures forall k | k in s :: At(m, k) == 0
  {
    SumNonNegative(m, s);
  }

  /** Keys the map gives 0 do not contribute. */
  lemma SumSupport<K(!new)>(m: map<K, int>, s: set<K>, t: set<K>)
    requires t <= s
    requires forall k | k in s && k !in t :: At(m, k) == 0
    ensures Sum(m, s) == Sum(m, t)
  {
    SumSplit(m, s, t);
    SumSame(m, map[], s - t);
    SumEmptyMap<K>(s - t);
  }

  lemma {:induction false} SumEmptyMap<K(!new)>(s: set<K>)
    ensures Sum(map[], s) == 0
    decreases |s|
  {
    if s != {} {
      var k :| k in s;
      SumPick(map[], s, k);
      SumEmptyMap(s - {k});
    }
  }

  /** The sum of a pointwise linear combination. */
  lemma {:induction false} SumLinear<K(!new)>(m: map<K, int>, a: int, p: map<K, int>, b: int, q: map<K, int>, s: set<K>)
    requires forall k | k in s :: At(m, k) == a * At(p, k) + b * At(q, k)
    ensures Sum(m, s) == a * Sum(p, s) + b * Sum(q, s)
    decreases |s|
  {
    if s == {} {
      assert Sum(m, s) == 0 && a * Sum(p, s) == 0 && b * Sum(q, s) == 0;
    } else {
      var k := AnElement(s);
      SumPick(m, s, k);
      SumPick(p, s, k);
      SumPick(q, s, k);
      SumLinear(m, a, p, b, q, s - {k});
      Distribute(a, At(p, k), Sum(p, s - {k}));
      Distribute(b, At(q, k), Sum(q, s - {k}));
    }
  }

  lemma Distribute(a: int, x: int, y: int)
    ensures a * (x + y) == a * x + a * y
  {
  }

  /** The sum of a pointwise sum. */
  lemma SumPlus<K(!new)>(m: map<K, int>, p: map<K, int>, q: map<K, int>, s: set<K>)
    requires forall k | k in s :: At(m, k) == At(p, k) + At(q, k)
    ensures Sum(m, s) == Sum(p, s) + Sum(q, s)
  {
    SumLinear(m, 1, p, 1, q, s);
  }

  /** Rewriting one key changes the sum by that key's change. */
  lemma SumUpdate<K(!new)>(m: map<K, int>, n: map<K, int>, k: K, s: set<K>)
    requires forall j | j in s && j != k :: At(m, j) == At(n, j)
    ensures Sum(n, s) == Sum(m, s) + (if k in s then At(n, k) - At(m, k) else 0)
  {
    if k in s {
      SumPick(m, s, k);
      SumPick(n, s, k);
    }
    SumSame(m, n, s - {k});
    assert k !in s ==> s - {k} == s;
  }

  lemma {:induction false} SumOnes<K(!new)>(m: map<K, int>, s: set<K>)
    requires forall k | k in s :: At(m, k) == 1
    ensures Sum(m, s) == |s|
    decreases |s|
  {
    if s != {} {
      var k :| k in s;
      SumPick(m, s, k);
      SumOnes(m, s - {k});
    }
  }

  function Plus<K>(a: map<K, int>, b: map<K, int>): map<K, int> {
    map k | k in a.Keys + b.Keys :: At(a, k) + At(b, k)
  }

  function Only<K>(a: map<K, int>, p: K -> bool): map<K, int> {
    map k | k in a && p(k) :: a[k]
  }

  ghost predicate NoDuplicates<T>(s: seq<T>) {
    forall i, j | 0 <= i < j < |s| :: s[i] != s[j]
  }

  function Elements<T(==)>(s: seq<T>): set<T> { set x | x in s }

  lemma {:induction false} ElementsSize<T>(s: seq<T>)
    requires NoDuplicates(s)
    ensures |Elements(s)| == |s|
    decreases |s|
  {
    if s == [] {
      assert Elements(s) == {};
    } else {
      ElementsSize(s[1..]);
      assert Elements(s) == {s[0]} + Elements(s[1..]);
    }
  }

  lemma {:induction false} OnceEach<T>(s: seq<T>)
    requires NoDuplicates(s)
    ensures forall x :: multiset(s)[x] == if x in s then 1 else 0
    decreases |s|
  {
    if s != [] {
      OnceEach(s[1..]);
      assert s == [s[0]] + s[1..];
      assert s[0] !in s[1..];
    }
  }

  /** Rearranging a list without duplicates gives one. */
  lemma SameElements<T>(s: seq<T>, p: seq<T>)
    requires NoDuplicates(s) && multiset(p) == multiset(s)
    ensures NoDuplicates(p) && Elements(p) == Elements(s)
  {
    OnceEach(s);
    forall x ensures x in p <==> x in s {
      assert x in p <==> x in multiset(p);
      assert x in s <==> x in multiset(s);
    }
    forall i, j | 0 <= i < j < |p| ensures p[i] != p[j] {
      assert p == p[..j] + p[j..];
      assert p[..j][i] in multiset(p[..j]) && p[j..][0] in multiset(p[j..]);
      assert multiset(p)[p[i]] <= 1;
    }
  }

  lemma {:induction false} Listing<T>(s: set<T>) returns (listed: seq<T>)
    ensures NoDuplicates(listed) && Elements(listed) == s
    decreases |s|
  {
    if s == {} {
      listed := [];
    } else {
      var x := AnElement(s);
      var rest := Listing(s - {x});
      assert forall y :: y in rest <==> y in Elements(rest);
      listed := [x] + rest;
      assert Elements(listed) == {x} + Elements(rest);
    }
  }

  /** The elements of a set, each once, in some order. */
  method ListElements<K(==)>(s: set<K>) returns (keys: seq<K>)
    ensures forall k :: k in keys <==> k in s
    ensures NoDuplicates(keys)
  {
    keys := [];
    var left := s;
    while left != {}
      invariant forall k :: k in s <==> k in keys || k in left
      invariant forall k | k in keys :: k !in left
      invariant NoDuplicates(keys)
      decreases |left|
    {
      var k :| k in left;
      left := left - {k};
      keys := keys + [k];
    }
  }

  /** The keys of a dictionary. */
  method ListKeys<K(==), V>(m: map<K, V>) returns (keys: seq<K>)
    ensures forall k :: k in keys <==> k in m
    ensures NoDuplicates(keys)
  {
    keys := ListElements(m.Keys);
  }

  // ----- sums grouped by a projection of the key ----------------------------

  ghost function Fiber<K(!new), G>(m: map<K, int>, f: K -> G, g: G): set<K> {
    set k | k in m && f(k) == g
  }

  ghost function FiberOver<K(!new), G>(m: map<K, int>, f: K -> G, gs: set<G>): set<K> {
    set k | k in m && f(k) in gs
  }

  /** The total of the entries that project to `g`. */
  ghost function Group<K(!new), G>(m: map<K, int>, f: K -> G, g: G): int {
    Sum(m, Fiber(m, f, g))
  }

  /** Adding to one entry adds to the group it projects to. */
  lemma GroupBump<K(!new), G>(m: map<K, int>, f: K -> G, g: G, k: K, n: int)
    ensures Group(m[k := At(m, k) + n], f, g) == Group(m, f, g) + if f(k) == g then n else 0
  {
    hide Sum;
    var m' := m[k := At(m, k) + n];
    SumUpdate(m, m', k, Fiber(m', f, g));
    SumSupport(m, Fiber(m', f, g), Fiber(m, f, g));
  }

  /** Groups add up entry by entry. */
  lemma GroupPlus<K(!new), G>(m: map<K, int>, p: map<K, int>, a: int, q: map<K, int>, f: K -> G, g: G)
    requires forall k :: At(m, k) == At(p, k) + a * At(q, k)
    ensures Group(m, f, g) == Group(p, f, g) + a * Group(q, f, g)
  {
    hide Sum;
    var all := Fiber(m, f, g) + Fiber(p, f, g) + Fiber(q, f, g);
    SumSupport(m, all, Fiber(m, f, g));
    SumSupport(p, all, Fiber(p, f, g));
    SumSupport(q, all, Fiber(q, f, g));
    SumLinear(m, 1, p, a, q, all);
  }

  lemma GroupNonNegative<K(!new), G>(m: map<K, int>, f: K -> G, g: G)
    requires forall k | k in m :: m[k] >= 0
    ensures Group(m, f, g) >= 0
  {
    hide Sum;
    SumNonNegative(m, Fiber(m, f, g));
  }

  /** The groups of a set of projections make up the entries that project into it. */
  lemma {:induction false} GroupsAddUp<K(!new), G(!new)>(m: map<K, int>, f: K -> G, totals: map<G, int>, gs: set<G>)
    requires forall g | g in gs :: At(totals, g) == Group(m, f, g)
    ensures Sum(totals, gs) == Sum(m, FiberOver(m, f, gs))
    decreases |gs|
  {
    hide Sum;
    if gs == {} {
      assert FiberOver(m, f, gs) == {};
      SumNone(totals);
      SumNone(m);
    } else {
      var g := AnElement(gs);
      GroupsAddUp(m, f, totals, gs - {g});
      SumPick(totals, gs, g);
      assert FiberOver(m, f, gs) == Fiber(m, f, g) + FiberOver(m, f, gs - {g});
      SumUnion(m, Fiber(m, f, g), FiberOver(m, f, gs - {g}));
    }
  }

  ghost function Seen<K(!new)>(keys: seq<K>, n: nat): set<K>
    requires n <= |keys|
  {
    Elements(keys[..n])
  }

  lemma SeenNext<K(!new)>(keys: seq<K>, n: nat)
    requires n < |keys|
    requires NoDuplicates(keys)
    ensures Seen(keys, n + 1) == Seen(keys, n) + {keys[n]}
    ensures keys[n] !in Seen(keys, n)
  {
    assert keys[..n+1] == keys[..n] + [keys[n]];
  }

  lemma SeenAll<K(!new), V>(keys: seq<K>, m: map<K, V>)
    requires forall k :: k in keys <==> k in m
    ensures Seen(keys, |keys|) == m.Keys
  {
    assert keys[..|keys|] == keys;
  }

  // ----- folding a dictionary by a projection of its keys -----------------------

  /** One entry per projected key, holding its group's total. */
  ghost function Collapse<K(!new), G(!new)>(m: map<K, int>, f: K -> G): map<G, int> {
    map g | g in (set k | k in m :: f(k)) :: Group(m, f, g)
  }

  lemma CollapseAt<K(!new), G(!new)>(m: map<K, int>, f: K -> G, g: G)
    ensures At(Collapse(m, f), g) == Group(m, f, g)
  {
    hide Sum;
    if g !in Collapse(m, f) {
      assert Fiber(m, f, g) == {};
      SumNone(m);
    }
  }

  /** Folding a fold is folding by the composed projection. */
  lemma CollapseTwice<K(!new), G(!new), H(!new)>(m: map<K, int>, f: K -> G, h: G -> H, both: K -> H, g: H)
    requires forall k :: both(k) == h(f(k))
    ensures Group(Collapse(m, f), h, g) == Group(m, both, g)
  {
    hide Sum;
    var totals := Collapse(m, f);
    var gs := Fiber(totals, h, g);
    forall j | j in gs ensures At(totals, j) == Group(m, f, j) {
      CollapseAt(m, f, j);
    }
    GroupsAddUp(m, f, totals, gs);
    assert FiberOver(m, f, gs) == Fiber(m, both, g);
  }

  /** Keeping only some keys keeps a group whole or leaves nothing of it, when the projection decides. */
  lemma GroupOnly<K(!new), G>(m: map<K, int>, p: K -> bool, f: K -> G, g: G, kept: bool)
    requires forall k | f(k) == g :: p(k) == kept
    ensures Group(Only(m, p), f, g) == if kept then Group(m, f, g) else 0
  {
    hide Sum;
    if kept {
      assert Fiber(Only(m, p), f, g) == Fiber(m, f, g);
      SumSame(Only(m, p), m, Fiber(m, f, g));
    } else {
      assert Fiber(Only(m, p), f, g) == {};
      SumNone(Only(m, p));
    }
  }

  ghost function SeenFiber<K(!new), G(!new)>(f: K -> G, seen: set<K>, g: G): set<K> {
    set k | k in seen && f(k) == g
  }

  ghost function SeenGroup<K(!new), G(!new)>(m: map<K, int>, f: K -> G, seen: set<K>, g: G): int {
    Sum(m, SeenFiber(f, seen, g))
  }

  lemma NothingSeen<K(!new), G(!new)>(m: map<K, int>, f: K -> G)
    ensures forall g :: SeenGroup(m, f, {}, g) == 0
  {
    hide Sum;
    forall g ensures SeenGroup(m, f, {}, g) == 0 {
      assert SeenFiber(f, {}, g) == {};
      SumNone(m);
    }
  }

  lemma SeenGroupNext<K(!new), G(!new)>(m: map<K, int>, f: K -> G, seen: set<K>, key: K, g: G)
    requires key !in seen && key in m
    ensures SeenGroup(m, f, seen + {key}, g) == SeenGroup(m, f, seen, g) + if f(key) == g then m[key] else 0
  {
    hide Sum;
    var before, after := SeenFiber(f, seen, g), SeenFiber(f, seen + {key}, g);
    if f(key) == g {
      assert after - {key} == before;
      SumPick(m, after, key);
    } else {
      assert after == before;
    }
  }

  lemma AllSeen<K(!new), G(!new)>(m: map<K, int>, f: K -> G)
    ensures forall g :: SeenGroup(m, f, m.Keys, g) == Group(m, f, g)
  {
    hide Sum;
    forall g ensures SeenGroup(m, f, m.Keys, g) == Group(m, f, g) {
      assert SeenFiber(f, m.Keys, g) == Fiber(m, f, g);
    }
  }

  /** The fold as a loop. */
  method FoldBy<K(==, !new), G(==, !new)>(m: map<K, int>, f: K -> G) returns (folded: map<G, int>)
    ensures folded == Collapse(m, f)
  {
    hide Sum, SeenGroup;
    var keys := ListKeys(m);
    folded := map[];
    NothingSeen(m, f);
    assert Seen(keys, 0) == {};
    for i := 0 to |keys|
      invariant forall g :: g in folded <==> exists k | k in Seen(keys, i) :: f(k) == g
      invariant forall g :: At(folded, g) == SeenGroup(m, f, Seen(keys, i), g)
    {
      SeenNext(keys, i);
      assert keys[i] in m;
      ghost var before := folded;
      var fk := f(keys[i]);
      forall g ensures SeenGroup(m, f, Seen(keys, i + 1), g)
        == SeenGroup(m, f, Seen(keys, i), g) + if fk == g then m[keys[i]] else 0
      {
        SeenGroupNext(m, f, Seen(keys, i), keys[i], g);
      }
      folded := folded[fk := At(folded, fk) + m[keys[i]]];
      forall g ensures At(folded, g) == SeenGroup(m, f, Seen(keys, i + 1), g) {
        assert At(before, g) == SeenGroup(m, f, Seen(keys, i), g);
      }
    }
    SeenAll(keys, m);
    AllSeen(m, f);
    assert folded.Keys == Collapse(m, f).Keys;
    forall g | g in folded ensures folded[g] == Collapse(m, f)[g] {
      assert At(folded, g) == Group(m, f, g);
    }
  }

  /** An increment-on-conflict upsert of keyed rows. */
  method Upsert<K(==, !new)>(table: map<K, int>, rows: map<K, int>) returns (after: map<K, int>)
    ensures after == Plus(table, rows)
  {
    after := table;
    var keys := ListKeys(rows);
    assert Seen(keys, 0) == {};
    hide NoDuplicates, Seen;
    for i := 0 to |keys|
      invariant forall k :: k in after <==> k in table || k in Seen(keys, i)
      invariant forall k | k in after :: after[k] == At(table, k) + if k in Seen(keys, i) then rows[k] else 0
    {
      SeenNext(keys, i);
      after := after[keys[i] := At(after, keys[i]) + rows[keys[i]]];
    }
    SeenAll(keys, rows);
  }
}
