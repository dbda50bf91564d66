/** The model list of app/cache.py and its lazily rebuilt index from bare names to canonical ids. */
module ModelCache {
  import opened Sums
  import opened ModelNames
  import opened Sorting

  // ----- sorting ids -----------------------------------------------------------------

  /** Strings in order of their characters' codes. */
  predicate NotAfter(a: string, b: string) {
    a == "" || (b != "" && (a[0] < b[0] || (a[0] == b[0] && NotAfter(a[1..], b[1..]))))
  }

  lemma {:induction false} TotalOrder(a: string, b: string)
    ensures NotAfter(a, b) || NotAfter(b, a)
    ensures NotAfter(a, b) && NotAfter(b, a) ==> a == b
    ensures NotAfter(a, a)
    decreases |a| + |b|
  {
    if a != "" && b != "" {
      TotalOrder(a[1..], b[1..]);
      assert a == [a[0]] + a[1..] && b == [b[0]] + b[1..];
    } else if a != "" {
      TotalOrder(a[1..], b);
    }
  }

  lemma {:induction false} Transitive(a: string, b: string, c: string)
    requires NotAfter(a, b) && NotAfter(b, c)
    ensures NotAfter(a, c)
  {
    if a != "" && a[0] == b[0] && b[0] == c[0] {
      Transitive(a[1..], b[1..], c[1..]);
    }
  }

  function InOrder(ids: seq<string>): seq<string> { Sorted(NotAfter, ids) }

  lemma InOrderIs(ids: seq<string>)
    ensures Ordered(NotAfter, InOrder(ids)) && multiset(InOrder(ids)) == multiset(ids)
    ensures forall x, y | x in ids && y in ids && NotAfter(x, y) && NotAfter(y, x) :: x == y
  {
    forall a, b ensures (NotAfter(a, b) || NotAfter(b, a)) && (NotAfter(a, b) && NotAfter(b, a) ==> a == b) {
      TotalOrder(a, b);
    }
    forall a, b, c | NotAfter(a, b) && NotAfter(b, c) ensures NotAfter(a, c) {
      Transitive(a, b, c);
    }
    SortedOrdered(NotAfter, ids);
    SortedSame(NotAfter, ids);
  }

  // ----- the linear scan the index stands for ----------------------------------------------

  /** What follows the first '/', or "" when nothing does. */
  function BareName(id: string): string {
    if Find(id, '/') == |id| then "" else id[Find(id, '/') + 1..]
  }

  /** The ids serving a bare name, in list order. */
  function Serving(ids: seq<string>, name: string): seq<string>
    decreases |ids|
  {
    if ids == [] then []
    else
      var last := |ids| - 1;
      Serving(ids[..last], name) + if BareName(ids[last]) == name then [ids[last]] else []
  }

  function KnownIds(ids: seq<string>): set<string> { set id | id in ids && id != "" }

  lemma ServingStep(ids: seq<string>, i: nat, name: string)
    requires i < |ids|
    ensures Serving(ids[..i + 1], name) == if BareName(ids[i]) == name then Serving(ids[..i], name) + [ids[i]]
      else Serving(ids[..i], name)
  {
    assert ids[..i + 1][..i] == ids[..i];
  }

  lemma KnownStep(ids: seq<string>, i: nat)
    requires i < |ids|
    ensures KnownIds(ids[..i + 1]) == KnownIds(ids[..i]) + if ids[i] != "" then {ids[i]} else {}
  {
    assert ids[..i + 1] == ids[..i] + [ids[i]];
  }

  lemma NothingServed()
    ensures KnownIds([]) == {} && IndexOf(map[], [])
  {
  }

  lemma EmptyIdIsBare()
    ensures BareName("") == ""
  {
  }

  function Without(ids: seq<string>, model: string): seq<string> {
    if ids == [] then [] else (if ids[0] != model then [ids[0]] else []) + Without(ids[1..], model)
  }

  function WithoutProvider(ids: seq<string>, key: string): seq<string> {
    if ids == [] then [] else (if StartsWith(ids[0], key + "/") then [] else [ids[0]]) + WithoutProvider(ids[1..], key)
  }

  lemma {:induction false} ServingIs(ids: seq<string>, name: string)
    ensures forall id :: multiset(Serving(ids, name))[id] == if BareName(id) == name then multiset(ids)[id] else 0
    decreases |ids|
  {
    if ids != [] {
      var last := |ids| - 1;
      ServingIs(ids[..last], name);
      assert ids == ids[..last] + [ids[last]];
    }
  }

  // ----- what the pieces mean -------------------------------------------------------------

  /** By the first character in which they differ, a prefix first. */
  lemma {:induction false} NotAfterIff(a: string, b: string)
    ensures NotAfter(a, b) <==>
      a <= b || exists i :: 0 <= i < |a| && i < |b| && a[..i] == b[..i] && a[i] < b[i]
    decreases |a|
  {
    if a == "" {
    } else if b == "" {
    } else if a[0] != b[0] {
      assert a[..0] == b[..0];
      assert forall i | 0 < i < |a| && i < |b| :: a[..i][0] == a[0] && b[..i][0] == b[0];
    } else {
      NotAfterIff(a[1..], b[1..]);
      assert a <= b <==> a[1..] <= b[1..] by { PrefixTail(a, b); }
      if i :| 0 <= i < |a| && i < |b| && a[..i] == b[..i] && a[i] < b[i] {
        assert i > 0 && a[1..][..i - 1] == a[..i][1..] && b[1..][..i - 1] == b[..i][1..];
        assert a[1..][i - 1] < b[1..][i - 1];
      }
      if i :| 0 <= i < |a[1..]| && i < |b[1..]| && a[1..][..i] == b[1..][..i] && a[1..][i] < b[1..][i] {
        assert a[..i + 1] == [a[0]] + a[1..][..i] && b[..i + 1] == [b[0]] + b[1..][..i];
        assert a[i + 1] < b[i + 1];
      }
    }
  }

  lemma PrefixTail(a: string, b: string)
    requires a != "" && b != "" && a[0] == b[0]
    ensures a <= b <==> a[1..] <= b[1..]
  {
    assert a == [a[0]] + a[1..] && b == [b[0]] + b[1..];
  }

  /** The bare name is what follows the first slash; an id without one has none. */
  lemma BareNameIs(key: string, rest: string)
    requires '/' !in key
    ensures BareName(key + "/" + rest) == rest && BareName(key) == ""
  {
    var id := key + "/" + rest;
    assert id[|key|] == '/' && forall i | 0 <= i < |key| :: id[i] == key[i];
    FindIs(id, '/', |key|);
    assert id[|key| + 1..] == rest;
  }

  /** Taking a model, or a provider's models, off a list goes id by id and keeps the order of the rest. */
  lemma {:induction false} RemovedOneByOne(ids: seq<string>, others: seq<string>, id: string, model: string,
                                           key: string)
    ensures Without([id], model) == if id == model then [] else [id]
    ensures Without(ids + others, model) == Without(ids, model) + Without(others, model)
    ensures WithoutProvider([id], key) == if |key| < |id| && id[..|key|] == key && id[|key|] == '/' then [] else [id]
    ensures WithoutProvider(ids + others, key) == WithoutProvider(ids, key) + WithoutProvider(others, key)
    decreases |ids|
  {
    assert Without([id][1..], model) == [] && WithoutProvider([id][1..], key) == [];
    assert StartsWith(id, key + "/") <==> |key| < |id| && id[..|key|] == key && id[|key|] == '/' by {
      if |key| < |id| {
        assert id[..|key| + 1] == id[..|key|] + [id[|key|]];
      }
    }
    if ids == [] {
      assert ids + others == others;
    } else {
      assert (ids + others)[0] == ids[0] && (ids + others)[1..] == ids[1..] + others;
      RemovedOneByOne(ids[1..], others, id, model, key);
    }
  }

  // ----- the cache ------------------------------------------------------------------------

  /** A list object: writers hand over a new one or one handed over before, and nobody changes one in place. */
  class ModelList {
    const ids: seq<string>

    constructor (given: seq<string>)
      ensures ids == given
    {
      ids := given;
    }
  }

  function Bucket(index: map<string, seq<string>>, name: string): seq<string> {
    if name in index then index[name] else []
  }

  ghost predicate IndexOf(index: map<string, seq<string>>, ids: seq<string>) {
    forall name | name != "" :: Bucket(index, name) == Serving(ids, name)
  }

  lemma IndexStep(index: map<string, seq<string>>, ids: seq<string>, i: nat)
    requires i < |ids| && IndexOf(index, ids[..i])
    ensures var bare := BareName(ids[i]);
      IndexOf(if bare == "" then index else index[bare := Bucket(index, bare) + [ids[i]]], ids[..i + 1])
    ensures ids[i] == "" ==> BareName(ids[i]) == ""
  {
    hide BareName, Serving;
    EmptyIdIsBare();
    var bare := BareName(ids[i]);
    var index' := if bare == "" then index else index[bare := Bucket(index, bare) + [ids[i]]];
    forall name | name != "" ensures Bucket(index', name) == Serving(ids[..i + 1], name) {
      ServingStep(ids, i, name);
      assert Bucket(index, name) == Serving(ids[..i], name);
    }
  }

  class Cache {
    var models: ModelList
    var lastUpdated: int
    var bareIndex: map<string, seq<string>>
    var modelIds: set<string>
    var indexSrc: ModelList?
    var indexStamp: int

    /** What the list held when the index was built from it. */
    ghost var indexed: seq<string>

    ghost predicate Valid()
      reads this
    {
      && (indexSrc != null ==> indexed == indexSrc.ids)
      && (forall name | name != "" :: Bucket(bareIndex, name) == InOrder(Serving(indexed, name)))
      && modelIds == KnownIds(indexed)
    }

    /** The index would be used as it is. */
    predicate Current()
      reads this
    {
      indexSrc == models && indexStamp == lastUpdated
    }

    /** The ids a lookup answers for: those indexed while the index counts as current, else today's. */
    ghost function Answered(): seq<string>
      reads this
    {
      if Current() then indexed else models.ids
    }

    constructor (empty: ModelList)
      requires empty.ids == []
      ensures Valid() && Answered() == [] && models == empty
    {
      models, lastUpdated := empty, 0;
      bareIndex, modelIds, indexSrc, indexStamp := map[], {}, null, -1;
      indexed := [];
      new;
      forall name | name != "" ensures Bucket(bareIndex, name) == InOrder(Serving(indexed, name)) {
        assert Serving([], name) == [];
      }
    }

    method Build() returns (index: map<string, seq<string>>, known: set<string>)
      ensures IndexOf(index, models.ids)
      ensures known == KnownIds(models.ids)
    {
      hide Serving, BareName, KnownIds, IndexOf;
      index, known := map[], {};
      NothingServed();
      var src := models.ids;
      var i := 0;
      while i < |src|
        invariant 0 <= i <= |src|
        invariant IndexOf(index, src[..i])
        invariant known == KnownIds(src[..i])
      {
        var id := src[i];
        KnownStep(src, i);
        IndexStep(index, src, i);
        if id != "" {
          known := known + {id};
          var bare := BareName(id);
          if bare != "" {
            index := index[bare := Bucket(index, bare) + [id]];
          }
        }
        i := i + 1;
      }
      assert src[..i] == src;
    }

    method SortBuckets(index: map<string, seq<string>>) returns (sorted: map<string, seq<string>>)
      ensures forall name :: Bucket(sorted, name) == InOrder(Bucket(index, name))
    {
      var names := ListKeys(index);
      sorted := index;
      var i := 0;
      while i < |names|
        invariant 0 <= i <= |names| && sorted.Keys == index.Keys
        invariant forall name | name in Seen(names, i) :: sorted[name] == InOrder(index[name])
        invariant forall name | name in index && name !in Seen(names, i) :: sorted[name] == index[name]
      {
        SeenNext(names, i);
        sorted := sorted[names[i] := InOrder(sorted[names[i]])];
        i := i + 1;
      }
      SeenAll(names, index);
    }

    method EnsureIndex()
      requires Valid()
      modifies this
      ensures Valid() && Current() && indexed == models.ids
      ensures models == old(models) && lastUpdated == old(lastUpdated)
    {
      if Current() {
        return;
      }
      var index, known := Build();
      var sorted := SortBuckets(index);
      bareIndex, modelIds, indexStamp, indexSrc := sorted, known, lastUpdated, models;
      indexed := models.ids;
    }

    method HasModelId(id: string) returns (known: bool)
      requires Valid()
      modifies this
      ensures Valid() && models == old(models) && Answered() == models.ids
      ensures known <==> id != "" && id in models.ids
    {
      if id == "" {
        return false;
      }
      EnsureIndex();
      return id in modelIds;
    }

    /** The sorted ids serving the bare name. */
    method BareModelCandidates(name: string) returns (ids: seq<string>)
      requires Valid()
      modifies this
      ensures Valid() && models == old(models) && Answered() == models.ids
      ensures ids == if name == "" then [] else InOrder(Serving(models.ids, name))
    {
      if name == "" {
        return [];
      }
      EnsureIndex();
      return Bucket(bareIndex, name);
    }

    /** update_models, warm_cache and their async twins. Lookups answer for the list handed over, also when it
        is one indexed before and the clock reads what it read then. */
    method UpdateModels(list: ModelList, now: int)
      requires Valid()
      modifies this
      ensures Valid() && models == list && Answered() == list.ids
    {
      models := list;
      lastUpdated := now;
    }

    method InvalidateModel(id: string, now: int)
      requires Valid()
      modifies this
      ensures Valid() && fresh(models) && models.ids == Without(old(models.ids), id) && Answered() == models.ids
    {
      var list := new ModelList(Without(models.ids, id));
      models := list;
      lastUpdated := now;
    }

    method InvalidateProvider(key: string, now: int)
      requires Valid()
      modifies this
      ensures Valid() && fresh(models) && models.ids == WithoutProvider(old(models.ids), key)
      ensures Answered() == models.ids
    {
      var list := new ModelList(WithoutProvider(models.ids, key));
      models := list;
      lastUpdated := now;
    }

    method UpdateProviderModels(key: string, given: seq<string>, now: int)
      requires Valid()
      modifies this
      ensures Valid() && fresh(models) && models.ids == WithoutProvider(old(models.ids), key) + given
      ensures Answered() == models.ids
    {
      var list := new ModelList(WithoutProvider(models.ids, key) + given);
      models := list;
      lastUpdated := now;
    }
  }

  // ----- what the lookups promise ----------------------------------------------------------

  /** A lookup's answer is the sorted multiset of the ids whose text after the first slash is the name. */
  lemma {:induction false} CandidatesAreTheServing(ids: seq<string>, name: string)
    ensures var found := InOrder(Serving(ids, name));
      Ordered(NotAfter, found) && forall id :: multiset(found)[id] == if BareName(id) == name then multiset(ids)[id]
        else 0
  {
    ServingIs(ids, name);
    InOrderIs(Serving(ids, name));
  }

  /** A rebuild that leaves a bucket's ids unchanged, in whatever order the list has them, yields the
      identical candidates: rotation over them goes on undisturbed. */
  lemma {:induction false} UnchangedBucketSameList(before: seq<string>, after: seq<string>, name: string)
    requires forall id | BareName(id) == name :: multiset(before)[id] == multiset(after)[id]
    ensures InOrder(Serving(before, name)) == InOrder(Serving(after, name))
  {
    hide Sorted, Serving;
    ServingIs(before, name);
    ServingIs(after, name);
    SameIdsSameOrder(Serving(before, name), Serving(after, name));
  }

  lemma SameIdsSameOrder(a: seq<string>, b: seq<string>)
    requires multiset(a) == multiset(b)
    ensures InOrder(a) == InOrder(b)
  {
    hide Sorted, NotAfter;
    InOrderIs(a);
    InOrderIs(b);
    forall x | x in InOrder(a) ensures x in a {
      assert x in multiset(InOrder(a));
    }
    OneOrder(NotAfter, InOrder(a), InOrder(b));
  }

  /** For a provider key without a slash, the prefix test of the writers picks exactly the ids with a
      slash whose provider is that key. */
  lemma {:induction false} PrefixIsProvider(id: string, key: string)
    requires '/' !in key
    ensures StartsWith(id, key + "/") <==> Find(id, '/') < |id| && ProviderKeyOf(id) == key
  {
    hide Find, StartsWith, ProviderKeyOf;
    if StartsWith(id, key + "/") { SlashEndsKey(id, key); }
    if Find(id, '/') < |id| && ProviderKeyOf(id) == key { KeyThenSlash(id, key); }
  }

  lemma KeyThenSlash(id: string, key: string)
    requires Find(id, '/') < |id| && ProviderKeyOf(id) == key
    ensures StartsWith(id, key + "/")
  {
    hide Find;
    var n := Find(id, '/');
    assert id[..n + 1] == id[..n] + [id[n]];
  }

  lemma SlashEndsKey(id: string, key: string)
    requires '/' !in key && StartsWith(id, key + "/")
    ensures Find(id, '/') < |id| && ProviderKeyOf(id) == key
  {
    hide Find;
    var n, prefix := |key|, key + "/";
    assert id[..n + 1] == prefix;
    assert id[n] == prefix[n] == '/';
    forall i | 0 <= i < n ensures id[i] != '/' {
      assert id[i] == prefix[i] == key[i];
    }
    FindIs(id, '/', n);
    assert id[..n] == prefix[..n] == key;
  }

  lemma {:induction false} WithoutProviderIs(ids: seq<string>, key: string)
    ensures forall id :: multiset(WithoutProvider(ids, key))[id] == if StartsWith(id, key + "/") then 0
      else multiset(ids)[id]
  {
    if ids != [] {
      assert ids == [ids[0]] + ids[1..];
      WithoutProviderIs(ids[1..], key);
    }
  }

  /** Replacing a provider's models: that provider then serves exactly the given ones, and every other
      provider what it did. */
  lemma {:induction false} ProviderReplaced(ids: seq<string>, key: string, given: seq<string>, id: string)
    requires '/' !in key && forall g | g in given :: ProviderKeyOf(g) == key && Find(g, '/') < |g|
    requires Find(id, '/') < |id|
    ensures var after := WithoutProvider(ids, key) + given;
      multiset(after)[id] == if ProviderKeyOf(id) == key then multiset(given)[id] else multiset(ids)[id]
  {
    WithoutProviderIs(ids, key);
    PrefixIsProvider(id, key);
    assert id in multiset(given) ==> id in given;
  }
}
