/** Which group's quota a model's requests fall under, in its four guises: the enforcement lookup, the
    buffer predicates, their SQL mirror, and settlement's fold. */
module ModelScopes {
  import opened ModelNames
  import opened Sums

  const DEFAULT_GROUP := 0

  datatype Group = Group(models: set<string>, providers: set<string>)

  /** The rate limiter's snapshot of the named groups and its two reverse lookups. */
  datatype Snapshot = Snapshot(groups: map<int, Group>, modelGroup: map<string, int>, providerGroup: map<string, int>)

  /** As loaded from tables that put a model, and a provider instance, in one group at most. Provider
      keys have no slash. */
  ghost predicate Loaded(s: Snapshot) {
    && DEFAULT_GROUP !in s.groups
    && (forall m | m in s.modelGroup :: s.modelGroup[m] in s.groups)
    && (forall p | p in s.providerGroup :: s.providerGroup[p] in s.groups && '/' !in p)
    && (forall g, m | g in s.groups :: m in s.groups[g].models <==> m in s.modelGroup && s.modelGroup[m] == g)
    && (forall g, p | g in s.groups :: p in s.groups[g].providers <==> p in s.providerGroup && s.providerGroup[p] == g)
  }

  /** group_for: an explicit model wins over its instance. */
  function GroupFor(s: Snapshot, model: string): int {
    if model == "" then DEFAULT_GROUP
    else if model in s.modelGroup then s.modelGroup[model]
    else if ProviderKeyOf(model) in s.providerGroup then s.providerGroup[ProviderKeyOf(model)]
    else DEFAULT_GROUP
  }

  /** A model in a group is that group's; otherwise it falls to the group its instance is in, if any, else to
      Default. */
  lemma ModelBeatsInstance(s: Snapshot, key: string, name: string, g: int, h: int)
    requires Loaded(s) && '/' !in key && g in s.groups && h in s.groups
    ensures var id := key + "/" + name;
      && (id in s.groups[g].models ==> GroupFor(s, id) == g)
      && ((forall j | j in s.groups :: id !in s.groups[j].models) && key in s.groups[h].providers ==>
            GroupFor(s, id) == h)
      && ((forall j | j in s.groups :: id !in s.groups[j].models && key !in s.groups[j].providers) ==>
            GroupFor(s, id) == 0)
  {
    hide ProviderKeyOf;
    KeyOfCanonical(key, name);
    assert key + "/" + name != "";
  }

  // ----- the buffer predicates ------------------------------------------------------------

  /** Counted towards Default: `not _is_grouped(model)`. */
  predicate BufferDefault(s: Snapshot, model: string) {
    model == "" || !(IsByokModel(model) || model in s.modelGroup || ProviderKeyOf(model) in s.providerGroup)
  }

  /** `_in_group`, with the models that other groups claim carved out of the group's instances. */
  predicate BufferGroup(s: Snapshot, g: int, model: string)
    requires g in s.groups
  {
    model != "" && (model in s.groups[g].models
                    || (ProviderKeyOf(model) in s.groups[g].providers
                         && model !in s.modelGroup.Keys - s.groups[g].models))
  }

  // ----- their SQL mirror --------------------------------------------------------------------

  /** SQLite's instr for one character: 1-based, 0 when absent. */
  function Instr(s: string, c: char): nat {
    if Find(s, c) == |s| then 0 else Find(s, c) + 1
  }

  /** SQLite's substr from a 1-based start. */
  function Substr(s: string, start: nat, length: nat): string
    requires start >= 1
  {
    if start > |s| then "" else s[start - 1..Min(start - 1 + length, |s|)]
  }

  predicate SqlInstance(model: string, key: string) {
    Substr(model, 1, |key| + 1) == key + "/" || model == key
  }

  predicate SqlByok(model: string) {
    var prefix := if Instr(model, '/') > 0 then Substr(model, 1, Instr(model, '/') - 1) else model;
    Instr(prefix, ':') > 0 && Substr(prefix, Instr(prefix, ':') + 1, 5) == BYOK_PREFIX
  }

  predicate SqlDefault(s: Snapshot, model: string) {
    !(model in s.modelGroup || (exists p | p in s.providerGroup :: SqlInstance(model, p)) || SqlByok(model))
  }

  predicate SqlGroup(s: Snapshot, g: int, model: string)
    requires g in s.groups
  {
    model in s.groups[g].models
    || ((exists p | p in s.groups[g].providers :: SqlInstance(model, p))
         && model !in s.modelGroup.Keys - s.groups[g].models)
  }

  // ----- settlement's fold ----------------------------------------------------------------------

  /** The scope a usage row is settled in; none for the sender's own BYOK traffic. */
  datatype Scope = NoScope | InGroup(group: int)

  function ScopeOf(s: Snapshot, model: string): Scope {
    if IsByokModel(model) then NoScope else InGroup(GroupFor(s, model))
  }

  datatype Row = Row(user: int, model: string, count: int)

  function Total(rows: seq<Row>, counts: Row -> bool): int
    decreases |rows|
  {
    if rows == [] then 0
    else
      var last := rows[|rows| - 1];
      Total(rows[..|rows| - 1], counts) + if counts(last) then last.count else 0
  }

  ghost function Settled(s: Snapshot, user: int, group: int): Row -> bool {
    (row: Row) => row.user == user && ScopeOf(s, row.model) == InGroup(group)
  }

  /** _fold_models_into_scopes: keyed by user and group, Default being 0. */
  method FoldIntoScopes(s: Snapshot, rows: seq<Row>) returns (folded: map<(int, int), int>)
    ensures forall u, g :: At(folded, (u, g)) == Total(rows, Settled(s, u, g))
  {
    folded := map[];
    var i := 0;
    while i < |rows|
      invariant 0 <= i <= |rows|
      invariant forall u, g :: At(folded, (u, g)) == Total(rows[..i], Settled(s, u, g))
    {
      assert rows[..i + 1][..i] == rows[..i];
      var row := rows[i];
      if !IsByokModel(row.model) {
        var key := (row.user, GroupFor(s, row.model));
        folded := folded[key := At(folded, key) + row.count];
      }
      i := i + 1;
    }
    assert rows[..i] == rows;
  }

  // ----- SQL agrees with the parser ---------------------------------------------------------------

  lemma SubstrFromStart(s: string, n: nat)
    requires n <= |s|
    ensures Substr(s, 1, n) == s[..n]
  {
  }

  lemma SubstrIsPrefix(s: string, start: nat, prefix: string)
    requires 1 <= start <= |s| + 1
    ensures Substr(s, start, |prefix|) == prefix <==> StartsWith(s[start - 1..], prefix)
  {
    var rest := s[start - 1..];
    if start <= |s| {
      var n := Min(|prefix|, |rest|);
      assert Substr(s, start, |prefix|) == rest[..n];
    }
  }

  /** The SQL test for BYOK traffic is the parser, on every string. */
  lemma SqlByokIsByok(model: string)
    ensures SqlByok(model) <==> IsByokModel(model)
  {
    hide Find, Substr;
    var key := ProviderKeyOf(model);
    var slash := Find(model, '/');
    SubstrFromStart(model, slash);
    assert model[..|model|] == model;
    var prefix := if Instr(model, '/') > 0 then Substr(model, 1, Instr(model, '/') - 1) else model;
    assert prefix == key;
    var colon := Find(key, ':');
    if colon < |key| {
      SubstrIsPrefix(key, colon + 2, BYOK_PREFIX);
      assert key[colon + 2 - 1..] == key[colon + 1..] == InstancePart(key);
    }
  }

  lemma InstanceHit(model: string, key: string)
    requires '/' !in key && model != "" && ProviderKeyOf(model) == key
    ensures SqlInstance(model, key)
  {
    hide Find;
    var n := Find(model, '/');
    assert model[..|model|] == model;
    if n < |model| {
      SubstrFromStart(model, n + 1);
      assert model[..n + 1] == model[..n] + [model[n]] == key + "/";
    }
  }

  lemma InstanceMiss(model: string, key: string)
    requires '/' !in key && SqlInstance(model, key)
    ensures ProviderKeyOf(model) == key
  {
    hide Find;
    var n, prefix := |key|, key + "/";
    if model == key {
      assert Find(model, '/') == |model|;
      assert model[..|model|] == model;
    } else {
      assert |Substr(model, 1, n + 1)| == n + 1;
      SubstrFromStart(model, n + 1);
      assert model[..n + 1] == prefix;
      assert model[n] == prefix[n] == '/';
      forall i | 0 <= i < n ensures model[i] != '/' {
        assert model[i] == prefix[i] == key[i];
      }
      FindIs(model, '/', n);
      assert model[..n] == prefix[..n] == key;
    }
  }

  /** Matching an instance by substring is comparing provider keys, on every model, exactly when the
      key has no slash. */
  lemma InstanceMatchIffSlashFree(key: string)
    ensures (forall model | model != "" :: SqlInstance(model, key) <==> ProviderKeyOf(model) == key) <==> '/' !in key
  {
    hide Find, Substr;
    if '/' !in key {
      forall model | model != "" ensures SqlInstance(model, key) <==> ProviderKeyOf(model) == key {
        if ProviderKeyOf(model) == key { InstanceHit(model, key); }
        if SqlInstance(model, key) { InstanceMiss(model, key); }
      }
    } else {
      assert SqlInstance(key, key);
      assert Find(key, '/') < |key|;
      assert |ProviderKeyOf(key)| < |key|;
    }
  }

  lemma SomeInstance(model: string, keys: set<string>)
    requires model != "" && forall p | p in keys :: '/' !in p
    ensures (exists p | p in keys :: SqlInstance(model, p)) <==> ProviderKeyOf(model) in keys
  {
    hide SqlInstance;
    forall p | p in keys ensures SqlInstance(model, p) <==> ProviderKeyOf(model) == p {
      InstanceMatchIffSlashFree(p);
    }
  }

  // ----- all of them agree -----------------------------------------------------------------------------

  /** A model that is not BYOK is in one scope, and every reader says which: the enforcement lookup,
      buffer and table counts of Default and of each group, and settlement. */
  lemma OneScopePerModel(s: Snapshot, model: string, g: int)
    requires Loaded(s) && model != "" && !IsByokModel(model) && g in s.groups
    ensures GroupFor(s, model) == DEFAULT_GROUP || GroupFor(s, model) in s.groups
    ensures BufferDefault(s, model) <==> GroupFor(s, model) == DEFAULT_GROUP
    ensures SqlDefault(s, model) <==> GroupFor(s, model) == DEFAULT_GROUP
    ensures BufferGroup(s, g, model) <==> GroupFor(s, model) == g
    ensures SqlGroup(s, g, model) <==> GroupFor(s, model) == g
    ensures ScopeOf(s, model) == InGroup(GroupFor(s, model))
  {
    hide SqlInstance, SqlByok, IsByokModel, ProviderKeyOf;
    SqlByokIsByok(model);
    SomeInstance(model, s.providerGroup.Keys);
    assert forall p | p in s.groups[g].providers :: '/' !in p;
    SomeInstance(model, s.groups[g].providers);
  }

  /** For BYOK traffic, Default counts and settlement leave it out; a group's count leaves it out exactly
      when the group does not claim it. */
  lemma ByokCountedIffClaimed(s: Snapshot, model: string, g: int)
    requires Loaded(s) && IsByokModel(model) && g in s.groups
    ensures model != "" && !BufferDefault(s, model) && !SqlDefault(s, model) && ScopeOf(s, model) == NoScope
    ensures (BufferGroup(s, g, model) <==> GroupFor(s, model) == g)
      && (SqlGroup(s, g, model) <==> GroupFor(s, model) == g)
  {
    ByokHasName();
    hide SqlInstance, SqlByok, IsByokModel, ProviderKeyOf;
    SqlByokIsByok(model);
    SomeInstance(model, s.providerGroup.Keys);
    assert forall p | p in s.groups[g].providers :: '/' !in p;
    SomeInstance(model, s.groups[g].providers);
  }

  lemma ByokHasName()
    ensures !IsByokModel("")
  {
    assert ProviderKeyOf("") == "";
  }

  // ----- totals ------------------------------------------------------------------------------------------

  ghost function DefaultRow(s: Snapshot, user: int): Row -> bool {
    (row: Row) => row.user == user && SqlDefault(s, row.model)
  }

  ghost function GroupRow(s: Snapshot, user: int, g: int): Row -> bool
    requires g in s.groups
  {
    (row: Row) => row.user == user && SqlGroup(s, g, row.model)
  }

  lemma {:induction false} TotalSame(rows: seq<Row>, p: Row -> bool, q: Row -> bool)
    requires forall row | row in rows :: p(row) == q(row)
    ensures Total(rows, p) == Total(rows, q)
    decreases |rows|
  {
    if rows != [] {
      TotalSame(rows[..|rows| - 1], p, q);
    }
  }

  /** The user's BYOK rows that the group claims. */
  ghost function ClaimedByok(s: Snapshot, user: int, g: int): Row -> bool {
    (row: Row) => row.user == user && IsByokModel(row.model) && GroupFor(s, row.model) == g
  }

  lemma {:induction false} TotalOfTwo(rows: seq<Row>, p: Row -> bool, q: Row -> bool, both: Row -> bool)
    requires forall row | row in rows :: both(row) == (p(row) || q(row)) && !(p(row) && q(row))
    ensures Total(rows, both) == Total(rows, p) + Total(rows, q)
    decreases |rows|
  {
    if rows != [] {
      TotalOfTwo(rows[..|rows| - 1], p, q, both);
    }
  }

  lemma {:induction false} PositiveTotal(rows: seq<Row>, p: Row -> bool)
    requires forall row | row in rows :: row.count > 0
    ensures Total(rows, p) >= 0
    ensures Total(rows, p) == 0 <==> forall row | row in rows :: !p(row)
    decreases |rows|
  {
    if rows != [] {
      assert rows == rows[..|rows| - 1] + [rows[|rows| - 1]];
      PositiveTotal(rows[..|rows| - 1], p);
    }
  }

  /** What enforcement's readers count for a user is what is settled for them: of Default always; of a
      group, with the user's BYOK rows that it claims on top. */
  lemma EnforcedIsSettledAndClaimed(s: Snapshot, rows: seq<Row>, user: int, g: int)
    requires Loaded(s) && g in s.groups && forall row | row in rows :: row.model != ""
    ensures Total(rows, DefaultRow(s, user)) == Total(rows, Settled(s, user, DEFAULT_GROUP))
    ensures Total(rows, GroupRow(s, user, g)) == Total(rows, Settled(s, user, g)) + Total(rows, ClaimedByok(s, user, g))
  {
    hide SqlDefault, SqlGroup, IsByokModel, GroupFor, Loaded;
    forall row | row in rows ensures Settled(s, user, DEFAULT_GROUP)(row) == DefaultRow(s, user)(row) {
      RowScope(s, row.model, g);
    }
    TotalSame(rows, Settled(s, user, DEFAULT_GROUP), DefaultRow(s, user));
    forall row | row in rows
      ensures GroupRow(s, user, g)(row) == (Settled(s, user, g)(row) || ClaimedByok(s, user, g)(row))
      ensures !(Settled(s, user, g)(row) && ClaimedByok(s, user, g)(row))
    {
      RowScope(s, row.model, g);
    }
    TotalOfTwo(rows, Settled(s, user, g), ClaimedByok(s, user, g), GroupRow(s, user, g));
  }

  /** So the two agree on a group if and only if it claims none of the user's BYOK rows. */
  lemma SettlementReadsWhatIsEnforcedIff(s: Snapshot, rows: seq<Row>, user: int, g: int)
    requires Loaded(s) && g in s.groups && forall row | row in rows :: row.model != "" && row.count > 0
    ensures Total(rows, GroupRow(s, user, g)) == Total(rows, Settled(s, user, g))
      <==> forall row | row in rows && row.user == user && IsByokModel(row.model) :: GroupFor(s, row.model) != g
  {
    hide SqlDefault, SqlGroup, IsByokModel, GroupFor, Loaded;
    EnforcedIsSettledAndClaimed(s, rows, user, g);
    PositiveTotal(rows, ClaimedByok(s, user, g));
  }

  /** The input on which they part: an instance named like a user's own but owned by nobody, which a group
      can claim. Its requests count towards the group's limit and are settled nowhere. */
  lemma LegacyInstanceIsCountedNotSettled(s: Snapshot, model: string, rows: seq<Row>)
    requires s == Snapshot(map[1 := Group({}, {"azure:byok-old"})], map[], map["azure:byok-old" := 1])
    requires model == "azure:byok-old/m" && rows == [Row(7, model, 1)]
    ensures Loaded(s) && IsByokModel(model)
    ensures Total(rows, GroupRow(s, 7, 1)) == 1 && Total(rows, Settled(s, 7, 1)) == 0
  {
    hide Find, Loaded, IsByokModel, ProviderKeyOf, SqlGroup, ScopeOf, Total;
    LegacyKey("azure:byok-old", model);
    LegacyLoaded(s, "azure:byok-old", model);
    ByokCountedIffClaimed(s, model, 1);
    OneRow(rows[0], GroupRow(s, 7, 1));
    OneRow(rows[0], Settled(s, 7, 1));
  }

  lemma OneRow(row: Row, p: Row -> bool)
    ensures Total([row], p) == if p(row) then row.count else 0
  {
    assert [row][..0] == [];
  }

  lemma LegacyLoaded(s: Snapshot, key: string, model: string)
    requires s == Snapshot(map[1 := Group({}, {key})], map[], map[key := 1])
    requires '/' !in key && ProviderKeyOf(model) == key && model != ""
    ensures Loaded(s) && 1 in s.groups && GroupFor(s, model) == 1
  {
    hide ProviderKeyOf;
  }

  lemma LegacyKey(key: string, model: string)
    requires key == "azure:byok-old" && model == "azure:byok-old/m"
    ensures ProviderKeyOf(model) == key && IsByokModel(model) && '/' !in key
  {
    hide Find;
    FindIs(model, '/', 14);
    assert model[..14] == key;
    FindIs(key, ':', 5);
    assert key[6..] == "byok-old" && "byok-old"[..5] == BYOK_PREFIX;
  }

  lemma RowScope(s: Snapshot, model: string, g: int)
    requires Loaded(s) && g in s.groups && model != ""
    ensures SqlDefault(s, model) <==> ScopeOf(s, model) == InGroup(DEFAULT_GROUP)
    ensures SqlGroup(s, g, model) <==> GroupFor(s, model) == g
    ensures ScopeOf(s, model) == if IsByokModel(model) then NoScope else InGroup(GroupFor(s, model))
  {
    hide SqlDefault, SqlGroup, IsByokModel, GroupFor, Loaded;
    if IsByokModel(model) { ByokCountedIffClaimed(s, model, g); } else { OneScopePerModel(s, model, g); }
  }

  ghost function GroupTotals(s: Snapshot, rows: seq<Row>, user: int): map<int, int> {
    map g | g in s.groups :: Total(rows, Settled(s, user, g))
  }

  ghost function Metered(user: int): Row -> bool {
    (row: Row) => row.user == user && !IsByokModel(row.model)
  }

  /** Nothing is counted twice or dropped: Default and all the named groups make up the user's metered
      requests. */
  lemma {:induction false} ScopesAddUp(s: Snapshot, rows: seq<Row>, user: int)
    requires Loaded(s)
    ensures Total(rows, Settled(s, user, DEFAULT_GROUP)) + Sum(GroupTotals(s, rows, user), s.groups.Keys)
      == Total(rows, Metered(user))
    decreases |rows|
  {
    hide Sum, IsByokModel, GroupFor, Loaded;
    var totals := GroupTotals(s, rows, user);
    if rows == [] {
      SumSame(totals, map[], s.groups.Keys);
      SumEmptyMap(s.groups.Keys);
    } else {
      var init, last := rows[..|rows| - 1], rows[|rows| - 1];
      var before := GroupTotals(s, init, user);
      ScopesAddUp(s, init, user);
      GroupIsDefaultOrNamed(s, last.model);
      var g := GroupFor(s, last.model);
      if last.user == user && !IsByokModel(last.model) && g != DEFAULT_GROUP {
        SumUpdate(before, totals, g, s.groups.Keys);
      } else {
        SumSame(totals, before, s.groups.Keys);
      }
    }
  }

  lemma GroupIsDefaultOrNamed(s: Snapshot, model: string)
    requires Loaded(s)
    ensures GroupFor(s, model) == DEFAULT_GROUP || GroupFor(s, model) in s.groups
    ensures DEFAULT_GROUP !in s.groups
  {
  }
}
