/** Settlement as app/auth/pools.py runs it: read the tables once, collect row lists scope by
    scope and member by member, write them in two upserts. Proved against Settlement, scope by scope. */
module PoolSettlement {
  import opened Sums
  import opened CappedSplit
  import opened Settlement
  import SettlementLaws
  import Apportionment
  import SplitRounds

  datatype Scope = Scope(kind: string, id: int)

  datatype LedgerRow = LedgerRow(userId: int, scope: Scope, charged: int)
  datatype CarryRow = CarryRow(userId: int, scope: Scope, carry: int)

  type Rows = map<(int, Scope), int>
  type Ledger = map<(int, int, Scope), int>

  function OfScope(m: Rows, scope: Scope): map<int, int> {
    map u | u in (set k | k in m && k.1 == scope :: k.0) :: m[(u, scope)]
  }

  function LedgerOfScope(m: Ledger, scope: Scope): map<(int, int), int> {
    map k: (int, int) | k in (set j | j in m && j.2 == scope :: (j.0, j.1)) :: m[(k.0, k.1, scope)]
  }

  /** The part of the tables that belongs to one scope. */
  function BooksOf(rows: Rows, ledger: Ledger, carries: Rows, scope: Scope): Books {
    Books(OfScope(rows, scope), LedgerOfScope(ledger, scope), OfScope(carries, scope))
  }

  function RulesOf(limits: Rows, inactive: set<int>, scope: Scope): Rules {
    Rules(OfScope(limits, scope), inactive)
  }

  /** A replace-on-conflict bulk upsert. */
  function UpsertLedger(m: Ledger, pool: int, rows: seq<LedgerRow>): Ledger {
    if rows == [] then m
    else
      var r := rows[|rows| - 1];
      UpsertLedger(m, pool, rows[..|rows| - 1])[(pool, r.userId, r.scope) := r.charged]
  }

  function UpsertCarries(m: Rows, rows: seq<CarryRow>): Rows {
    if rows == [] then m
    else
      var r := rows[|rows| - 1];
      UpsertCarries(m, rows[..|rows| - 1])[(r.userId, r.scope) := r.carry]
  }

  lemma ReadAt(m: Rows, scope: Scope, u: int)
    ensures u in OfScope(m, scope) <==> (u, scope) in m
    ensures At(OfScope(m, scope), u) == At(m, (u, scope))
  {
  }

  lemma ReadLedgerAt(m: Ledger, scope: Scope, pool: int, u: int)
    ensures (pool, u) in LedgerOfScope(m, scope) <==> (pool, u, scope) in m
    ensures At(LedgerOfScope(m, scope), (pool, u)) == At(m, (pool, u, scope))
  {
    var k := (pool, u, scope);
    assert k in m && k.2 == scope ==> (k.0, k.1) in LedgerOfScope(m, scope);
  }

  lemma SameMap<K(!new)>(m: map<K, int>, n: map<K, int>)
    requires forall k :: k in m <==> k in n
    requires forall k | k in m :: At(m, k) == At(n, k)
    ensures m == n
  {
    assert m.Keys == n.Keys;
    forall k | k in m ensures m[k] == n[k] {
      assert At(m, k) == At(n, k);
    }
  }

  lemma PutOfScope(m: Rows, scope: Scope, u: int, v: int, at: Scope)
    ensures OfScope(m[(u, scope) := v], at) == if at == scope then OfScope(m, at)[u := v] else OfScope(m, at)
  {
    hide OfScope;
    var m' := m[(u, scope) := v];
    forall w ensures
      && (w in OfScope(m', at) <==> w in OfScope(m, at) || (at == scope && w == u))
      && At(OfScope(m', at), w) == if at == scope && w == u then v else At(OfScope(m, at), w)
    {
      ReadAt(m', at, w);
      ReadAt(m, at, w);
    }
    SameMap(OfScope(m', at), if at == scope then OfScope(m, at)[u := v] else OfScope(m, at));
  }

  lemma PutLedger(m: Ledger, scope: Scope, pool: int, u: int, v: int, at: Scope)
    ensures LedgerOfScope(m[(pool, u, scope) := v], at)
      == if at == scope then LedgerOfScope(m, at)[(pool, u) := v] else LedgerOfScope(m, at)
  {
    hide LedgerOfScope;
    var m' := m[(pool, u, scope) := v];
    forall k: (int, int) ensures
      && (k in LedgerOfScope(m', at) <==> k in LedgerOfScope(m, at) || (at == scope && k == (pool, u)))
      && At(LedgerOfScope(m', at), k) == if at == scope && k == (pool, u) then v else At(LedgerOfScope(m, at), k)
    {
      ReadLedgerAt(m', at, k.0, k.1);
      ReadLedgerAt(m, at, k.0, k.1);
    }
    SameMap(LedgerOfScope(m', at), if at == scope then LedgerOfScope(m, at)[(pool, u) := v] else LedgerOfScope(m, at));
  }

  /** Recording one more user extends a write by that user's charge. */
  lemma WriteOneMore(b: Books, pool: int, charges: map<int, int>, u: int, c: int)
    requires u !in charges
    ensures var before, after := Write(b, pool, charges), Write(b, pool, charges[u := c]);
      && after.rows == before.rows
      && after.ledger == before.ledger[(pool, u) := c]
      && after.carries == if c != At(b.rows, u) || u in b.carries then before.carries[u := c - At(b.rows, u)]
           else before.carries
  {
    LedgerOneMore(b, pool, charges, u, c);
    CarryOneMore(b, charges, u, c);
  }

  lemma LedgerOneMore(b: Books, pool: int, charges: map<int, int>, u: int, c: int)
    ensures b.ledger + LedgerRows(pool, charges[u := c]) == (b.ledger + LedgerRows(pool, charges))[(pool, u) := c]
  {
    var before, after := LedgerRows(pool, charges), LedgerRows(pool, charges[u := c]);
    forall k: (int, int) ensures k in after <==> k in before || k == (pool, u) {
      LedgerRowsAt(pool, charges, k.1);
      LedgerRowsAt(pool, charges[u := c], k.1);
    }
    forall k | k in after ensures after[k] == if k == (pool, u) then c else before[k] {
      LedgerRowsAt(pool, charges, k.1);
      LedgerRowsAt(pool, charges[u := c], k.1);
    }
  }

  lemma CarryOneMore(b: Books, charges: map<int, int>, u: int, c: int)
    requires u !in charges
    ensures b.carries + CarryRows(b, charges[u := c])
      == if c != At(b.rows, u) || u in b.carries then (b.carries + CarryRows(b, charges))[u := c - At(b.rows, u)]
         else b.carries + CarryRows(b, charges)
  {
    CarryRowsOneMore(b, charges, u, c);
    hide CarryRows;
    var before := CarryRows(b, charges);
    if c != At(b.rows, u) || u in b.carries {
      assert b.carries + before[u := c - At(b.rows, u)] == (b.carries + before)[u := c - At(b.rows, u)];
    }
  }

  lemma CarryRowsOneMore(b: Books, charges: map<int, int>, u: int, c: int)
    requires u !in charges
    ensures CarryRows(b, charges[u := c])
      == if c != At(b.rows, u) || u in b.carries then CarryRows(b, charges)[u := c - At(b.rows, u)]
        else CarryRows(b, charges)
  {
  }

  /** The row lists collected so far stand for these charges on every scope. */
  ghost predicate Collected(rows: Rows, ledger: Ledger, carries: Rows, pool: int,
                            ledgerRows: seq<LedgerRow>, carryRows: seq<CarryRow>, charges: Scope -> map<int, int>)
  {
    forall sc :: BooksOf(rows, UpsertLedger(ledger, pool, ledgerRows), UpsertCarries(carries, carryRows), sc)
      == Write(BooksOf(rows, ledger, carries, sc), pool, charges(sc))
  }

  ghost function With(charges: Scope -> map<int, int>, scope: Scope, u: int, c: int): Scope -> map<int, int> {
    sc => if sc == scope then charges(sc)[u := c] else charges(sc)
  }

  lemma RecordIsCollected(rows: Rows, ledger: Ledger, carries: Rows, pool: int,
      ledgerRows: seq<LedgerRow>, carryRows: seq<CarryRow>, charges: Scope -> map<int, int>,
      u: int, scope: Scope, c: int, carryRows': seq<CarryRow>)
    requires Collected(rows, ledger, carries, pool, ledgerRows, carryRows, charges)
    requires u !in charges(scope)
    requires carryRows' == (if c - At(rows, (u, scope)) != 0 || (u, scope) in carries
                            then carryRows + [CarryRow(u, scope, c - At(rows, (u, scope)))] else carryRows)
    ensures Collected(rows, ledger, carries, pool, ledgerRows + [LedgerRow(u, scope, c)], carryRows',
      With(charges, scope, u, c))
  {
    hide Write, OfScope, LedgerOfScope, UpsertLedger, UpsertCarries, With;
    var carry := c - At(rows, (u, scope));
    var l, k := UpsertLedger(ledger, pool, ledgerRows), UpsertCarries(carries, carryRows);
    UpsertOneLedger(ledger, pool, ledgerRows, LedgerRow(u, scope, c));
    UpsertOneCarry(carries, carryRows, CarryRow(u, scope, carry));
    var k' := if carry != 0 || (u, scope) in carries then k[(u, scope) := carry] else k;
    assert UpsertCarries(carries, carryRows') == k';
    forall sc ensures BooksOf(rows, l[(pool, u, scope) := c], k', sc)
      == Write(BooksOf(rows, ledger, carries, sc), pool, With(charges, scope, u, c)(sc))
    {
      RecordAtScope(rows, ledger, carries, l, k, pool, charges, u, scope, c, sc);
    }
  }

  lemma UpsertOneLedger(m: Ledger, pool: int, rows: seq<LedgerRow>, r: LedgerRow)
    ensures UpsertLedger(m, pool, rows + [r]) == UpsertLedger(m, pool, rows)[(pool, r.userId, r.scope) := r.charged]
  {
    assert (rows + [r])[..|rows|] == rows;
  }

  lemma UpsertOneCarry(m: Rows, rows: seq<CarryRow>, r: CarryRow)
    ensures UpsertCarries(m, rows + [r]) == UpsertCarries(m, rows)[(r.userId, r.scope) := r.carry]
  {
    assert (rows + [r])[..|rows|] == rows;
  }

  lemma RecordAtScope(rows: Rows, ledger: Ledger, carries: Rows, l: Ledger, k: Rows, pool: int,
      charges: Scope -> map<int, int>, u: int, scope: Scope, c: int, sc: Scope)
    requires BooksOf(rows, l, k, sc) == Write(BooksOf(rows, ledger, carries, sc), pool, charges(sc))
    requires u !in charges(scope)
    ensures var carry := c - At(rows, (u, scope));
      var k' := if carry != 0 || (u, scope) in carries then k[(u, scope) := carry] else k;
      BooksOf(rows, l[(pool, u, scope) := c], k', sc)
        == Write(BooksOf(rows, ledger, carries, sc), pool, With(charges, scope, u, c)(sc))
  {
    hide Write, OfScope, LedgerOfScope;
    var b := BooksOf(rows, ledger, carries, sc);
    PutLedger(l, scope, pool, u, c, sc);
    PutOfScope(k, scope, u, c - At(rows, (u, scope)), sc);
    if sc == scope {
      ReadAt(rows, scope, u);
      ReadAt(carries, scope, u);
      WriteOneMore(b, pool, charges(sc), u, c);
    }
  }

  class SettlementTables {
    var rows: Rows
    var ledger: Ledger
    var carries: Rows

    function View(scope: Scope): Books
      reads this
    {
      BooksOf(rows, ledger, carries, scope)
    }

    /** The inner `record`: a ledger row always, a carry row if it says something or corrects one. */
    method Record(pool: int, ledgerRows0: seq<LedgerRow>, carryRows0: seq<CarryRow>,
                  ghost charges: Scope -> map<int, int>,
                  u: int, scope: Scope, charged: int)
      returns (ledgerRows: seq<LedgerRow>, carryRows: seq<CarryRow>)
      requires Collected(rows, ledger, carries, pool, ledgerRows0, carryRows0, charges)
      requires u !in charges(scope)
      ensures Collected(rows, ledger, carries, pool, ledgerRows, carryRows, With(charges, scope, u, charged))
    {
      hide Collected, With, UpsertLedger, UpsertCarries;
      ledgerRows := ledgerRows0 + [LedgerRow(u, scope, charged)];
      carryRows := carryRows0;
      var carry := charged - At(rows, (u, scope));
      if carry != 0 || (u, scope) in carries {
        carryRows := carryRows + [CarryRow(u, scope, carry)];
      }
      RecordIsCollected(rows, ledger, carries, pool, ledgerRows0, carryRows0, charges, u, scope, charged, carryRows);
    }

    method WriteSettlement(pool: int, ledgerRows: seq<LedgerRow>, carryRows: seq<CarryRow>)
      modifies this
      ensures rows == old(rows)
      ensures ledger == UpsertLedger(old(ledger), pool, ledgerRows)
      ensures carries == UpsertCarries(old(carries), carryRows)
    {
      ledger := UpsertLedger(ledger, pool, ledgerRows);
      carries := UpsertCarries(carries, carryRows);
    }

    method IsUnlimited(members: seq<int>, limits: Rows, inactive: set<int>, scope: Scope) returns (unlimited: bool)
      ensures unlimited <==> Unlimited(RulesOf(limits, inactive, scope), members)
      ensures unlimited <==> exists u | u in members :: u !in inactive && (u, scope) !in limits
    {
      unlimited := false;
      for i := 0 to |members|
        invariant unlimited <==> Unlimited(RulesOf(limits, inactive, scope), members[..i])
      {
        ReadAt(limits, scope, members[i]);
        UnlimitedOneMore(RulesOf(limits, inactive, scope), members, i);
        unlimited := unlimited || (members[i] !in inactive && (members[i], scope) !in limits);
      }
      assert members[..|members|] == members;
      forall u ensures u in RulesOf(limits, inactive, scope).limits <==> (u, scope) in limits {
        ReadAt(limits, scope, u);
      }
    }

    /** An unlimited scope: nothing is shared out, each member is charged their own use up to their own limit. */
    method SettleUnlimited(pool: int, members: seq<int>, limits: Rows, inactive: set<int>, scope: Scope,
                           dissolving: bool, ledgerRows0: seq<LedgerRow>, carryRows0: seq<CarryRow>,
                           ghost charges: Scope -> map<int, int>)
      returns (ledgerRows: seq<LedgerRow>, carryRows: seq<CarryRow>, ghost charges': Scope -> map<int, int>)
      requires NoDuplicates(members) && charges(scope) == map[]
      requires Unlimited(RulesOf(limits, inactive, scope), members)
      requires Collected(rows, ledger, carries, pool, ledgerRows0, carryRows0, charges)
      ensures Collected(rows, ledger, carries, pool, ledgerRows, carryRows, charges')
      ensures charges'(scope) == Recorded(View(scope), RulesOf(limits, inactive, scope), pool, members, dissolving)
      ensures forall sc | sc != scope :: charges'(sc) == charges(sc)
    {
      hide Sum, Shares, Collected, OfScope, LedgerOfScope;
      ghost var b, rules := View(scope), RulesOf(limits, inactive, scope);
      ghost var rec := Recorded(b, rules, pool, members, dissolving);
      ledgerRows, carryRows, charges' := ledgerRows0, carryRows0, charges;
      for i := 0 to |members|
        invariant Collected(rows, ledger, carries, pool, ledgerRows, carryRows, charges')
        invariant forall u :: u in charges'(scope) <==> u in members[..i] && u in rec
        invariant forall u | u in charges'(scope) :: charges'(scope)[u] == rec[u]
        invariant forall sc | sc != scope :: charges'(sc) == charges(sc)
      {
        var u := members[i];
        ReadAll(rows, ledger, carries, limits, scope, pool, u);
        assert members[..i+1] == members[..i] + [u];
        assert u !in members[..i];
        var used, carryIn := At(rows, (u, scope)), At(carries, (u, scope));
        if !(used == 0 && (pool, u, scope) !in ledger && carryIn == 0) {
          var effective := Max(0, used + carryIn);
          var charged := if (u, scope) in limits then Min(limits[(u, scope)], effective) else effective;
          ledgerRows, carryRows := Record(pool, ledgerRows, carryRows, charges', u, scope, charged);
          charges' := With(charges', scope, u, charged);
        }
      }
      assert members[..|members|] == members;
      forall u ensures u in charges'(scope) <==> u in rec {
        SettlementLaws.SettledUser(b, rules, pool, members, dissolving, u);
      }
    }

    /** What each member takes part in the split with: a deactivated one with what they are charged for a limit. */
    method ReadPositions(pool: int, members: seq<int>, limits: Rows, inactive: set<int>, scope: Scope)
      returns (list: seq<MemberShare>)
      ensures list == ShareList(View(scope), RulesOf(limits, inactive, scope), pool, members)
    {
      hide OfScope, LedgerOfScope;
      list := [];
      for i := 0 to |members|
        invariant |list| == i
        invariant forall j | 0 <= j < i ::
          list[j] == Position(View(scope), RulesOf(limits, inactive, scope), pool, members[j])
      {
        var u := members[i];
        ReadAll(rows, ledger, carries, limits, scope, pool, u);
        var charged := At(ledger, (pool, u, scope));
        list := list
          + [MemberShare(u, if u in inactive then charged else At(limits, (u, scope)), charged, At(rows, (u, scope)))];
      }
    }

    /** A limited scope with something to apportion. */
    method SettleLimited(pool: int, members: seq<int>, limits: Rows, inactive: set<int>, scope: Scope,
                         dissolving: bool, delta: int,
                         ledgerRows0: seq<LedgerRow>, carryRows0: seq<CarryRow>, ghost charges: Scope -> map<int, int>)
      returns (ledgerRows: seq<LedgerRow>, carryRows: seq<CarryRow>, ghost charges': Scope -> map<int, int>)
      requires NoDuplicates(members) && charges(scope) == map[]
      requires !Unlimited(RulesOf(limits, inactive, scope), members)
      requires delta == Delta(View(scope), pool, members) && (delta != 0 || dissolving)
      requires Collected(rows, ledger, carries, pool, ledgerRows0, carryRows0, charges)
      ensures Collected(rows, ledger, carries, pool, ledgerRows, carryRows, charges')
      ensures charges'(scope) == Recorded(View(scope), RulesOf(limits, inactive, scope), pool, members, dissolving)
      ensures forall sc | sc != scope :: charges'(sc) == charges(sc)
    {
      hide Sum, Shares, Collected, OfScope, LedgerOfScope, Delta, SplitRounds.SharesAreInRounds;
      ghost var b, rules := View(scope), RulesOf(limits, inactive, scope);
      ledgerRows, carryRows, charges' := ledgerRows0, carryRows0, charges;
      var list := ReadPositions(pool, members, limits, inactive, scope);
      ShareListDistinct(b, rules, pool, members);
      var shares, _ := Apportionment.Apportion(delta, list);
      for i := 0 to |members|
        invariant Collected(rows, ledger, carries, pool, ledgerRows, carryRows, charges')
        invariant forall u :: u in charges'(scope) <==> u in members[..i]
        invariant forall u | u in charges'(scope) :: charges'(scope)[u] == Charged(b, pool, u) + At(shares, u)
        invariant forall sc | sc != scope :: charges'(sc) == charges(sc)
      {
        var u := members[i];
        ReadAll(rows, ledger, carries, limits, scope, pool, u);
        assert members[..i+1] == members[..i] + [u];
        assert u !in members[..i];
        var charged := At(ledger, (pool, u, scope)) + At(shares, u);
        ledgerRows, carryRows := Record(pool, ledgerRows, carryRows, charges', u, scope, charged);
        charges' := With(charges', scope, u, charged);
      }
      assert members[..|members|] == members;
      ghost var rec := Recorded(b, rules, pool, members, dissolving);
      forall u ensures u in charges'(scope) <==> u in rec {
        assert u in rec <==> u in Elements(members);
      }
      forall u | u in rec ensures charges'(scope)[u] == rec[u] {
      }
    }

    /** One scope of settle_pool. */
    method SettleScope(pool: int, members: seq<int>, limits: Rows, inactive: set<int>, scope: Scope, dissolving: bool,
                       ledgerRows0: seq<LedgerRow>, carryRows0: seq<CarryRow>, ghost charges: Scope -> map<int, int>)
      returns (ledgerRows: seq<LedgerRow>, carryRows: seq<CarryRow>, ghost charges': Scope -> map<int, int>)
      requires NoDuplicates(members) && charges(scope) == map[]
      requires Collected(rows, ledger, carries, pool, ledgerRows0, carryRows0, charges)
      ensures Collected(rows, ledger, carries, pool, ledgerRows, carryRows, charges')
      ensures charges'(scope) == Recorded(View(scope), RulesOf(limits, inactive, scope), pool, members, dissolving)
      ensures forall sc | sc != scope :: charges'(sc) == charges(sc)
    {
      hide Sum, Shares, Collected, OfScope, LedgerOfScope, Delta;
      ledgerRows, carryRows, charges' := ledgerRows0, carryRows0, charges;
      var unlimited := IsUnlimited(members, limits, inactive, scope);
      if unlimited {
        ledgerRows, carryRows, charges' :=
          SettleUnlimited(pool, members, limits, inactive, scope, dissolving, ledgerRows, carryRows, charges);
      } else {
        var delta := ReadDelta(pool, members, scope);
        if delta != 0 || dissolving {
          ledgerRows, carryRows, charges' :=
            SettleLimited(pool, members, limits, inactive, scope, dissolving, delta, ledgerRows, carryRows, charges);
        }
      }
    }

    lemma ReadAll(rows: Rows, ledger: Ledger, carries: Rows, limits: Rows, scope: Scope, pool: int, u: int)
      ensures var b := BooksOf(rows, ledger, carries, scope);
        && At(b.rows, u) == At(rows, (u, scope)) && At(b.carries, u) == At(carries, (u, scope))
        && Charged(b, pool, u) == At(ledger, (pool, u, scope))
        && ((pool, u) in b.ledger <==> (pool, u, scope) in ledger)
        && (u in OfScope(limits, scope) <==> (u, scope) in limits)
        && At(OfScope(limits, scope), u) == At(limits, (u, scope))
    {
      ReadAt(rows, scope, u);
      ReadAt(carries, scope, u);
      ReadAt(limits, scope, u);
      ReadLedgerAt(ledger, scope, pool, u);
    }

    lemma UnlimitedOneMore(rules: Rules, members: seq<int>, i: nat)
      requires i < |members|
      ensures Unlimited(rules, members[..i+1])
        <==> Unlimited(rules, members[..i]) || (members[i] !in rules.inactive && members[i] !in rules.limits)
    {
      var m := members[..i+1];
      assert m == members[..i] + [members[i]];
      forall u ensures u in m <==> u in members[..i] || u == members[i] {
      }
      if Unlimited(rules, members[..i]) {
        var u :| u in members[..i] && u !in rules.inactive && u !in rules.limits;
        assert u in m;
      }
    }

    lemma SumOneMore(m: map<int, int>, members: seq<int>, i: nat)
      requires i < |members| && NoDuplicates(members)
      ensures Sum(m, Elements(members[..i+1])) == Sum(m, Elements(members[..i])) + At(m, members[i])
    {
      hide Sum;
      assert members[..i+1] == members[..i] + [members[i]];
      assert Elements(members[..i+1]) - {members[i]} == Elements(members[..i]);
      SumPick(m, Elements(members[..i+1]), members[i]);
    }

    /** What the pool consumed on this scope since the last change. */
    method ReadDelta(pool: int, members: seq<int>, scope: Scope) returns (delta: int)
      requires NoDuplicates(members)
      ensures delta == Delta(View(scope), pool, members)
    {
      hide Sum, OfScope, LedgerOfScope;
      ghost var b := View(scope);
      var used, charged := 0, 0;
      SumNone(UsedMap(b, members));
      SumNone(ChargedMap(b, pool, members));
      assert Elements(members[..0]) == {};
      for i := 0 to |members|
        invariant used == Sum(UsedMap(b, members), Elements(members[..i]))
        invariant charged == Sum(ChargedMap(b, pool, members), Elements(members[..i]))
      {
        var u := members[i];
        ReadAll(rows, ledger, carries, map[], scope, pool, u);
        assert u in Elements(members);
        SumOneMore(UsedMap(b, members), members, i);
        SumOneMore(ChargedMap(b, pool, members), members, i);
        used := used + At(rows, (u, scope)) + At(carries, (u, scope));
        charged := charged + At(ledger, (pool, u, scope));
      }
      assert members[..|members|] == members;
      delta := used - charged;
    }

    /** settle_pool: every scope is settled exactly as specified, and nothing else changes. */
    method SettlePool(pool: int, members: seq<int>, limits: Rows, inactive: set<int>, scopes: seq<Scope>,
                      dissolving: bool)
      requires NoDuplicates(members)
      requires NoDuplicates(scopes)
      modifies this
      ensures forall sc | sc in scopes ::
        View(sc) == Settle(old(View(sc)), RulesOf(limits, inactive, sc), pool, members, dissolving)
      ensures forall sc | sc !in scopes :: View(sc) == old(View(sc))
    {
      hide Sum, Collected, Recorded;
      if |members| == 0 {
        forall sc ensures Settle(View(sc), RulesOf(limits, inactive, sc), pool, members, dissolving) == View(sc) {
          NoMembers(View(sc), RulesOf(limits, inactive, sc), pool, members, dissolving);
        }
        return;
      }
      var ledgerRows, carryRows: seq<CarryRow> := [], [];
      ghost var charges: Scope -> map<int, int> := _ => map[];
      NothingCollected(pool, charges);
      for i := 0 to |scopes|
        invariant rows == old(rows) && ledger == old(ledger) && carries == old(carries)
        invariant Collected(rows, ledger, carries, pool, ledgerRows, carryRows, charges)
        invariant forall sc | sc in scopes[..i] ::
          charges(sc) == Recorded(View(sc), RulesOf(limits, inactive, sc), pool, members, dissolving)
        invariant forall sc | sc !in scopes[..i] :: charges(sc) == map[]
      {
        assert scopes[..i+1] == scopes[..i] + [scopes[i]];
        ledgerRows, carryRows, charges :=
          SettleScope(pool, members, limits, inactive, scopes[i], dissolving, ledgerRows, carryRows, charges);
      }
      assert scopes[..|scopes|] == scopes;
      CollectedMeans(pool, ledgerRows, carryRows, charges);
      WriteSettlement(pool, ledgerRows, carryRows);
    }

    lemma NoMembers(b: Books, rules: Rules, pool: int, members: seq<int>, dissolving: bool)
      requires members == []
      ensures Settle(b, rules, pool, members, dissolving) == b
    {
      hide Sum, Shares, Write;
      assert Recorded(b, rules, pool, members, dissolving) == map[];
      SettlementLaws.RewriteIsNoOp(b, pool, map[]);
    }

    lemma NothingCollected(pool: int, charges: Scope -> map<int, int>)
      requires forall sc :: charges(sc) == map[]
      ensures Collected(rows, ledger, carries, pool, [], [], charges)
    {
      hide Write;
      forall sc ensures View(sc) == Write(View(sc), pool, charges(sc)) {
        SettlementLaws.RewriteIsNoOp(View(sc), pool, map[]);
      }
    }

    lemma CollectedMeans(pool: int, ledgerRows: seq<LedgerRow>, carryRows: seq<CarryRow>,
                         charges: Scope -> map<int, int>)
      requires Collected(rows, ledger, carries, pool, ledgerRows, carryRows, charges)
      ensures forall sc ::
        BooksOf(rows, UpsertLedger(ledger, pool, ledgerRows), UpsertCarries(carries, carryRows), sc)
          == Write(View(sc), pool, charges(sc))
      ensures forall sc | charges(sc) == map[] :: Write(View(sc), pool, charges(sc)) == View(sc)
    {
      hide Write;
      forall sc | charges(sc) == map[] ensures Write(View(sc), pool, charges(sc)) == View(sc) {
        SettlementLaws.RewriteIsNoOp(View(sc), pool, map[]);
      }
    }

    /** One scope of admit_member. */
    method AdmitScope(pool: int, u: int, limits: Rows, scope: Scope, ledgerRows0: seq<LedgerRow>,
                      carryRows0: seq<CarryRow>,
                      ghost charges: Scope -> map<int, int>)
      returns (ledgerRows: seq<LedgerRow>, carryRows: seq<CarryRow>, ghost charges': Scope -> map<int, int>)
      requires charges(scope) == map[]
      requires Collected(rows, ledger, carries, pool, ledgerRows0, carryRows0, charges)
      ensures Collected(rows, ledger, carries, pool, ledgerRows, carryRows, charges')
      ensures charges'(scope) == Opening(View(scope), RulesOf(limits, {}, scope), u)
      ensures forall sc | sc != scope :: charges'(sc) == charges(sc)
    {
      hide Collected, OfScope, LedgerOfScope;
      ledgerRows, carryRows, charges' := ledgerRows0, carryRows0, charges;
      ReadAll(rows, ledger, carries, limits, scope, pool, u);
      var used, carryIn := At(rows, (u, scope)), At(carries, (u, scope));
      var effective := Max(0, used + carryIn);
      var charged := if (u, scope) in limits then Min(limits[(u, scope)], effective) else effective;
      if !(charged == 0 && used == 0 && carryIn == 0) {
        ledgerRows, carryRows := Record(pool, ledgerRows, carryRows, charges, u, scope, charged);
        charges' := With(charges, scope, u, charged);
      }
    }

    /** admit_member, on every scope. */
    method AdmitMember(pool: int, u: int, limits: Rows, scopes: seq<Scope>)
      requires NoDuplicates(scopes)
      modifies this
      ensures forall sc | sc in scopes :: View(sc) == Admit(old(View(sc)), RulesOf(limits, {}, sc), pool, u)
      ensures forall sc | sc !in scopes :: View(sc) == old(View(sc))
    {
      hide Collected, Write, Opening;
      var ledgerRows, carryRows: seq<CarryRow> := [], [];
      ghost var charges: Scope -> map<int, int> := _ => map[];
      NothingCollected(pool, charges);
      for i := 0 to |scopes|
        invariant rows == old(rows) && ledger == old(ledger) && carries == old(carries)
        invariant Collected(rows, ledger, carries, pool, ledgerRows, carryRows, charges)
        invariant forall sc | sc in scopes[..i] :: charges(sc) == Opening(View(sc), RulesOf(limits, {}, sc), u)
        invariant forall sc | sc !in scopes[..i] :: charges(sc) == map[]
      {
        assert scopes[..i+1] == scopes[..i] + [scopes[i]];
        assert scopes[i] !in scopes[..i];
        ledgerRows, carryRows, charges := AdmitScope(pool, u, limits, scopes[i], ledgerRows, carryRows, charges);
      }
      assert scopes[..|scopes|] == scopes;
      CollectedMeans(pool, ledgerRows, carryRows, charges);
      forall sc ensures Admit(View(sc), RulesOf(limits, {}, sc), pool, u)
        == Write(View(sc), pool, Opening(View(sc), RulesOf(limits, {}, sc), u))
      {
        AdmitIsWrite(View(sc), RulesOf(limits, {}, sc), pool, u);
      }
      WriteSettlement(pool, ledgerRows, carryRows);
    }

    lemma AdmitIsWrite(b: Books, rules: Rules, pool: int, u: int)
      ensures Admit(b, rules, pool, u) == Write(b, pool, Opening(b, rules, u))
    {
      hide Write;
      SettlementLaws.RewriteIsNoOp(b, pool, map[]);
    }

    /** clear_member_settlement: the ledger rows of one membership go, on every scope; the carry stays. */
    method ClearMember(pool: int, u: int)
      modifies this
      ensures forall sc :: View(sc) == Clear(old(View(sc)), pool, u)
    {
      hide OfScope, LedgerOfScope;
      ghost var before := ledger;
      ledger := Kept(ledger, pool, u);
      forall sc ensures View(sc) == Clear(old(View(sc)), pool, u) {
        KeptOfScope(before, pool, u, sc);
      }
    }
  }

  function Kept(ledger: Ledger, pool: int, u: int): Ledger {
    map k | k in ledger && !(k.0 == pool && k.1 == u) :: ledger[k]
  }

  lemma KeptOfScope(ledger: Ledger, pool: int, u: int, sc: Scope)
    ensures LedgerOfScope(Kept(ledger, pool, u), sc) == LedgerOfScope(ledger, sc) - {(pool, u)}
  {
    hide LedgerOfScope;
    var kept := LedgerOfScope(Kept(ledger, pool, u), sc);
    forall k: (int, int) ensures
      && (k in kept <==> k in LedgerOfScope(ledger, sc) && k != (pool, u))
      && (k in kept ==> At(kept, k) == At(LedgerOfScope(ledger, sc), k))
    {
      ReadLedgerAt(Kept(ledger, pool, u), sc, k.0, k.1);
      ReadLedgerAt(ledger, sc, k.0, k.1);
    }
    SameMap(kept, LedgerOfScope(ledger, sc) - {(pool, u)});
  }

  /** The charge an admission records, if any. */
  function Opening(b: Books, rules: Rules, u: int): map<int, int> {
    var charged := Clamped(rules.limits, u, Used(b, u));
    if charged == 0 && At(b.rows, u) == 0 && At(b.carries, u) == 0 then map[] else map[u := charged]
  }
}
