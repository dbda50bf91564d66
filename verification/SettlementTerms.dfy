/** What a settlement, an admission and a departure write, in terms of the rows, charges, carries, limits and
    deactivations they read. */
module SettlementTerms {
  import opened Sums
  import opened CappedSplit
  import opened SplitLaws
  import opened SplitRounds
  import opened Settlement
  import opened SettlementLaws

  /** What the members were charged, and what they have used. */
  function Charges(b: Books, pool: int, members: seq<int>): map<int, int> {
    map u | u in members :: if (pool, u) in b.ledger then b.ledger[(pool, u)] else 0
  }

  function Uses(b: Books, members: seq<int>): map<int, int> {
    map u | u in members :: (if u in b.rows then b.rows[u] else 0) + (if u in b.carries then b.carries[u] else 0)
  }

  ghost function Closed(b: Books, pool: int, members: seq<int>): int {
    Sum(Uses(b, members), set u | u in members) - Sum(Charges(b, pool, members), set u | u in members)
  }

  lemma ClosedIsDelta(b: Books, pool: int, members: seq<int>)
    ensures Closed(b, pool, members) == Delta(b, pool, members)
    ensures Charges(b, pool, members) == ChargedMap(b, pool, members) && Uses(b, members) == UsedMap(b, members)
  {
    hide Sum;
    assert Charges(b, pool, members) == ChargedMap(b, pool, members);
    assert Uses(b, members) == UsedMap(b, members);
    assert (set u | u in members) == Elements(members);
  }

  // ----- what is written ------------------------------------------------------------------

  /** Everything else stays, and a charge comes with the carry that makes it the effective use. */
  ghost predicate WritesOnly(b: Books, b': Books, pool: int, written: set<int>) {
    && b'.rows == b.rows
    && (forall p, u | p != pool || u !in written ::
          && ((p, u) in b'.ledger <==> (p, u) in b.ledger)
          && ((p, u) in b.ledger ==> b'.ledger[(p, u)] == b.ledger[(p, u)]))
    && (forall u | u !in written ::
          (u in b'.carries <==> u in b.carries) && (u in b.carries ==> b'.carries[u] == b.carries[u]))
    && (forall u | u in written ::
          && (pool, u) in b'.ledger
          && (u in b'.carries <==> u in b.carries || b'.ledger[(pool, u)] != At(b.rows, u))
          && At(b'.carries, u) == b'.ledger[(pool, u)] - At(b.rows, u))
  }

  lemma WriteWritesOnly(b: Books, pool: int, charges: map<int, int>)
    ensures WritesOnly(b, Write(b, pool, charges), pool, charges.Keys)
    ensures forall u | u in charges ::
      (pool, u) in Write(b, pool, charges).ledger && Write(b, pool, charges).ledger[(pool, u)] == charges[u]
  {
    var b' := Write(b, pool, charges);
    forall p, u | p != pool || u !in charges
      ensures (p, u) in b'.ledger <==> (p, u) in b.ledger
      ensures (p, u) in b.ledger ==> b'.ledger[(p, u)] == b.ledger[(p, u)]
    {
      assert (p, u) !in LedgerRows(pool, charges);
    }
    forall u | u in charges
      ensures (pool, u) in b'.ledger && b'.ledger[(pool, u)] == charges[u]
      ensures u in b'.carries <==> u in b.carries || charges[u] != At(b.rows, u)
      ensures At(b'.carries, u) == charges[u] - At(b.rows, u)
    {
      LedgerRowsAt(pool, charges, u);
    }
  }

  // ----- an unlimited scope ------------------------------------------------------------------

  /** Some active member has no limit. */
  predicate Uncapped(rules: Rules, members: seq<int>) {
    exists u | u in members :: u !in rules.inactive && u !in rules.limits
  }

  /** Own use, not below 0 and not above the own limit. */
  predicate IsOwnUse(rules: Rules, u: int, used: int, charge: int) {
    var used' := if used < 0 then 0 else used;
    charge == if u in rules.limits && rules.limits[u] < used' then rules.limits[u] else used'
  }

  /** Every member pays for their own use up to their own limit; those with nothing on the books are passed over. */
  lemma UncappedSettlement(b: Books, rules: Rules, pool: int, members: seq<int>, dissolving: bool)
    requires NoDuplicates(members) && Uncapped(rules, members)
    ensures var b' := Settle(b, rules, pool, members, dissolving);
      var seen := set u | u in members && !(At(b.rows, u) == 0 && (pool, u) !in b.ledger && At(b.carries, u) == 0);
      && WritesOnly(b, b', pool, seen)
      && forall u | u in seen :: IsOwnUse(rules, u, Uses(b, members)[u], b'.ledger[(pool, u)])
  {
    hide Sum, Write;
    var rec := Recorded(b, rules, pool, members, dissolving);
    WriteWritesOnly(b, pool, rec);
    assert rec.Keys == set u | u in members && !(At(b.rows, u) == 0 && (pool, u) !in b.ledger && At(b.carries, u) == 0);
    forall u | u in rec ensures rec[u] == Clamped(rules.limits, u, Used(b, u)) && Used(b, u) == Uses(b, members)[u] {
    }
  }

  // ----- a limited scope --------------------------------------------------------------------------

  /** What each member takes part with: their limit, or what they are charged if deactivated. */
  function PartWeights(b: Books, rules: Rules, pool: int, members: seq<int>): map<int, int> {
    map u | u in members ::
      var limit := if u in rules.inactive then At(b.ledger, (pool, u)) else At(rules.limits, u);
      if limit > 0 then limit else 0
  }

  /** What each can still take of an interval that closed at this. Nothing more is charged to a deactivated
      member, who does get refunds. */
  function PartRooms(b: Books, rules: Rules, pool: int, members: seq<int>, closed: int): map<int, int> {
    map u | u in members ::
      var charged := At(b.ledger, (pool, u));
      var room :=
        if closed < 0 then charged
        else if u in rules.inactive then 0
        else At(rules.limits, u) - charged;
      if room > 0 then room else 0
  }

  /** How far each member's charge moved. */
  function Moves(b: Books, b': Books, pool: int, members: seq<int>): map<int, int> {
    map u | u in members ::
      var move := At(b'.ledger, (pool, u)) - At(b.ledger, (pool, u));
      if move < 0 then -move else move
  }

  lemma ListMembers(b: Books, rules: Rules, pool: int, members: seq<int>)
    requires NoDuplicates(members)
    ensures var list := ShareList(b, rules, pool, members);
      && Distinct(list) && (set m | m in list :: m.userId) == (set u | u in members) == Ids(list)
      && forall m | m in list :: m.userId in members && m == Position(b, rules, pool, m.userId)
  {
    ShareListIds(b, rules, pool, members);
  }

  lemma WeightAt(list: seq<MemberShare>, m: MemberShare)
    requires Distinct(list) && m in list
    ensures Weights(list).Keys == Ids(list)
    ensures m.userId in Weights(list) && Weights(list)[m.userId] == if m.limit > 0 then m.limit else 0
  {
  }

  lemma RoomAt(list: seq<MemberShare>, closed: int, m: MemberShare)
    requires Distinct(list) && m in list
    ensures Rooms(closed, list).Keys == Ids(list)
    ensures m.userId in Rooms(closed, list) && Rooms(closed, list)[m.userId] ==
      if closed < 0 then (if m.charged > 0 then m.charged else 0)
      else if m.limit > m.charged then m.limit - m.charged else 0
  {
  }

  lemma ConsumptionAt(list: seq<MemberShare>, m: MemberShare)
    requires Distinct(list) && m in list
    ensures Consumption(list).Keys == Ids(list)
    ensures m.userId in Consumption(list) && Consumption(list)[m.userId] == m.consumed
  {
  }

  lemma ListTerms(b: Books, rules: Rules, pool: int, members: seq<int>, closed: int)
    requires NoDuplicates(members)
    ensures var list := ShareList(b, rules, pool, members);
      && Distinct(list)
      && (set m | m in list :: m.userId) == (set u | u in members)
      && Weights(list) == PartWeights(b, rules, pool, members)
      && Rooms(closed, list) == PartRooms(b, rules, pool, members, closed)
      && Consumption(list) == map u | u in members :: At(b.rows, u)
  {
    hide ShareList, Weights, Rooms, Consumption;
    var list := ShareList(b, rules, pool, members);
    ListMembers(b, rules, pool, members);
    KeysOf(list, closed);
    forall m | m in list
      ensures m.userId in Weights(list) && Weights(list)[m.userId] == PartWeights(b, rules, pool, members)[m.userId]
    {
      WeightAt(list, m);
    }
    forall m | m in list ensures m.userId in Rooms(closed, list)
      ensures Rooms(closed, list)[m.userId] == PartRooms(b, rules, pool, members, closed)[m.userId]
    {
      RoomAt(list, closed, m);
    }
    forall m | m in list
      ensures m.userId in Consumption(list) && Consumption(list)[m.userId] == At(b.rows, m.userId)
    {
      ConsumptionAt(list, m);
    }
    SameOnList(list, Weights(list), PartWeights(b, rules, pool, members), Elements(members));
    SameOnList(list, Rooms(closed, list), PartRooms(b, rules, pool, members, closed), Elements(members));
    SameOnList(list, Consumption(list), map u | u in members :: At(b.rows, u), Elements(members));
  }

  lemma KeysOf(list: seq<MemberShare>, closed: int)
    requires Distinct(list)
    ensures Weights(list).Keys == Rooms(closed, list).Keys == Consumption(list).Keys == Ids(list)
  {
  }

  lemma SameOnList(list: seq<MemberShare>, a: map<int, int>, c: map<int, int>, ids: set<int>)
    requires a.Keys == ids == c.Keys && ids == Ids(list)
    requires forall m | m in list :: m.userId in a && m.userId in c && a[m.userId] == c[m.userId]
    ensures a == c
  {
    forall u | u in a ensures a[u] == c[u] {
      var m :| m in list && m.userId == u;
    }
  }

  /** Nothing closed, nothing written, unless the pool dissolves; else every charge moves by the member's share of
      what closed, in rounds, all in one direction. */
  lemma CappedSettlement(b: Books, rules: Rules, pool: int, members: seq<int>, dissolving: bool)
    requires NoDuplicates(members) && !Uncapped(rules, members)
    ensures var b', closed := Settle(b, rules, pool, members, dissolving), Closed(b, pool, members);
      if closed == 0 && !dissolving then b' == b
      else
        && WritesOnly(b, b', pool, set u | u in members)
        && InRounds(PartWeights(b, rules, pool, members), PartRooms(b, rules, pool, members, closed),
                    map u | u in members :: At(b.rows, u), set u | u in members,
                    if closed < 0 then -closed else closed, Moves(b, b', pool, members))
        && forall u | u in members ::
          if closed < 0 then At(b'.ledger, (pool, u)) <= At(b.ledger, (pool, u))
          else At(b'.ledger, (pool, u)) >= At(b.ledger, (pool, u))
  {
    hide Sum, Write, Shares, InRounds;
    var b', closed := Settle(b, rules, pool, members, dissolving), Closed(b, pool, members);
    ClosedIsDelta(b, pool, members);
    var rec := Recorded(b, rules, pool, members, dissolving);
    WriteWritesOnly(b, pool, rec);
    if closed == 0 && !dissolving {
      assert Write(b, pool, map[]) == b by { WriteNothing(b, pool); }
    } else {
      var list := ShareList(b, rules, pool, members);
      ListTerms(b, rules, pool, members, closed);
      var shares := Shares(closed, list);
      SharesAreSplit(closed, list, shares);
      SharesInRoundsIff(closed, list, shares);
      assert rec.Keys == set u | u in members;
      forall u | u in members
        ensures b'.ledger[(pool, u)] == At(b.ledger, (pool, u)) + At(shares, u)
        ensures if closed < 0 then At(shares, u) <= 0 else At(shares, u) >= 0
      {
        assert u in rec;
        ShareSign(b, rules, pool, members, closed, u);
      }
      SameMoves(b, b', pool, members, closed, shares);
    }
  }

  lemma SameMoves(b: Books, b': Books, pool: int, members: seq<int>, closed: int, shares: map<int, int>)
    requires shares.Keys == Elements(members)
    requires forall u | u in members :: At(b'.ledger, (pool, u)) == At(b.ledger, (pool, u)) + At(shares, u)
    requires forall u | u in members :: if closed < 0 then At(shares, u) <= 0 else At(shares, u) >= 0
    ensures Moves(b, b', pool, members) == Unsigned(closed, shares)
  {
    var moves, sizes := Moves(b, b', pool, members), Unsigned(closed, shares);
    forall u | u in moves ensures u in sizes && moves[u] == sizes[u] {
      assert u in Elements(members);
    }
    assert moves.Keys == Elements(members) == sizes.Keys;
  }

  lemma ShareSign(b: Books, rules: Rules, pool: int, members: seq<int>, closed: int, u: int)
    requires NoDuplicates(members) && u in members
    ensures Distinct(ShareList(b, rules, pool, members))
    ensures var share := At(Shares(closed, ShareList(b, rules, pool, members)), u);
      if closed < 0 then share <= 0 else share >= 0
  {
    hide Sum, Shares;
    ShareListIds(b, rules, pool, members);
    ShareListHas(b, rules, pool, members, u);
    ChargedStaysInRange(closed, ShareList(b, rules, pool, members), Position(b, rules, pool, u));
  }

  lemma WriteNothing(b: Books, pool: int)
    ensures Write(b, pool, map[]) == b
  {
    assert LedgerRows(pool, map[]) == map[] && CarryRows(b, map[]) == map[];
  }

  // ----- refunds -------------------------------------------------------------------------------

  /** Whom a refund can reach: who is charged and is deactivated or has a limit above 0. */
  function Refundable(b: Books, rules: Rules, pool: int, members: seq<int>): set<int> {
    set u | u in members && At(b.ledger, (pool, u)) > 0 && (u in rules.inactive || At(rules.limits, u) > 0)
  }

  /** When rows went from under the pool, a settlement gives back: everything it can, only to whom it can reach,
      deactivated members included, and nobody below 0. */
  lemma RefundReaches(b: Books, rules: Rules, pool: int, members: seq<int>, dissolving: bool, u: int)
    requires NoDuplicates(members) && !Uncapped(rules, members) && Closed(b, pool, members) < 0
    ensures var before, after := Charges(b, pool, members),
      Charges(Settle(b, rules, pool, members, dissolving), pool, members);
      var all, reached := (set x | x in members), Refundable(b, rules, pool, members);
      && Sum(after, all) == Sum(before, all) - Min(-Closed(b, pool, members), Sum(before, reached))
      && (u in members ==> if u in reached then 0 <= after[u] <= before[u] else after[u] == before[u])
  {
    hide Sum, Shares, Write, Settle;
    var b', closed := Settle(b, rules, pool, members, dissolving), Closed(b, pool, members);
    var list := ShareList(b, rules, pool, members);
    ClosedIsDelta(b, pool, members);
    ListTerms(b, rules, pool, members, closed);
    ShareListIds(b, rules, pool, members);
    var before, after := Charges(b, pool, members), Charges(b', pool, members);
    var all := set x | x in members;
    forall x | x in members
      ensures after[x] == before[x] + At(Shares(closed, list), x)
      ensures if x in Refundable(b, rules, pool, members) then 0 <= after[x] <= before[x] else after[x] == before[x]
    {
      RefundOf(b, rules, pool, members, dissolving, x);
    }
    SharesTotal(closed, list);
    SumPlus(after, before, Shares(closed, list), all);
    AbsorbableIsRefundable(b, rules, pool, members, closed);
    assert all == Elements(members);
  }

  lemma RefundOf(b: Books, rules: Rules, pool: int, members: seq<int>, dissolving: bool, u: int)
    requires NoDuplicates(members) && !Uncapped(rules, members) && Closed(b, pool, members) < 0 && u in members
    ensures Distinct(ShareList(b, rules, pool, members))
    ensures var before, after := Charges(b, pool, members),
      Charges(Settle(b, rules, pool, members, dissolving), pool, members);
      && after[u] == before[u] + At(Shares(Closed(b, pool, members), ShareList(b, rules, pool, members)), u)
      && if u in Refundable(b, rules, pool, members) then 0 <= after[u] <= before[u] else after[u] == before[u]
  {
    hide Sum, Shares, Write;
    var closed, list := Closed(b, pool, members), ShareList(b, rules, pool, members);
    ClosedIsDelta(b, pool, members);
    SettledUser(b, rules, pool, members, dissolving, u);
    ShareListIds(b, rules, pool, members);
    ShareListHas(b, rules, pool, members, u);
    ChargedStaysInRange(closed, list, Position(b, rules, pool, u));
    RefundHeadroom(b, rules, pool, members, closed, u);
  }

  lemma RefundHeadroom(b: Books, rules: Rules, pool: int, members: seq<int>, closed: int, u: int)
    requires NoDuplicates(members) && u in members && closed < 0
    ensures Distinct(ShareList(b, rules, pool, members))
    ensures At(b.ledger, (pool, u)) <= 0 ==> At(Shares(closed, ShareList(b, rules, pool, members)), u) == 0
  {
    hide Sum, Split, TermsOf, Shares, ShareList;
    var list := ShareList(b, rules, pool, members);
    ShareListIds(b, rules, pool, members);
    ShareListHas(b, rules, pool, members, u);
    TermsAreValid(list, true);
    TermsOfMember(list, true, Position(b, rules, pool, u));
    ShareOf(closed, list, u);
    ShareBounds(TermsOf(list, true), -closed, u);
  }

  lemma AbsorbableIsRefundable(b: Books, rules: Rules, pool: int, members: seq<int>, closed: int)
    requires NoDuplicates(members) && closed < 0
    ensures Distinct(ShareList(b, rules, pool, members))
    ensures Absorbable(closed, ShareList(b, rules, pool, members))
      == Sum(Charges(b, pool, members), Refundable(b, rules, pool, members))
  {
    hide Sum, TermsOf, ShareList, Weights, Rooms, Consumption;
    var list := ShareList(b, rules, pool, members);
    ListTerms(b, rules, pool, members, closed);
    SameWeights(list);
    SameRooms(list, closed);
    TermsAreValid(list, true);
    HeadroomIsCharge(b, rules, pool, members, closed, TermsOf(list, true));
  }

  lemma HeadroomIsCharge(b: Books, rules: Rules, pool: int, members: seq<int>, closed: int, t: Terms)
    requires closed < 0 && t.weight == PartWeights(b, rules, pool, members)
    requires t.headroom == PartRooms(b, rules, pool, members, closed)
    ensures Sum(t.headroom, Positive(t)) == Sum(Charges(b, pool, members), Refundable(b, rules, pool, members))
  {
    hide Sum;
    var reached := Refundable(b, rules, pool, members);
    forall u | u in reached ensures u in Positive(t) && At(t.headroom, u) == At(Charges(b, pool, members), u) {
    }
    forall u | u in Positive(t) && u !in reached ensures At(t.headroom, u) == 0 {
    }
    SumSupport(t.headroom, Positive(t), reached);
    SumSame(t.headroom, Charges(b, pool, members), reached);
  }

  /** So, when nobody is charged below 0 and whoever is active and charged has a limit above 0, the charges after a
      refund add up to what the pool has used, or to 0 if that is less. */
  lemma RefundIsExact(b: Books, rules: Rules, pool: int, members: seq<int>, dissolving: bool)
    requires NoDuplicates(members) && !Uncapped(rules, members) && Closed(b, pool, members) < 0
    requires forall u | u in members :: At(b.ledger, (pool, u)) >= 0
    requires forall u | u in members && u !in rules.inactive && At(b.ledger, (pool, u)) > 0 :: At(rules.limits, u) > 0
    ensures var used := Sum(Uses(b, members), set u | u in members);
      Sum(Charges(Settle(b, rules, pool, members, dissolving), pool, members), set u | u in members) == Max(0, used)
  {
    hide Sum, Settle;
    var before, all := Charges(b, pool, members), set u | u in members;
    var reached := Refundable(b, rules, pool, members);
    RefundReaches(b, rules, pool, members, dissolving, 0);
    forall u | u in all && u !in reached ensures At(before, u) == 0 {
    }
    SumSupport(before, all, reached);
  }

  // ----- joining and leaving ---------------------------------------------------------------------

  /** Joining writes nothing for who has nothing on the books; else a charge of the own use, clamped. */
  lemma AdmissionMeans(b: Books, rules: Rules, pool: int, u: int)
    ensures var b' := Admit(b, rules, pool, u);
      if b' == b then
        (pool, u) !in b.ledger ==> IsOwnUse(rules, u, At(b.rows, u) + At(b.carries, u), 0)
      else
        && WritesOnly(b, b', pool, {u})
        && IsOwnUse(rules, u, At(b.rows, u) + At(b.carries, u), b'.ledger[(pool, u)])
  {
    hide Write;
    var charged := Clamped(rules.limits, u, Used(b, u));
    WriteWritesOnly(b, pool, map[u := charged]);
    assert map[u := charged].Keys == {u};
  }

  /** Leaving drops the one ledger row and nothing else. */
  lemma ClearMeans(b: Books, pool: int, u: int, p: int, v: int)
    ensures var b' := Clear(b, pool, u);
      && b'.rows == b.rows && b'.carries == b.carries
      && ((p, v) in b'.ledger <==> (p, v) in b.ledger && (p, v) != (pool, u))
      && ((p, v) in b'.ledger ==> b'.ledger[(p, v)] == b.ledger[(p, v)])
  {
  }
}
