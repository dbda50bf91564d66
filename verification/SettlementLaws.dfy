/** What one settlement, admission or departure guarantees on any books whatever. */
module SettlementLaws {
  import opened Sums
  import opened CappedSplit
  import opened SplitLaws
  import opened Settlement

  lemma ShareListIds(b: Books, rules: Rules, pool: int, members: seq<int>)
    requires NoDuplicates(members)
    ensures Distinct(ShareList(b, rules, pool, members))
    ensures Ids(ShareList(b, rules, pool, members)) == Elements(members)
  {
    var list := ShareList(b, rules, pool, members);
    ShareListDistinct(b, rules, pool, members);
    forall u | u in Elements(members) ensures u in Ids(list) {
      var i :| 0 <= i < |members| && members[i] == u;
      assert list[i].userId == u;
    }
  }

  lemma ShareListHas(b: Books, rules: Rules, pool: int, members: seq<int>, u: int)
    requires u in Elements(members)
    ensures Position(b, rules, pool, u) in ShareList(b, rules, pool, members)
  {
    var i :| 0 <= i < |members| && members[i] == u;
    var list := ShareList(b, rules, pool, members);
    assert list[i] == Position(b, rules, pool, u);
  }

  /** A settled user's used count is their charge; an unrecorded one is untouched. */
  lemma SettledUser(b: Books, rules: Rules, pool: int, members: seq<int>, dissolving: bool, u: int)
    requires NoDuplicates(members)
    ensures var rec, b' := Recorded(b, rules, pool, members, dissolving), Settle(b, rules, pool, members, dissolving);
      && b'.rows == b.rows
      && (u in rec ==> u in members && Charged(b', pool, u) == rec[u] && Used(b', u) == rec[u])
      && (u !in rec ==> Charged(b', pool, u) == Charged(b, pool, u) && Used(b', u) == Used(b, u))
  {
    hide Sum, Shares;
    WriteAt(b, pool, Recorded(b, rules, pool, members, dissolving), u);
  }

  ghost predicate InStep(b: Books, pool: int, members: seq<int>) {
    forall u | u in members :: Used(b, u) == Charged(b, pool, u)
  }

  /** Whether settling leaves every record as it finds it: a limited pool with nothing closed. */
  ghost predicate Skips(b: Books, rules: Rules, pool: int, members: seq<int>, dissolving: bool) {
    !Unlimited(rules, members) && Delta(b, pool, members) == 0 && !dissolving
  }

  /** Each member is charged exactly what they have used, unless the skip found them out of step. */
  lemma SettleBringsInStep(b: Books, rules: Rules, pool: int, members: seq<int>, dissolving: bool)
    requires NoDuplicates(members)
    ensures InStep(Settle(b, rules, pool, members, dissolving), pool, members)
      <==> !Skips(b, rules, pool, members, dissolving) || InStep(b, pool, members)
  {
    hide Sum, Shares;
    var b' := Settle(b, rules, pool, members, dissolving);
    forall u | u in members
      ensures if Skips(b, rules, pool, members, dissolving)
              then Used(b', u) == Used(b, u) && Charged(b', pool, u) == Charged(b, pool, u)
              else Used(b', u) == Charged(b', pool, u)
    {
      SettledUser(b, rules, pool, members, dissolving, u);
    }
  }

  /** The books' invariant: after any settlement the members' charges add up to what the pool has used. */
  lemma ChargedEqualsUsed(b: Books, rules: Rules, pool: int, members: seq<int>, dissolving: bool)
    requires NoDuplicates(members)
    ensures Delta(Settle(b, rules, pool, members, dissolving), pool, members) == 0
  {
    hide Sum, Shares;
    var b' := Settle(b, rules, pool, members, dissolving);
    if Skips(b, rules, pool, members, dissolving) {
      forall u | u in Elements(members)
        ensures At(UsedMap(b', members), u) == At(UsedMap(b, members), u)
        ensures At(ChargedMap(b', pool, members), u) == At(ChargedMap(b, pool, members), u)
      {
        SettledUser(b, rules, pool, members, dissolving, u);
      }
      SumSame(UsedMap(b', members), UsedMap(b, members), Elements(members));
      SumSame(ChargedMap(b', pool, members), ChargedMap(b, pool, members), Elements(members));
    } else {
      SettleBringsInStep(b, rules, pool, members, dissolving);
      InStepDelta(b', pool, members);
    }
  }

  lemma InStepDelta(b: Books, pool: int, members: seq<int>)
    requires InStep(b, pool, members)
    ensures Delta(b, pool, members) == 0
  {
    hide Sum;
    forall u | u in Elements(members) ensures At(UsedMap(b, members), u) == At(ChargedMap(b, pool, members), u) {
    }
    SumSame(UsedMap(b, members), ChargedMap(b, pool, members), Elements(members));
  }

  // ----- settling twice ------------------------------------------------------

  lemma ZeroShares(members: seq<MemberShare>, u: int)
    requires Distinct(members) && u in Ids(members)
    ensures At(Shares(0, members), u) == 0
  {
    hide Sum, Finish, Split;
    ShareOf(0, members, u);
    TermsAreValid(members, false);
    ZeroSplit(TermsOf(members, false), u);
  }

  lemma ZeroSplit(t: Terms, u: int)
    requires t.Valid() && u in t.weight
    ensures At(Split(t, 0), u) == 0
  {
    hide Sum, Pass;
    assert Finish(t, t.weight.Keys, 0) == Ending({}, t.weight.Keys, 0);
  }

  /** Rewriting charges that are already in force writes nothing new. */
  lemma RewriteIsNoOp(b: Books, pool: int, charges: map<int, int>)
    requires forall u | u in charges ::
      && (pool, u) in b.ledger && b.ledger[(pool, u)] == charges[u]
      && (u in b.carries ==> b.carries[u] == charges[u] - At(b.rows, u))
      && (u !in b.carries ==> charges[u] == At(b.rows, u))
    ensures Write(b, pool, charges) == b
  {
    LedgerRewrite(b, pool, charges);
    CarryRewrite(b, charges);
  }

  lemma LedgerRewrite(b: Books, pool: int, charges: map<int, int>)
    requires forall u | u in charges :: (pool, u) in b.ledger && b.ledger[(pool, u)] == charges[u]
    ensures b.ledger + LedgerRows(pool, charges) == b.ledger
  {
    var rows := LedgerRows(pool, charges);
    forall k | k in rows ensures k in b.ledger && b.ledger[k] == rows[k] {
    }
  }

  lemma CarryRewrite(b: Books, charges: map<int, int>)
    requires forall u | u in charges && u in b.carries :: b.carries[u] == charges[u] - At(b.rows, u)
    requires forall u | u in charges && u !in b.carries :: charges[u] == At(b.rows, u)
    ensures b.carries + CarryRows(b, charges) == b.carries
  {
    var rows := CarryRows(b, charges);
    forall u | u in rows ensures u in b.carries && b.carries[u] == rows[u] {
    }
  }

  lemma WrittenIsInForce(b: Books, pool: int, charges: map<int, int>, u: int)
    requires u in charges
    ensures var b' := Write(b, pool, charges);
      && (pool, u) in b'.ledger && b'.ledger[(pool, u)] == charges[u]
      && (u in b'.carries ==> b'.carries[u] == charges[u] - At(b.rows, u))
      && (u !in b'.carries ==> charges[u] == At(b.rows, u))
  {
    hide LedgerRows;
    LedgerRowsAt(pool, charges, u);
  }

  /** Settling is idempotent: done twice in a row it leaves the tables as done once. */
  lemma SettleTwiceIsSettleOnce(b: Books, rules: Rules, pool: int, members: seq<int>, dissolving: bool)
    requires NoDuplicates(members)
    ensures var once := Settle(b, rules, pool, members, dissolving);
      Settle(once, rules, pool, members, dissolving) == once
  {
    hide Sum, Shares, Write;
    var rec := Recorded(b, rules, pool, members, dissolving);
    var once := Settle(b, rules, pool, members, dissolving);
    var again := Recorded(once, rules, pool, members, dissolving);
    ChargedEqualsUsed(b, rules, pool, members, dissolving);
    forall u | u in again
      ensures (pool, u) in once.ledger && once.ledger[(pool, u)] == again[u]
      ensures u in once.carries ==> once.carries[u] == again[u] - At(once.rows, u)
      ensures u !in once.carries ==> again[u] == At(once.rows, u)
    {
      AgainIsRecorded(b, rules, pool, members, dissolving, u);
      WrittenIsInForce(b, pool, rec, u);
      SettledUser(b, rules, pool, members, dissolving, u);
    }
    RewriteIsNoOp(once, pool, again);
  }

  lemma AgainIsRecorded(b: Books, rules: Rules, pool: int, members: seq<int>, dissolving: bool, u: int)
    requires NoDuplicates(members)
    requires u in Recorded(Settle(b, rules, pool, members, dissolving), rules, pool, members, dissolving)
    ensures var rec := Recorded(b, rules, pool, members, dissolving);
      u in rec && Recorded(Settle(b, rules, pool, members, dissolving), rules, pool, members, dissolving)[u] == rec[u]
  {
    hide Sum, Shares, Write;
    var rec := Recorded(b, rules, pool, members, dissolving);
    var once := Settle(b, rules, pool, members, dissolving);
    ChargedEqualsUsed(b, rules, pool, members, dissolving);
    SettledUser(b, rules, pool, members, dissolving, u);
    WriteAt(b, pool, rec, u);
    if !Unlimited(rules, members) {
      ShareListIds(once, rules, pool, members);
      ZeroShares(ShareList(once, rules, pool, members), u);
    }
  }

  // ----- who is not affected ---------------------------------------------------

  /** Settling a pool touches nobody else's carry and no other pool's ledger. */
  lemma SettleLeavesOthersAlone(b: Books, rules: Rules, pool: int, members: seq<int>, dissolving: bool, u: int,
                                other: int)
    requires NoDuplicates(members)
    ensures var b' := Settle(b, rules, pool, members, dissolving);
      && (u !in members ==> At(b'.carries, u) == At(b.carries, u) && (u in b'.carries <==> u in b.carries)
                            && Charged(b', pool, u) == Charged(b, pool, u))
      && (other != pool ==> Charged(b', other, u) == Charged(b, other, u))
  {
    hide Sum, Shares;
    WriteAt(b, pool, Recorded(b, rules, pool, members, dissolving), u);
    if other != pool {
      WriteElsewhere(b, pool, Recorded(b, rules, pool, members, dissolving), other, u);
    }
  }

  /** On a limited scope a deactivated member absorbs nothing of what the pool spent. */
  lemma DeactivatedAbsorbNothing(b: Books, rules: Rules, pool: int, members: seq<int>, dissolving: bool, u: int)
    requires NoDuplicates(members) && u in members && u in rules.inactive
    requires !Unlimited(rules, members) && Delta(b, pool, members) >= 0
    ensures Charged(Settle(b, rules, pool, members, dissolving), pool, u) == Charged(b, pool, u)
  {
    hide Sum, Shares, Write;
    LimitedCharge(b, rules, pool, members, dissolving, u);
    SettledUser(b, rules, pool, members, dissolving, u);
  }

  /** On a limited scope a settlement moves a charge up, to at most the limit or where it was. */
  lemma LimitedCharge(b: Books, rules: Rules, pool: int, members: seq<int>, dissolving: bool, u: int)
    requires NoDuplicates(members) && u in members
    requires !Unlimited(rules, members) && Delta(b, pool, members) >= 0
    ensures u in Recorded(b, rules, pool, members, dissolving) ==>
      Charged(b, pool, u) <= Recorded(b, rules, pool, members, dissolving)[u]
        <= Max(Charged(b, pool, u), EffectiveLimit(b, rules, pool, u))
  {
    hide Sum, Shares;
    var list := ShareList(b, rules, pool, members);
    ShareListIds(b, rules, pool, members);
    ShareListHas(b, rules, pool, members, u);
    ChargedStaysInRange(Delta(b, pool, members), list, Position(b, rules, pool, u));
  }

  /** On an unlimited scope nobody pays for others: settling leaves every effective use as it
      was, up to the member's own limit, and so never resets it. */
  lemma UnlimitedKeepsUse(b: Books, rules: Rules, pool: int, members: seq<int>, dissolving: bool, u: int)
    requires NoDuplicates(members) && u in members && Unlimited(rules, members) && 0 <= At(rules.limits, u)
    ensures var b' := Settle(b, rules, pool, members, dissolving);
      var before, after := Max(0, Used(b, u)), Max(0, Used(b', u));
      && (u !in rules.limits ==> after == before)
      && (u in rules.limits ==>
           after <= rules.limits[u] && after <= before && (after < before ==> after == rules.limits[u]))
      && (Used(b, u) != 0 ==> Charged(b', pool, u) == after)
  {
    hide Sum, Shares, Write;
    SettledUser(b, rules, pool, members, dissolving, u);
  }

  // ----- admission and departure --------------------------------------------

  /** Joining leaves the joiner's effective use, and their opening charge, at
      `min(own limit, max(0, used))`, whatever the pool spent before; nobody else changes. */
  lemma AdmissionCharge(b: Books, rules: Rules, pool: int, u: int, v: int)
    requires (pool, u) !in b.ledger
    ensures var b' := Admit(b, rules, pool, u);
      && b'.rows == b.rows
      && Charged(b', pool, u) == Clamped(rules.limits, u, Used(b, u))
      && Used(b', u) == Clamped(rules.limits, u, Used(b, u))
      && (v != u ==> Charged(b', pool, v) == Charged(b, pool, v) && At(b'.carries, v) == At(b.carries, v)
                     && ((pool, v) in b'.ledger <==> (pool, v) in b.ledger))
  {
    var charged := Clamped(rules.limits, u, Used(b, u));
    WriteAt(b, pool, map[u := charged], u);
    WriteAt(b, pool, map[u := charged], v);
  }

  lemma AdmissionElsewhere(b: Books, rules: Rules, pool: int, u: int, other: int, v: int)
    requires other != pool
    ensures var b' := Admit(b, rules, pool, u);
      Charged(b', other, v) == Charged(b, other, v) && ((other, v) in b'.ledger <==> (other, v) in b.ledger)
  {
    WriteElsewhere(b, pool, map[u := Clamped(rules.limits, u, Used(b, u))], other, v);
  }

  // ----- how much a settlement destroys ---------------------------------------

  /** Requests the members used that no charge covers any more. */
  ghost function Lost(b: Books, rules: Rules, pool: int, members: seq<int>, dissolving: bool): int
    requires NoDuplicates(members)
  {
    Sum(UsedMap(b, members), Elements(members))
      - Sum(UsedMap(Settle(b, rules, pool, members, dissolving), members), Elements(members))
  }

  /** On a limited scope, exactly what exceeds all the members' headroom is dropped. */
  lemma LimitedLoss(b: Books, rules: Rules, pool: int, members: seq<int>)
    requires NoDuplicates(members)
    requires !Unlimited(rules, members) && Delta(b, pool, members) > 0
    ensures Distinct(ShareList(b, rules, pool, members))
    ensures Lost(b, rules, pool, members, false)
      == Max(0, Delta(b, pool, members) - Absorbable(Delta(b, pool, members), ShareList(b, rules, pool, members)))
  {
    hide Sum, Shares, Write, Absorbable;
    var delta := Delta(b, pool, members);
    var list := ShareList(b, rules, pool, members);
    var all := Elements(members);
    ShareListIds(b, rules, pool, members);
    SharesTotal(delta, list);
    var b' := Settle(b, rules, pool, members, false);
    forall u | u in all
      ensures At(UsedMap(b', members), u) == At(ChargedMap(b, pool, members), u) + At(Shares(delta, list), u)
    {
      SettledUser(b, rules, pool, members, false, u);
    }
    SumPlus(UsedMap(b', members), ChargedMap(b, pool, members), Shares(delta, list), all);
  }
}
