/** Whole runs of one scope of one day: usage, joins, leaves, settlements and rule changes, in any order. */
module PoolRuns {
  import opened Sums
  import opened CappedSplit
  import opened SplitLaws
  import opened Settlement
  import opened SettlementLaws

  /** The tables plus two pieces of history: each member's rows at their last settlement or
      admission, and the requests that caps and clamps have wiped off the books so far. */
  datatype World = World(books: Books, rules: Rules, pools: map<int, seq<int>>, base: map<int, int>, destroyed: int)

  datatype Event =
    | Use(user: int, requests: nat)
    | Resettle(pool: int)
    | Create(pool: int, user: int)
    | Join(pool: int, user: int)
    | Leave(pool: int, user: int)
    | Dissolve(pool: int)
    | ChangeRules(rules: Rules)

  ghost predicate LimitsOk(rules: Rules) {
    forall u :: 0 <= At(rules.limits, u)
  }

  predicate Pooled(w: World, u: int) {
    exists p | p in w.pools :: u in w.pools[p]
  }

  ghost predicate Enabled(w: World, e: Event) {
    match e
    case Use(_, _) => true
    case Resettle(p) => p in w.pools
    case Create(p, u) => p !in w.pools && !Pooled(w, u)
    case Join(p, u) => p in w.pools && !Pooled(w, u)
    case Leave(p, u) => p in w.pools && u in w.pools[p]
    case Dissolve(p) => p in w.pools
    case ChangeRules(rules) => LimitsOk(rules)
  }

  ghost predicate PoolsOk(w: World) {
    && (forall p | p in w.pools :: NoDuplicates(w.pools[p]))
    && (forall p, q, u | p in w.pools && q in w.pools && u in w.pools[p] && u in w.pools[q] :: p == q)
  }

  // ----- what caps and clamps wipe off ---------------------------------------

  /** How far a used count lies above the user's own limit. */
  function Excess(rules: Rules, b: Books, u: int): int {
    if u in rules.limits then Max(0, Used(b, u) - rules.limits[u]) else 0
  }

  function ExcessMap(rules: Rules, b: Books, members: seq<int>): map<int, int> {
    map u | u in Elements(members) :: Excess(rules, b, u)
  }

  ghost function SettleLoss(b: Books, rules: Rules, pool: int, members: seq<int>): int
    requires NoDuplicates(members)
  {
    if Unlimited(rules, members) then Sum(ExcessMap(rules, b, members), Elements(members))
    else
      ShareListDistinct(b, rules, pool, members);
      var delta := Delta(b, pool, members);
      Max(0, delta - Absorbable(delta, ShareList(b, rules, pool, members)))
  }

  // ----- one event -------------------------------------------------------------

  ghost function Settled(w: World, p: int, dissolving: bool): World
    requires p in w.pools && NoDuplicates(w.pools[p])
  {
    var members := w.pools[p];
    w.(books := Settle(w.books, w.rules, p, members, dissolving),
       base := w.base + map u | u in Elements(members) :: At(w.books.rows, u),
       destroyed := w.destroyed + SettleLoss(w.books, w.rules, p, members))
  }

  /** The membership row is inserted, then the joiner is admitted. */
  ghost function Admitted(w: World, p: int, u: int): World {
    w.(books := Admit(w.books, w.rules, p, u),
       pools := w.pools[p := (if p in w.pools then w.pools[p] else []) + [u]],
       base := w.base[u := At(w.books.rows, u)],
       destroyed := w.destroyed + Excess(w.rules, w.books, u))
  }

  function Without(s: seq<int>, u: int): seq<int> {
    if s == [] then [] else if s[0] == u then Without(s[1..], u) else [s[0]] + Without(s[1..], u)
  }

  /** The ledger row goes, then the membership; a pool that loses its last member goes too. */
  ghost function Removed(w: World, p: int, u: int): World
    requires p in w.pools
  {
    var rest := Without(w.pools[p], u);
    w.(books := Clear(w.books, p, u), pools := if rest == [] then w.pools - {p} else w.pools[p := rest])
  }

  /** Ledger rows go with the pool. */
  ghost function Dissolved(w: World, p: int): World {
    w.(books := w.books.(ledger := map k | k in w.books.ledger && k.0 != p :: w.books.ledger[k]),
      pools := w.pools - {p})
  }

  ghost function Step(w: World, e: Event): World
    requires PoolsOk(w) && Enabled(w, e)
  {
    match e
    case Use(u, n) => w.(books := w.books.(rows := w.books.rows[u := At(w.books.rows, u) + n]))
    case Resettle(p) => Settled(w, p, false)
    case Create(p, u) => Admitted(w, p, u)
    case Join(p, u) => Admitted(Settled(w, p, false), p, u)
    case Leave(p, u) => Removed(Settled(w, p, false), p, u)
    case Dissolve(p) => Dissolved(Settled(w, p, true), p)
    case ChangeRules(rules) => w.(rules := rules)
  }

  // ----- the invariant ---------------------------------------------------------

  ghost predicate LedgerOk(w: World) {
    forall p, u | (p, u) in w.books.ledger :: p in w.pools && u in w.pools[p]
  }

  /** A member's charge is their rows at the last settlement or admission, plus their carry. */
  ghost predicate Tied(w: World, p: int, u: int) {
    && At(w.base, u) + At(w.books.carries, u) == Charged(w.books, p, u)
    && 0 <= Charged(w.books, p, u)
    && At(w.base, u) <= At(w.books.rows, u)
  }

  ghost predicate UsedOk(w: World) {
    forall u :: 0 <= At(w.books.rows, u) && 0 <= Used(w.books, u)
  }

  ghost function CarryTotal(b: Books): int { Sum(b.carries, b.carries.Keys) }

  ghost predicate Inv(w: World) {
    && LimitsOk(w.rules) && PoolsOk(w) && LedgerOk(w) && UsedOk(w)
    && (forall p, u | p in w.pools && u in w.pools[p] :: Tied(w, p, u))
    && CarryTotal(w.books) + w.destroyed == 0 && w.destroyed >= 0
  }

  function Start(rules: Rules): World {
    World(Books(map[], map[], map[]), rules, map[], map[], 0)
  }

  // ----- settling keeps it -------------------------------------------------------

  function NewMap(w: World, members: seq<int>): map<int, int> {
    map u | u in Elements(members) :: At(w.books.rows, u) - At(w.base, u)
  }

  /** Settlement's delta is exactly the requests made since each member's own last settlement or admission. */
  lemma DeltaIsNewRequests(w: World, p: int)
    requires Inv(w) && p in w.pools
    ensures Delta(w.books, p, w.pools[p]) == Sum(NewMap(w, w.pools[p]), Elements(w.pools[p]))
    ensures Delta(w.books, p, w.pools[p]) >= 0
    ensures Delta(w.books, p, w.pools[p]) == 0 ==> InStep(w.books, p, w.pools[p])
  {
    hide Sum;
    var members := w.pools[p];
    var newly, used, charged := NewMap(w, members), UsedMap(w.books, members), ChargedMap(w.books, p, members);
    forall u | u in Elements(members) ensures At(used, u) == At(charged, u) + At(newly, u) && At(newly, u) >= 0 {
      assert Tied(w, p, u);
    }
    SumPlus(used, charged, newly, Elements(members));
    SumNonNegative(newly, Elements(members));
    if Delta(w.books, p, members) == 0 {
      SumZero(newly, Elements(members));
      forall u | u in members ensures Used(w.books, u) == Charged(w.books, p, u) {
        assert u in Elements(members);
        assert At(newly, u) == 0;
      }
    }
  }

  /** Even through the skip, every member ends up charged what they have used. */
  lemma SettledInStep(w: World, p: int, dissolving: bool)
    requires Inv(w) && p in w.pools
    ensures InStep(Settled(w, p, dissolving).books, p, w.pools[p])
  {
    DeltaIsNewRequests(w, p);
    SettleBringsInStep(w.books, w.rules, p, w.pools[p], dissolving);
  }

  lemma SettledChargeNotNegative(w: World, p: int, dissolving: bool, u: int)
    requires Inv(w) && p in w.pools && u in w.pools[p]
    ensures 0 <= Charged(Settled(w, p, dissolving).books, p, u)
  {
    hide Sum, Shares, Write;
    var members := w.pools[p];
    DeltaIsNewRequests(w, p);
    SettledUser(w.books, w.rules, p, members, dissolving, u);
    assert Tied(w, p, u);
    if !Unlimited(w.rules, members) {
      LimitedCharge(w.books, w.rules, p, members, dissolving, u);
    } else {
      assert 0 <= At(w.rules.limits, u);
    }
  }

  /** Changing the carries of some users changes the total by their change. */
  lemma CarryChange(c: map<int, int>, d: map<int, int>, s: set<int>)
    requires forall u | u !in s :: At(c, u) == At(d, u)
    ensures Sum(d, d.Keys) - Sum(c, c.Keys) == Sum(d, s) - Sum(c, s)
  {
    hide Sum;
    var all := c.Keys + d.Keys + s;
    SumSupport(c, all, c.Keys);
    SumSupport(d, all, d.Keys);
    SumSplit(c, all, s);
    SumSplit(d, all, s);
    forall u | u in all - s ensures At(c, u) == At(d, u) {
      assert u !in s;
    }
    SumSame(c, d, all - s);
  }

  lemma UsedTotal(b: Books, members: seq<int>)
    ensures Sum(UsedMap(b, members), Elements(members))
      == Sum(b.rows, Elements(members)) + Sum(b.carries, Elements(members))
  {
    hide Sum;
    SumPlus(UsedMap(b, members), b.rows, b.carries, Elements(members));
  }

  /** A settlement destroys exactly what its caps and clamps wipe off. */
  lemma SettlementLoss(w: World, p: int, dissolving: bool)
    requires Inv(w) && p in w.pools
    ensures Lost(w.books, w.rules, p, w.pools[p], dissolving) == SettleLoss(w.books, w.rules, p, w.pools[p])
  {
    hide Sum, Shares, Write, Absorbable, Settled;
    var members := w.pools[p];
    var b, b' := w.books, Settle(w.books, w.rules, p, members, dissolving);
    DeltaIsNewRequests(w, p);
    if Unlimited(w.rules, members) {
      var excess := ExcessMap(w.rules, b, members);
      forall u | u in Elements(members)
        ensures At(UsedMap(b, members), u) == At(UsedMap(b', members), u) + At(excess, u)
      {
        SettledUser(b, w.rules, p, members, dissolving, u);
        assert 0 <= At(w.rules.limits, u) && Tied(w, p, u) && 0 <= Used(b, u);
      }
      SumPlus(UsedMap(b, members), UsedMap(b', members), excess, Elements(members));
    } else if Delta(b, p, members) > 0 {
      LimitedLoss(b, w.rules, p, members);
      LimitedSame(b, w.rules, p, members, dissolving);
    } else {
      ChargedEqualsUsed(b, w.rules, p, members, dissolving);
      ZeroDeltaLoss(w, p, dissolving);
    }
  }

  lemma LimitedSame(b: Books, rules: Rules, pool: int, members: seq<int>, dissolving: bool)
    requires NoDuplicates(members) && Delta(b, pool, members) != 0
    ensures Settle(b, rules, pool, members, dissolving) == Settle(b, rules, pool, members, false)
  {
    hide Sum, Shares, Write;
  }

  lemma ZeroDeltaLoss(w: World, p: int, dissolving: bool)
    requires Inv(w) && p in w.pools && Delta(w.books, p, w.pools[p]) == 0 && !Unlimited(w.rules, w.pools[p])
    ensures Lost(w.books, w.rules, p, w.pools[p], dissolving) == 0
    ensures SettleLoss(w.books, w.rules, p, w.pools[p]) == 0
  {
    hide Sum, Shares, Write, Split;
    var members, b := w.pools[p], w.books;
    var b' := Settle(b, w.rules, p, members, dissolving);
    var list := ShareList(b, w.rules, p, members);
    ShareListIds(b, w.rules, p, members);
    DeltaIsNewRequests(w, p);
    forall u | u in Elements(members) ensures At(UsedMap(b', members), u) == At(UsedMap(b, members), u) {
      SettledUser(b, w.rules, p, members, dissolving, u);
      ZeroShares(list, u);
    }
    SumSame(UsedMap(b', members), UsedMap(b, members), Elements(members));
    TermsAreValid(list, false);
    SumsAreNatural(TermsOf(list, false), Positive(TermsOf(list, false)));
  }

  lemma LossNotNegative(w: World, p: int)
    requires p in w.pools && NoDuplicates(w.pools[p])
    ensures SettleLoss(w.books, w.rules, p, w.pools[p]) >= 0
  {
    hide Sum, Absorbable;
    var excess := ExcessMap(w.rules, w.books, w.pools[p]);
    forall u | u in Elements(w.pools[p]) ensures At(excess, u) >= 0 {
    }
    SumNonNegative(excess, Elements(w.pools[p]));
  }

  lemma SettledCarries(w: World, p: int, dissolving: bool)
    requires Inv(w) && p in w.pools
    ensures CarryTotal(Settled(w, p, dissolving).books) + Settled(w, p, dissolving).destroyed == 0
  {
    hide Sum, Shares, Write, Absorbable, SettleLoss, Recorded;
    var members, b := w.pools[p], w.books;
    var b' := Settle(b, w.rules, p, members, dissolving);
    SettlementLoss(w, p, dissolving);
    forall u | u !in Elements(members) ensures At(b.carries, u) == At(b'.carries, u) {
      SettleLeavesOthersAlone(b, w.rules, p, members, dissolving, u, p);
    }
    CarryChange(b.carries, b'.carries, Elements(members));
    UsedTotal(b, members);
    UsedTotal(b', members);
    SettledUser(b, w.rules, p, members, dissolving, 0);
  }

  lemma SettledKeepsInv(w: World, p: int, dissolving: bool)
    requires Inv(w) && p in w.pools
    ensures Inv(Settled(w, p, dissolving))
  {
    hide Sum, Shares, Write, Absorbable, SettleLoss, Recorded;
    var members, b := w.pools[p], w.books;
    var w' := Settled(w, p, dissolving);
    LossNotNegative(w, p);
    SettledCarries(w, p, dissolving);
    SettledInStep(w, p, dissolving);
    forall q, u ensures (q, u) in w'.books.ledger ==> q in w.pools && u in w.pools[q] {
      SettledLedger(w, p, dissolving, q, u);
    }
    forall u ensures 0 <= At(w'.books.rows, u) && 0 <= Used(w'.books, u) {
      SettledUser(b, w.rules, p, members, dissolving, u);
      if u in members {
        SettledChargeNotNegative(w, p, dissolving, u);
      } else {
        SettleLeavesOthersAlone(b, w.rules, p, members, dissolving, u, p);
      }
    }
    forall q, u | q in w'.pools && u in w'.pools[q] ensures Tied(w', q, u) {
      assert Tied(w, q, u);
      SettledUser(b, w.rules, p, members, dissolving, u);
      if u in members {
        SettledChargeNotNegative(w, p, dissolving, u);
      } else {
        SettleLeavesOthersAlone(b, w.rules, p, members, dissolving, u, q);
      }
    }
  }

  lemma SettledLedger(w: World, p: int, dissolving: bool, q: int, u: int)
    requires Inv(w) && p in w.pools
    ensures (q, u) in Settled(w, p, dissolving).books.ledger ==> q in w.pools && u in w.pools[q]
  {
    hide Sum, Shares, SettleLoss, Write;
    var rec := Recorded(w.books, w.rules, p, w.pools[p], dissolving);
    WriteAt(w.books, p, rec, u);
    if q != p {
      WriteElsewhere(w.books, p, rec, q, u);
    }
    SettledUser(w.books, w.rules, p, w.pools[p], dissolving, u);
  }

  // ----- joining, leaving and dissolving keep it --------------------------------

  lemma AdmittedKeepsInv(w: World, p: int, u: int)
    requires Inv(w) && !Pooled(w, u)
    ensures Inv(Admitted(w, p, u))
  {
    hide Sum, Write, Admit;
    var b, b', w' := w.books, Admit(w.books, w.rules, p, u), Admitted(w, p, u);
    var members := if p in w.pools then w.pools[p] else [];
    assert (p, u) !in b.ledger;
    assert 0 <= At(w.rules.limits, u);
    AdmissionCharge(b, w.rules, p, u, u);
    forall v | v !in {u} ensures At(b.carries, v) == At(b'.carries, v) {
      AdmissionCharge(b, w.rules, p, u, v);
    }
    CarryChange(b.carries, b'.carries, {u});
    SumPick(b.carries, {u}, u);
    SumPick(b'.carries, {u}, u);
    assert {u} - {u} == {};
    SumNone(b.carries);
    SumNone(b'.carries);
    forall q, v | (q, v) in w'.books.ledger ensures q in w'.pools && v in w'.pools[q] {
      AdmittedLedger(w, p, u, q, v);
    }
    forall v ensures 0 <= At(w'.books.rows, v) && 0 <= Used(w'.books, v) {
      AdmissionCharge(b, w.rules, p, u, v);
    }
    assert u !in members;
    forall q, v | q in w'.pools && v in w'.pools[q] ensures Tied(w', q, v) {
      AdmissionCharge(b, w.rules, p, u, v);
      if q != p {
        AdmissionElsewhere(b, w.rules, p, u, q, v);
      }
      if v != u {
        assert q in w.pools && v in w.pools[q];
        assert Tied(w, q, v);
      }
    }
  }

  lemma AdmittedLedger(w: World, p: int, u: int, q: int, v: int)
    requires Inv(w) && !Pooled(w, u) && (q, v) in Admitted(w, p, u).books.ledger
    ensures var w' := Admitted(w, p, u); q in w'.pools && v in w'.pools[q]
  {
    hide Sum, Write, Admit;
    AdmissionCharge(w.books, w.rules, p, u, v);
    if q != p {
      AdmissionElsewhere(w.books, w.rules, p, u, q, v);
    }
    if !(q == p && v == u) {
      assert (q, v) in w.books.ledger;
    }
  }

  lemma {:induction false} WithoutIs(s: seq<int>, u: int)
    requires NoDuplicates(s)
    ensures NoDuplicates(Without(s, u))
    ensures forall v :: v in Without(s, u) <==> v in s && v != u
  {
    if s != [] {
      WithoutIs(s[1..], u);
      assert s[0] !in s[1..];
      assert s[0] !in Without(s[1..], u);
      assert forall v :: v in s <==> v == s[0] || v in s[1..];
    }
  }

  lemma RemovedKeepsInv(w: World, p: int, u: int)
    requires Inv(w) && p in w.pools && u in w.pools[p]
    ensures Inv(Removed(w, p, u))
  {
    hide Sum;
    var w' := Removed(w, p, u);
    var rest := Without(w.pools[p], u);
    WithoutIs(w.pools[p], u);
    forall q, v | (q, v) in w'.books.ledger ensures q in w'.pools && v in w'.pools[q] {
      assert (q, v) in w.books.ledger;
      assert q == p ==> v in rest;
    }
    forall q, v | q in w'.pools && v in w'.pools[q] ensures Tied(w', q, v) {
      assert Tied(w, q, v);
    }
    forall v ensures 0 <= At(w'.books.rows, v) && 0 <= Used(w'.books, v) {
      assert 0 <= At(w.books.rows, v) && 0 <= Used(w.books, v);
    }
  }

  lemma DissolvedKeepsInv(w: World, p: int)
    requires Inv(w) && p in w.pools
    ensures Inv(Dissolved(w, p))
  {
    hide Sum;
    var w' := Dissolved(w, p);
    forall q, v | q in w'.pools && v in w'.pools[q] ensures Tied(w', q, v) {
      assert Tied(w, q, v);
    }
    forall v ensures 0 <= At(w'.books.rows, v) && 0 <= Used(w'.books, v) {
      assert 0 <= At(w.books.rows, v) && 0 <= Used(w.books, v);
    }
  }

  lemma UseKeepsInv(w: World, u: int, n: nat)
    requires Inv(w)
    ensures Inv(Step(w, Use(u, n)))
  {
    hide Sum;
    var w' := Step(w, Use(u, n));
    forall v ensures 0 <= At(w'.books.rows, v) && 0 <= Used(w'.books, v) {
      assert 0 <= At(w.books.rows, v) && 0 <= Used(w.books, v);
    }
    forall q, v | q in w'.pools && v in w'.pools[q] ensures Tied(w', q, v) {
      assert Tied(w, q, v);
    }
  }

  /** A pool that has just been settled is still there for the change that follows. */
  lemma StepKeepsInv(w: World, e: Event)
    requires Inv(w) && Enabled(w, e)
    ensures Inv(Step(w, e))
  {
    hide Sum, Settled, Admitted, Removed, Dissolved;
    match e {
      case Use(u, n) => UseKeepsInv(w, u, n);
      case Resettle(p) => SettledKeepsInv(w, p, false);
      case Create(p, u) => AdmittedKeepsInv(w, p, u);
      case Join(p, u) =>
        SettledKeepsInv(w, p, false);
        SettledPools(w, p, false);
        AdmittedKeepsInv(Settled(w, p, false), p, u);
      case Leave(p, u) =>
        SettledKeepsInv(w, p, false);
        SettledPools(w, p, false);
        RemovedKeepsInv(Settled(w, p, false), p, u);
      case Dissolve(p) =>
        SettledKeepsInv(w, p, true);
        SettledPools(w, p, true);
        DissolvedKeepsInv(Settled(w, p, true), p);
      case ChangeRules(rules) => RulesKeepInv(w, rules);
    }
  }

  lemma SettledPools(w: World, p: int, dissolving: bool)
    requires p in w.pools && NoDuplicates(w.pools[p])
    ensures Settled(w, p, dissolving).pools == w.pools && Settled(w, p, dissolving).rules == w.rules
  {
  }

  lemma RulesKeepInv(w: World, rules: Rules)
    requires Inv(w) && LimitsOk(rules)
    ensures Inv(w.(rules := rules))
  {
    hide Sum;
    var w' := w.(rules := rules);
    forall p, u | p in w'.pools && u in w'.pools[p] ensures Tied(w', p, u) {
      assert Tied(w, p, u);
    }
  }

  // ----- what each event comes to --------------------------------------------------------

  /** Every change of composition closes the interval first: who is in the pool before and after it ends up charged
      exactly what they have used; and the pool then has the members it had and the joiner, or less the leaver. */
  lemma CompositionClosesInterval(w: World, e: Event)
    requires Inv(w) && Enabled(w, e) && (e.Resettle? || e.Join? || e.Leave? || e.Create?)
    ensures var w', p := Step(w, e), e.pool;
      var before := if p in w.pools then Elements(w.pools[p]) else {};
      var after := if p in w'.pools then Elements(w'.pools[p]) else {};
      && after == (match e case Resettle(_) => before case Leave(_, u) => before - {u}
                           case Join(_, u) => before + {u} case Create(_, u) => {u} case _ => before)
      && (p in w'.pools <==> !e.Leave? || after != {})
      && (forall v | v in before * after :: Used(w'.books, v) == Charged(w'.books, p, v))
      && (e.Leave? ==> (p, e.user) !in w'.books.ledger)
      && w'.books.rows == w.books.rows && w'.rules == w.rules
      && (forall q | q != p :: (q in w'.pools <==> q in w.pools) && (q in w.pools ==> w'.pools[q] == w.pools[q]))
  {
    hide Sum, Shares, Settle, Tied, UsedOk, LedgerOk, CarryTotal, SettleLoss;
    var p, w' := e.pool, Step(w, e);
    if p in w.pools {
      assert NoDuplicates(w.pools[p]);
      SettledInStep(w, p, false);
      forall v | v in w.pools[p]
        ensures Used(Settled(w, p, false).books, v) == Charged(Settled(w, p, false).books, p, v)
      {
      }
      SettledRows(w, p, false);
    }
    match e {
      case Leave(_, u) => WithoutIs(w.pools[p], u); LeftNonEmpty(w.pools[p], u);
      case Join(_, u) => JoinedStep(Settled(w, p, false), p, u);
      case Create(_, u) => JoinedStep(w, p, u); assert Elements([] + [u]) == {u};
      case _ =>
    }
  }

  /** Requests are added to their user's rows and to nothing else; rules change from then on. */
  lemma UseAddsRows(w: World, u: int, n: nat, rules: Rules, v: int)
    requires Inv(w) && LimitsOk(rules)
    ensures var w' := Step(w, Use(u, n));
      && At(w'.books.rows, v) == At(w.books.rows, v) + (if v == u then n else 0)
      && w'.books.ledger == w.books.ledger && w'.books.carries == w.books.carries
      && w'.pools == w.pools && w'.rules == w.rules
    ensures Step(w, ChangeRules(rules)) == w.(rules := rules)
  {
  }

  lemma SettledRows(w: World, p: int, dissolving: bool)
    requires p in w.pools && NoDuplicates(w.pools[p])
    ensures Settled(w, p, dissolving).books.rows == w.books.rows
  {
    hide Sum, Recorded;
  }

  lemma LeftNonEmpty(s: seq<int>, u: int)
    ensures Without(s, u) == [] <==> Elements(Without(s, u)) == {}
  {
    assert Without(s, u) != [] ==> Without(s, u)[0] in Elements(Without(s, u));
  }

  /** Admitting somebody moves nobody else's use or charge. */
  lemma JoinedStep(w: World, p: int, u: int)
    ensures Admitted(w, p, u).books.rows == w.books.rows
    ensures forall v | v != u ::
      && Used(Admitted(w, p, u).books, v) == Used(w.books, v)
      && Charged(Admitted(w, p, u).books, p, v) == Charged(w.books, p, v)
  {
    hide Write;
    var charged := Clamped(w.rules.limits, u, Used(w.books, u));
    WriteAt(w.books, p, map[u := charged], u);
    forall v | v != u
      ensures Used(Admitted(w, p, u).books, v) == Used(w.books, v)
      ensures Charged(Admitted(w, p, u).books, p, v) == Charged(w.books, p, v)
    {
      WriteAt(w.books, p, map[u := charged], v);
    }
  }

  /** Dissolving settles likewise, then the pool and all its ledger rows are gone and everybody else's stay. */
  lemma DissolvingClosesPool(w: World, p: int, q: int, v: int)
    requires Inv(w) && p in w.pools
    ensures var w' := Step(w, Dissolve(p));
      && p !in w'.pools && (p, v) !in w'.books.ledger && w'.books.rows == w.books.rows
      && (v in w.pools[p] ==> Used(w'.books, v) == Charged(Settle(w.books, w.rules, p, w.pools[p], true), p, v))
      && (q != p ==> Charged(w'.books, q, v) == Charged(w.books, q, v) && (q in w'.pools <==> q in w.pools))
  {
    hide Sum, Shares, Settle;
    SettledInStep(w, p, true);
    SettledRows(w, p, true);
    SettleLeavesOthersAlone(w.books, w.rules, p, w.pools[p], true, v, q);
  }

  /** Whoever is in no pool can open one or join any; a member can leave at any time, and then do the same; any pool
      can be settled or dissolved, and anybody send requests. */
  lemma AnyoneMayMove(w: World, p: int, q: int, u: int, n: nat)
    requires Inv(w)
    ensures Enabled(w, Use(u, n))
    ensures p in w.pools ==> Enabled(w, Resettle(p)) && Enabled(w, Dissolve(p))
    ensures (forall r | r in w.pools :: u !in w.pools[r]) ==>
      if p in w.pools then Enabled(w, Join(p, u)) else Enabled(w, Create(p, u))
    ensures p in w.pools && u in w.pools[p] && p != q ==>
      && Enabled(w, Leave(p, u))
      && var w' := Step(w, Leave(p, u));
         if q in w.pools then Enabled(w', Join(q, u)) else Enabled(w', Create(q, u))
  {
    hide Settle, LedgerOk, UsedOk, Tied, CarryTotal, SettleLoss;
    if p in w.pools {
      WithoutIs(w.pools[p], u);
    }
  }

  // ----- runs -----------------------------------------------------------------------

  /** The state after a sequence of events; an event that is refused changes nothing. */
  ghost function Run(w: World, events: seq<Event>): World
    requires Inv(w)
    decreases |events|
  {
    if events == [] then w
    else if Enabled(w, events[0]) then
      StepKeepsInv(w, events[0]);
      Run(Step(w, events[0]), events[1..])
    else Run(w, events[1..])
  }

  /** Whatever happens during the day, each member's `base + carry` stays their charge. */
  lemma {:induction false} RunKeepsInv(w: World, events: seq<Event>)
    requires Inv(w)
    ensures Inv(Run(w, events))
    decreases |events|
  {
    hide Sum, Step, Enabled;
    if events != [] {
      if Enabled(w, events[0]) {
        StepKeepsInv(w, events[0]);
        RunKeepsInv(Step(w, events[0]), events[1..]);
      } else {
        RunKeepsInv(w, events[1..]);
      }
    }
  }

  lemma StartInv(rules: Rules)
    requires LimitsOk(rules)
    ensures Inv(Start(rules))
  {
    SumNone<int>(map[]);
    var none: map<int, int> := map[];
    assert none.Keys == {};
  }
}
