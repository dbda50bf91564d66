/** Settling one scope of one local day: the meaning of app/auth/pools.py settle_pool,
    admit_member and clear_member_settlement on the tables they read and write. */
module Settlement {
  import opened Sums
  import opened CappedSplit

  /** The usage rows, ledger and carries of one scope today. A missing row reads as 0. */
  datatype Books = Books(rows: map<int, int>, ledger: map<(int, int), int>, carries: map<int, int>)

  /** Daily limits of this scope (absent: unlimited) and who is deactivated. */
  datatype Rules = Rules(limits: map<int, int>, inactive: set<int>)

  function Charged(b: Books, pool: int, u: int): int { At(b.ledger, (pool, u)) }

  /** What the rate limiter reads as the user's consumption before clamping at 0. */
  function Used(b: Books, u: int): int { At(b.rows, u) + At(b.carries, u) }

  function ChargedMap(b: Books, pool: int, members: seq<int>): map<int, int> {
    map u | u in Elements(members) :: Charged(b, pool, u)
  }

  function UsedMap(b: Books, members: seq<int>): map<int, int> {
    map u | u in Elements(members) :: Used(b, u)
  }

  /** Requests since the last change of composition, as settlement computes them. */
  ghost function Delta(b: Books, pool: int, members: seq<int>): int {
    Sum(UsedMap(b, members), Elements(members)) - Sum(ChargedMap(b, pool, members), Elements(members))
  }

  /** A deactivated member without a limit does not make the scope unlimited. */
  predicate Unlimited(rules: Rules, members: seq<int>) {
    exists u | u in members :: u !in rules.inactive && u !in rules.limits
  }

  /** The weight a member takes part with: a deactivated one is pinned at what they were charged. */
  function EffectiveLimit(b: Books, rules: Rules, pool: int, u: int): int {
    if u in rules.inactive then Charged(b, pool, u) else At(rules.limits, u)
  }

  function Position(b: Books, rules: Rules, pool: int, u: int): MemberShare {
    MemberShare(u, EffectiveLimit(b, rules, pool, u), Charged(b, pool, u), At(b.rows, u))
  }

  function ShareList(b: Books, rules: Rules, pool: int, members: seq<int>): seq<MemberShare> {
    seq(|members|, i requires 0 <= i < |members| => Position(b, rules, pool, members[i]))
  }

  lemma ShareListDistinct(b: Books, rules: Rules, pool: int, members: seq<int>)
    requires NoDuplicates(members)
    ensures Distinct(ShareList(b, rules, pool, members))
  {
  }

  /** `min(own limit, max(0, used))`, with no limit meaning no clamp. */
  function Clamped(limits: map<int, int>, u: int, used: int): int {
    if u in limits then Min(limits[u], Max(0, used)) else Max(0, used)
  }

  /** The charges one settlement of the scope records, by user; users not listed are skipped. */
  ghost function Recorded(b: Books, rules: Rules, pool: int, members: seq<int>, dissolving: bool): map<int, int>
    requires NoDuplicates(members)
  {
    if Unlimited(rules, members) then
      map u | u in Elements(members) && !(At(b.rows, u) == 0 && (pool, u) !in b.ledger && At(b.carries, u) == 0) ::
        Clamped(rules.limits, u, Used(b, u))
    else
      var delta := Delta(b, pool, members);
      if delta == 0 && !dissolving then map[]
      else
        ShareListDistinct(b, rules, pool, members);
        var shares := Shares(delta, ShareList(b, rules, pool, members));
        map u | u in Elements(members) :: Charged(b, pool, u) + At(shares, u)
  }

  function LedgerRows(pool: int, charges: map<int, int>): map<(int, int), int> {
    map u | u in charges :: (pool, u) := charges[u]
  }

  /** A carry of 0 is written only over a row that is there: without one it is 0 anyhow. */
  function CarryRows(b: Books, charges: map<int, int>): map<int, int> {
    map u | u in charges && (charges[u] != At(b.rows, u) || u in b.carries) :: charges[u] - At(b.rows, u)
  }

  /** Both upserts of one settlement. */
  function Write(b: Books, pool: int, charges: map<int, int>): Books {
    Books(b.rows, b.ledger + LedgerRows(pool, charges), b.carries + CarryRows(b, charges))
  }

  ghost function Settle(b: Books, rules: Rules, pool: int, members: seq<int>, dissolving: bool): Books
    requires NoDuplicates(members)
  {
    Write(b, pool, Recorded(b, rules, pool, members, dissolving))
  }

  /** The opening rows of a joining member. */
  function Admit(b: Books, rules: Rules, pool: int, u: int): Books {
    var charged := Clamped(rules.limits, u, Used(b, u));
    if charged == 0 && At(b.rows, u) == 0 && At(b.carries, u) == 0 then b
    else Write(b, pool, map[u := charged])
  }

  /** Dropping a departing member's ledger row; the carry stays. */
  function Clear(b: Books, pool: int, u: int): Books {
    b.(ledger := b.ledger - {(pool, u)})
  }

  // ----- what a write does, user by user ------------------------------------

  lemma LedgerRowsAt(pool: int, charges: map<int, int>, u: int)
    ensures (pool, u) in LedgerRows(pool, charges) <==> u in charges
    ensures u in charges ==> LedgerRows(pool, charges)[(pool, u)] == charges[u]
  {
  }

  lemma WriteAt(b: Books, pool: int, charges: map<int, int>, u: int)
    ensures var b' := Write(b, pool, charges);
      && Charged(b', pool, u) == (if u in charges then charges[u] else Charged(b, pool, u))
      && At(b'.carries, u) == (if u in charges then charges[u] - At(b.rows, u) else At(b.carries, u))
      && b'.rows == b.rows
      && ((pool, u) in b'.ledger <==> (pool, u) in b.ledger || u in charges)
  {
    hide LedgerRows;
    LedgerRowsAt(pool, charges, u);
  }

  lemma WriteElsewhere(b: Books, pool: int, charges: map<int, int>, other: int, u: int)
    requires other != pool
    ensures Charged(Write(b, pool, charges), other, u) == Charged(b, other, u)
    ensures (other, u) in Write(b, pool, charges).ledger <==> (other, u) in b.ledger
  {
  }
}
