/** A day over all scopes at once. Joining, leaving, settling and dissolving happen on every scope in one go, usage
    and rules on one; so each scope lives through a day of its own, with the same pools as all others. */
module PoolScopes {
  import opened PoolLaws
  import opened PoolRuns
  import opened PoolSettlement
  import opened Settlement

  datatype Change = Everywhere(event: Event) | Within(scope: Scope, event: Event)

  predicate IsComposition(e: Event) { !e.Use? && !e.ChangeRules? }

  predicate Proper(c: Change) { c.Everywhere? <==> IsComposition(c.event) }

  predicate Concerns(c: Change, scope: Scope) { c.Everywhere? || c.scope == scope }

  ghost predicate Inv(ws: map<Scope, World>) {
    && (forall a | a in ws :: PoolRuns.Inv(ws[a]))
    && (forall a, b | a in ws && b in ws :: ws[a].pools == ws[b].pools)
  }

  ghost predicate Possible(ws: map<Scope, World>, c: Change) {
    forall a | a in ws && Concerns(c, a) :: Enabled(ws[a], c.event)
  }

  ghost function Step(ws: map<Scope, World>, c: Change): map<Scope, World>
    requires Inv(ws) && Possible(ws, c)
  {
    map a | a in ws :: if Concerns(c, a) then PoolRuns.Step(ws[a], c.event) else ws[a]
  }

  /** What happens to the pools does not depend on the scope. */
  lemma SamePools(v: World, w: World, e: Event)
    requires PoolRuns.Inv(v) && PoolRuns.Inv(w) && v.pools == w.pools
    ensures IsComposition(e) ==> (Enabled(v, e) <==> Enabled(w, e))
    ensures Enabled(v, e) && Enabled(w, e) ==> PoolRuns.Step(v, e).pools == PoolRuns.Step(w, e).pools
    ensures Enabled(v, e) && !IsComposition(e) ==> PoolRuns.Step(v, e).pools == v.pools
  {
    hide Settle, Admit, SettleLoss, Excess, LedgerOk, UsedOk, Tied, CarryTotal;
  }

  lemma StepKeepsInv(ws: map<Scope, World>, c: Change)
    requires Inv(ws) && Possible(ws, c) && Proper(c)
    ensures Inv(Step(ws, c))
  {
    hide PoolRuns.Inv, Enabled, PoolRuns.Step;
    var ws' := Step(ws, c);
    forall a | a in ws' ensures PoolRuns.Inv(ws'[a]) {
      if Concerns(c, a) { PoolRuns.StepKeepsInv(ws[a], c.event); }
    }
    forall a, b | a in ws' && b in ws' ensures ws'[a].pools == ws'[b].pools {
      SamePools(ws[a], ws[b], c.event);
      SamePools(ws[b], ws[a], c.event);
    }
  }

  /** A change of composition happens on every scope, usage and rules on the one they are of, and nothing on others. */
  lemma ChangesReachTheirScopes(ws: map<Scope, World>, c: Change, scope: Scope)
    requires Inv(ws) && Possible(ws, c) && scope in ws
    ensures Step(ws, c).Keys == ws.Keys
    ensures c.Everywhere? || c.scope == scope ==>
      Enabled(ws[scope], c.event) && Step(ws, c)[scope] == PoolRuns.Step(ws[scope], c.event)
    ensures c.Within? && c.scope != scope ==> Step(ws, c)[scope] == ws[scope]
  {
    hide PoolRuns.Inv, Enabled, PoolRuns.Step;
  }

  /** An impossible change is refused. */
  ghost function Run(ws: map<Scope, World>, changes: seq<Change>): map<Scope, World>
    requires Inv(ws) && forall c | c in changes :: Proper(c)
    decreases |changes|
  {
    if changes == [] then ws
    else
      assert forall c | c in changes[1..] :: c in changes;
      if Possible(ws, changes[0]) then
        StepKeepsInv(ws, changes[0]);
        Run(Step(ws, changes[0]), changes[1..])
      else Run(ws, changes[1..])
  }

  /** The events of one scope. */
  function Local(changes: seq<Change>, scope: Scope): seq<Event> {
    if changes == [] then []
    else (if Concerns(changes[0], scope) then [changes[0].event] else []) + Local(changes[1..], scope)
  }

  lemma RunCons(w: World, e: Event, rest: seq<Event>)
    requires PoolRuns.Inv(w)
    ensures Enabled(w, e) ==>
      PoolRuns.Inv(PoolRuns.Step(w, e)) && PoolRuns.Run(w, [e] + rest) == PoolRuns.Run(PoolRuns.Step(w, e), rest)
    ensures !Enabled(w, e) ==> PoolRuns.Run(w, [e] + rest) == PoolRuns.Run(w, rest)
  {
    hide PoolRuns.Inv, Enabled, PoolRuns.Step;
    assert ([e] + rest)[1..] == rest;
    if Enabled(w, e) { PoolRuns.StepKeepsInv(w, e); }
  }

  /** A change is possible if and only if each scope it concerns could make it alone. */
  lemma PossibleIff(ws: map<Scope, World>, c: Change, scope: Scope)
    requires Inv(ws) && Proper(c) && scope in ws && Concerns(c, scope)
    ensures Possible(ws, c) <==> Enabled(ws[scope], c.event)
  {
    hide PoolRuns.Inv, Enabled, PoolRuns.Step;
    forall a | a in ws && Concerns(c, a) ensures Enabled(ws[a], c.event) <==> Enabled(ws[scope], c.event) {
      SamePools(ws[a], ws[scope], c.event);
    }
  }

  lemma {:induction false} EveryScopeRuns(ws: map<Scope, World>, changes: seq<Change>, scope: Scope)
    requires Inv(ws) && scope in ws && forall c | c in changes :: Proper(c)
    ensures Inv(Run(ws, changes)) && Run(ws, changes).Keys == ws.Keys
    ensures Run(ws, changes)[scope] == PoolRuns.Run(ws[scope], Local(changes, scope))
    decreases |changes|
  {
    hide PoolRuns.Inv, Enabled, PoolRuns.Step, Proper, Concerns, Possible;
    if changes != [] {
      var c, rest := changes[0], changes[1..];
      assert forall d | d in rest :: d in changes;
      if Concerns(c, scope) {
        PossibleIff(ws, c, scope);
        RunCons(ws[scope], c.event, Local(rest, scope));
      } else {
        assert [] + Local(rest, scope) == Local(rest, scope);
      }
      if Possible(ws, c) {
        StepKeepsInv(ws, c);
        EveryScopeRuns(Step(ws, c), rest, scope);
      } else {
        EveryScopeRuns(ws, rest, scope);
      }
    }
  }

  ghost function Start(rules: map<Scope, Rules>): map<Scope, World> {
    map a | a in rules :: PoolRuns.Start(rules[a])
  }

  ghost predicate AllLimitsOk(rules: map<Scope, Rules>) { forall a | a in rules :: LimitsOk(rules[a]) }

  lemma StartInv(rules: map<Scope, Rules>)
    requires AllLimitsOk(rules)
    ensures Inv(Start(rules))
  {
    hide PoolRuns.Inv, LimitsOk;
    forall a | a in rules ensures PoolRuns.Inv(PoolRuns.Start(rules[a])) {
      PoolRuns.StartInv(rules[a]);
    }
  }

  /** Whatever happens over all scopes in a day, the pools are the same everywhere, and each scope is where a day of
      its own events alone takes it: all that holds of one scope's days holds of every scope's. */
  lemma EveryScopeLivesADay(rules: map<Scope, Rules>, changes: seq<Change>, a: Scope, b: Scope)
    requires AllLimitsOk(rules) && a in rules && b in rules && forall c | c in changes :: Proper(c)
    ensures Inv(Start(rules))
    ensures var ws := Run(Start(rules), changes);
      && ws.Keys == rules.Keys && ws[a].pools == ws[b].pools
      && ws[a] == Day(rules[a], Local(changes, a))
  {
    hide PoolRuns.Inv, PoolRuns.Run, LimitsOk, Proper, Run;
    StartInv(rules);
    EveryScopeRuns(Start(rules), changes, a);
  }
}
