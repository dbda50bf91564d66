/** The model alias rewriter of app/model_alias.py: priority-ordered rules, and a request context that
    makes repeated mapping independent of how often and by which layer it was done. */
module ModelAlias {
  import opened Options
  import opened Sorting

  /** Exact rules compare names; the others scan, and are given by what they hit. */
  datatype Matcher = Exact(pattern: string) | Scan(hit: string -> bool)

  datatype Rule = Rule(id: int, priority: int, matcher: Matcher, target: string, apis: set<string>)

  const MAX_SCANNED := 256

  predicate Hits(r: Rule, name: string) {
    match r.matcher
    case Exact(p) => name == p
    case Scan(hit) => |name| <= MAX_SCANNED && hit(name)
  }

  /** No surface means the rule is asked about on every one. */
  predicate Applies(r: Rule, name: string, api: Option<string>) {
    (api.Some? ==> api.value in r.apis) && Hits(r, name)
  }

  predicate NotAfter(a: Rule, b: Rule) {
    a.priority < b.priority || (a.priority == b.priority && a.id <= b.id)
  }

  function FirstHit(rules: seq<Rule>, name: string, api: Option<string>): Option<Rule> {
    if rules == [] then None
    else if Applies(rules[0], name, api) then Some(rules[0])
    else FirstHit(rules[1..], name, api)
  }

  // ----- one list of rules ----------------------------------------------------------

  /** By priority and then id. */
  function InOrder(rules: seq<Rule>): seq<Rule> { Sorted(NotAfter, rules) }

  lemma {:induction false} FirstHitIs(rules: seq<Rule>, name: string, api: Option<string>)
    requires Ordered(NotAfter, rules)
    ensures var hit := FirstHit(rules, name, api);
      if hit.Some? then
        && hit.value in rules && Applies(hit.value, name, api)
        && forall r | r in rules && Applies(r, name, api) :: NotAfter(hit.value, r)
      else forall r | r in rules :: !Applies(r, name, api)
  {
    if rules != [] {
      assert rules == [rules[0]] + rules[1..];
      if Applies(rules[0], name, api) {
        forall r | r in rules ensures NotAfter(rules[0], r) {
          var i :| 0 <= i < |rules| && rules[i] == r;
          assert i == 0 || NotAfter(rules[0], rules[i]);
        }
      } else {
        FirstHitIs(rules[1..], name, api);
      }
    }
  }

  /** A rule is for the surface asked about, or none was asked about, and its pattern is the name or finds
      something in a name of at most 256 characters. */
  predicate Matches(r: Rule, name: string, api: Option<string>) {
    && (api == None || exists a | a in r.apis :: api == Some(a))
    && (r.matcher == Exact(name) || (r.matcher.Scan? && |name| <= 256 && r.matcher.hit(name)))
  }

  lemma MatchesApplies(r: Rule, name: string, api: Option<string>)
    ensures Matches(r, name, api) <==> Applies(r, name, api)
  {
  }

  /** The winner is a rule of the list that matches, and no rule that matches has a lower priority, or the same
      priority and a lower id; there is none exactly when no rule matches. */
  lemma WinnerHasPriority(rules: seq<Rule>, name: string, api: Option<string>)
    ensures var hit := FirstHit(InOrder(rules), name, api);
      if hit.Some? then
        && hit.value in rules && Matches(hit.value, name, api)
        && forall r | r in rules && Matches(r, name, api) ::
          hit.value.priority < r.priority || (hit.value.priority == r.priority && hit.value.id <= r.id)
      else forall r | r in rules :: !Matches(r, name, api)
  {
    hide Matches;
    forall r ensures Matches(r, name, api) <==> Applies(r, name, api) {
      MatchesApplies(r, name, api);
    }
    SortedOrdered(NotAfter, rules);
    SortedSame(NotAfter, rules);
    FirstHitIs(InOrder(rules), name, api);
    assert forall r :: r in rules <==> r in multiset(rules);
    assert forall r :: r in InOrder(rules) <==> r in multiset(InOrder(rules));
  }

  /** A name too long to scan is mapped by exact rules alone. */
  lemma LongNamesMeetExactRules(rules: seq<Rule>, name: string, api: Option<string>)
    requires |name| > MAX_SCANNED && FirstHit(InOrder(rules), name, api).Some?
    ensures FirstHit(InOrder(rules), name, api).value.matcher == Exact(name)
  {
    WinnerHasPriority(rules, name, api);
  }

  const CACHE_SIZE := 4096

  type Key = (string, Option<string>)

  /** An immutable list of rules with a least-recently-used cache of its matches. */
  class RuleSnapshot {
    const rules: seq<Rule>
    var cached: map<Key, Option<Rule>>
    var recent: seq<Key>

    ghost predicate Valid()
      reads this
    {
      && (forall k | k in cached :: cached[k] == FirstHit(rules, k.0, k.1) && |k.0| <= MAX_SCANNED)
      && (forall k :: k in recent <==> k in cached)
      && (forall i, j | 0 <= i < j < |recent| :: recent[i] != recent[j])
      && |recent| <= CACHE_SIZE
    }

    constructor (given: seq<Rule>)
      ensures Valid() && rules == InOrder(given)
    {
      rules := InOrder(given);
      cached, recent := map[], [];
    }

    method Scan(name: string, api: Option<string>) returns (hit: Option<Rule>)
      ensures hit == FirstHit(rules, name, api)
    {
      var i := 0;
      while i < |rules|
        invariant 0 <= i <= |rules|
        invariant FirstHit(rules[i..], name, api) == FirstHit(rules, name, api)
      {
        if Applies(rules[i], name, api) {
          return Some(rules[i]);
        }
        i := i + 1;
      }
      return None;
    }

    method Touch(k: Key)
      requires Valid() && k in cached
      modifies this`recent
      ensures Valid() && |recent| == old(|recent|)
    {
      var i := 0;
      while recent[i] != k
        invariant 0 <= i < |recent| && recent == old(recent)
        invariant k in recent[i..]
        decreases |recent| - i
      {
        i := i + 1;
      }
      recent := recent[..i] + recent[i + 1..] + [k];
      assert forall x :: x in recent <==> x in old(recent);
    }

    method Remember(k: Key, hit: Option<Rule>)
      requires Valid() && k !in cached && |recent| < CACHE_SIZE
      requires hit == FirstHit(rules, k.0, k.1) && |k.0| <= MAX_SCANNED
      modifies this
      ensures Valid() && cached == old(cached)[k := hit]
    {
      cached := cached[k := hit];
      recent := recent + [k];
    }

    method Evict()
      requires Valid() && |recent| > 0
      modifies this
      ensures Valid() && |recent| == old(|recent|) - 1
      ensures cached.Keys <= old(cached.Keys)
    {
      hide FirstHit;
      var oldest := recent[0];
      assert recent == [oldest] + recent[1..];
      cached := cached - {oldest};
      recent := recent[1..];
    }

    /** Whatever was asked before, the match is the first rule that applies; only names short enough
        to be scanned are ever remembered. */
    method Match(name: string, api: Option<string>) returns (hit: Option<Rule>)
      requires Valid()
      modifies this
      ensures Valid() && hit == FirstHit(rules, name, api)
      ensures |name| > MAX_SCANNED ==> cached == old(cached)
    {
      if |rules| == 0 {
        return None;
      }
      if |name| > MAX_SCANNED {
        hit := Scan(name, api);
        return;
      }
      var k := (name, api);
      if k in cached {
        hit := cached[k];
        Touch(k);
        return;
      }
      hit := Scan(name, api);
      if |recent| == CACHE_SIZE {
        Evict();
      }
      Remember(k, hit);
    }
  }

  // ----- the request context -------------------------------------------------------------

  /** Which list: the profile's regular one, or its fallback one. */
  datatype Scope = Scope(profile: int, fallback: bool)

  /** Every list, in order. */
  type Rules = map<Scope, seq<Rule>>

  function Resolve(book: Rules, api: Option<string>, scope: Scope, name: string): string {
    match FirstHit(if scope in book then book[scope] else [], name, api)
    case None => name
    case Some(r) => r.target
  }

  /** A name maps in a scope by the rules of that profile's list of that kind alone: to the target of the winner
      there, or to itself. */
  lemma MapsByItsOwnList(lists: map<Scope, seq<Rule>>, api: Option<string>, scope: Scope, name: string)
    ensures var book := map s | s in lists :: InOrder(lists[s]);
      var mapped := Resolve(book, api, scope, name);
      if scope in lists && exists r | r in lists[scope] :: Matches(r, name, api) then
        exists r | r in lists[scope] && Matches(r, name, api) ::
          && mapped == r.target
          && forall other | other in lists[scope] && Matches(other, name, api) ::
            r.priority < other.priority || (r.priority == other.priority && r.id <= other.id)
      else mapped == name
  {
    hide Matches, FirstHit, InOrder;
    if scope in lists {
      WinnerHasPriority(lists[scope], name, api);
    } else {
      NothingHits(name, api);
    }
  }

  lemma NothingHits(name: string, api: Option<string>)
    ensures FirstHit([], name, api) == None
  {
  }

  datatype Context = Context(
    original: Option<string>,
    resolved: Option<string>,
    input: Option<string>,
    scope: Option<Scope>,
    seen: set<string>)

  const FRESH := Context(None, None, None, None, {})

  predicate Produced(c: Context, name: string) {
    c.resolved.Some? && (c.resolved == Some(name) || name in c.seen || c.input == Some(name))
  }

  /** alias_source_name */
  function Source(c: Context, name: string): string {
    if Produced(c, name) && c.input.Some? then c.input.value else name
  }

  ghost predicate Inv(book: Rules, api: Option<string>, c: Context) {
    c.resolved.Some? ==>
    && c.input.Some? && c.scope.Some? && c.original == c.input
    && c.resolved.value == Resolve(book, api, c.scope.value, c.input.value)
    && c.resolved.value in c.seen
  }

  /** The context after mapping a name. */
  function After(book: Rules, api: Option<string>, c: Context, name: string, scope: Scope): Context {
    if Produced(c, name) && c.input.Some? then
      if c.scope == Some(scope) then c
      else
        var mapped := Resolve(book, api, scope, c.input.value);
        c.(resolved := Some(mapped), scope := Some(scope), seen := c.seen + {mapped})
    else
      var mapped := Resolve(book, api, scope, name);
      if mapped == name then c else Context(Some(name), Some(mapped), Some(name), Some(scope), {mapped})
  }

  class RequestContext {
    var original: Option<string>
    var resolved: Option<string>
    var input: Option<string>
    var scope: Option<Scope>
    var seen: set<string>

    function View(): Context
      reads this
    {
      Context(original, resolved, input, scope, seen)
    }

    constructor ()
      ensures View() == FRESH
    {
      original, resolved, input, scope, seen := None, None, None, None, {};
    }

    method SourceName(name: Option<string>) returns (r: Option<string>)
      requires resolved.Some? ==> input.Some?
      ensures r == match name case None => None case Some(n) => Some(Source(View(), n))
    {
      if name.Some? && Produced(View(), name.value) {
        return input;
      }
      return name;
    }

    /** apply_alias: whatever was mapped before, the answer is what the name's source maps to now. */
    method Apply(book: Rules, api: Option<string>, name: Option<string>, now: Scope) returns (r: Option<string>)
      requires Inv(book, api, View())
      modifies this
      ensures Inv(book, api, View())
      ensures name.None? ==> r == None && View() == old(View())
      ensures name.Some? ==> r == Some(Resolve(book, api, now, old(Source(View(), name.value))))
      ensures name.Some? ==> View() == After(book, api, old(View()), name.value, now)
    {
      if name.None? {
        return None;
      }
      if Produced(View(), name.value) {
        if scope == Some(now) {
          return resolved;
        }
        var again := Resolve(book, api, now, input.value);
        resolved := Some(again);
        scope := Some(now);
        seen := seen + {again};
        return resolved;
      }
      var mapped := Resolve(book, api, now, name.value);
      if mapped != name.value {
        original, input, resolved, scope, seen := name, name, Some(mapped), Some(now), {mapped};
      }
      return Some(mapped);
    }
  }

  // ----- whole requests ------------------------------------------------------------------

  datatype Call = Call(name: string, scope: Scope)

  function Answer(book: Rules, api: Option<string>, c: Context, call: Call): string {
    Resolve(book, api, call.scope, Source(c, call.name))
  }

  function AfterAll(book: Rules, api: Option<string>, c: Context, calls: seq<Call>): Context
    decreases |calls|
  {
    if calls == [] then c else AfterAll(book, api, After(book, api, c, calls[0].name, calls[0].scope), calls[1..])
  }

  function Answers(book: Rules, api: Option<string>, c: Context, calls: seq<Call>): seq<string>
    decreases |calls|
  {
    if calls == [] then []
    else
      var c' := After(book, api, c, calls[0].name, calls[0].scope);
      [Answer(book, api, c, calls[0])] + Answers(book, api, c', calls[1..])
  }

  /** Each call is given the client's name or an earlier answer. */
  predicate FedBack(book: Rules, api: Option<string>, c: Context, calls: seq<Call>, known: set<string>)
    decreases |calls|
  {
    calls == [] ||
    (calls[0].name in known
     && FedBack(book, api, After(book, api, c, calls[0].name, calls[0].scope), calls[1..],
          known + {Answer(book, api, c, calls[0])}))
  }

  lemma AfterKeepsInv(book: Rules, api: Option<string>, c: Context, name: string, scope: Scope)
    requires Inv(book, api, c)
    ensures Inv(book, api, After(book, api, c, name, scope))
  {
  }

  /** Until something is mapped every known name is the client's; from then on the client's name is the
      input, and every known name stands for it. */
  ghost predicate Tracks(c: Context, client: string, known: set<string>) {
    if c.resolved.None? then known <= {client} else c.input == Some(client) && known <= c.seen + {client}
  }

  lemma CallTracks(book: Rules, api: Option<string>, c: Context, call: Call, client: string, known: set<string>)
    requires Inv(book, api, c) && Tracks(c, client, known) && call.name in known
    ensures Answer(book, api, c, call) == Resolve(book, api, call.scope, client)
    ensures Tracks(After(book, api, c, call.name, call.scope), client, known + {Answer(book, api, c, call)})
  {
    hide Resolve;
    assert Source(c, call.name) == client;
  }

  lemma {:induction false} AllTrack(book: Rules, api: Option<string>, c: Context, calls: seq<Call>, client: string,
                                    known: set<string>)
    requires Inv(book, api, c) && Tracks(c, client, known) && FedBack(book, api, c, calls, known)
    ensures |Answers(book, api, c, calls)| == |calls|
    ensures forall i | 0 <= i < |calls| :: Answers(book, api, c, calls)[i] == Resolve(book, api, calls[i].scope, client)
    ensures Inv(book, api, AfterAll(book, api, c, calls))
    ensures Tracks(AfterAll(book, api, c, calls), client, known + set a | a in Answers(book, api, c, calls))
    decreases |calls|
  {
    hide Resolve, Inv, Tracks, After;
    if calls == [] {
      assert known + (set a | a in Answers(book, api, c, calls)) == known;
    } else {
      var c' := After(book, api, c, calls[0].name, calls[0].scope);
      var answer := Answer(book, api, c, calls[0]);
      CallTracks(book, api, c, calls[0], client, known);
      AfterKeepsInv(book, api, c, calls[0].name, calls[0].scope);
      AllTrack(book, api, c', calls[1..], client, known + {answer});
      var rest := Answers(book, api, c', calls[1..]);
      assert Answers(book, api, c, calls) == [answer] + rest;
      assert known + {answer} + (set a | a in rest) == known + set a | a in [answer] + rest;
      forall i | 0 <= i < |calls|
        ensures Answers(book, api, c, calls)[i] == Resolve(book, api, calls[i].scope, client)
      {
        assert i > 0 ==> calls[i] == calls[1..][i - 1] && Answers(book, api, c, calls)[i] == rest[i - 1];
      }
    }
  }

  /** Mapping never chains. However many layers map, in whatever scopes, each on the client's name or on
      any earlier answer, every answer is what the client's name maps to in that call's scope; any
      answer's source is still the client's name; and once a mapping changed it, it is what is echoed. */
  lemma NeverChains(book: Rules, api: Option<string>, calls: seq<Call>, client: string, i: nat)
    requires FedBack(book, api, FRESH, calls, {client}) && i < |calls|
    ensures |Answers(book, api, FRESH, calls)| == |calls|
    ensures var answer := Answers(book, api, FRESH, calls)[i];
      && answer == Resolve(book, api, calls[i].scope, client)
      && Source(AfterAll(book, api, FRESH, calls), answer) == client
      && (answer != client ==> AfterAll(book, api, FRESH, calls).original == Some(client))
  {
    hide Resolve, After, AfterAll, Answers, FedBack;
    AllTrack(book, api, FRESH, calls, client, {client});
    var answers := Answers(book, api, FRESH, calls);
    var c := AfterAll(book, api, FRESH, calls);
    assert answers[i] in {client} + set a | a in answers;
  }

  // ----- a second client name ------------------------------------------------------------

  /** The call brings a name that is new to the request and that a rule maps. */
  predicate StartsOver(book: Rules, api: Option<string>, c: Context, call: Call) {
    !Produced(c, call.name) && Resolve(book, api, call.scope, call.name) != call.name
  }

  /** An answer to the first name keeps standing for it across one more call, exactly when the call does
      not start over. */
  lemma AnswerStandsIff(book: Rules, api: Option<string>, c: Context, first: string, answer: string, call: Call)
    requires Inv(book, api, c) && c.resolved.Some? && c.input == Some(first)
    requires Produced(c, answer) && answer != first
    ensures var c' := After(book, api, c, call.name, call.scope);
      && (Source(c', answer) == first <==> !StartsOver(book, api, c, call))
      && (!StartsOver(book, api, c, call) ==> c'.resolved.Some? && c'.input == Some(first) && Produced(c', answer))
  {
    hide Resolve;
  }

  predicate NeverStartsOver(book: Rules, api: Option<string>, c: Context, calls: seq<Call>)
    decreases |calls|
  {
    calls == [] ||
    (!StartsOver(book, api, c, calls[0])
     && NeverStartsOver(book, api, After(book, api, c, calls[0].name, calls[0].scope), calls[1..]))
  }

  /** Whatever the calls, an answer to the first name resolves from that name after each of them if and
      only if none of them starts over; otherwise, at the first that does, it is a name like any other. */
  lemma {:induction false} AnswersStandIff(book: Rules, api: Option<string>, c: Context, first: string, answer: string,
                                           calls: seq<Call>)
    requires Inv(book, api, c) && c.resolved.Some? && c.input == Some(first)
    requires Produced(c, answer) && answer != first
    ensures NeverStartsOver(book, api, c, calls)
      <==> forall n | 0 <= n <= |calls| :: Source(AfterAll(book, api, c, calls[..n]), answer) == first
    decreases |calls|
  {
    hide Resolve, Inv, Source, Produced, After, StartsOver;
    assert Source(c, answer) == first by { SourceOfProduced(c, first, answer); }
    if calls == [] {
      assert forall n | 0 <= n <= |calls| :: calls[..n] == [];
    } else {
      var c' := After(book, api, c, calls[0].name, calls[0].scope);
      AnswerStandsIff(book, api, c, first, answer, calls[0]);
      AfterKeepsInv(book, api, c, calls[0].name, calls[0].scope);
      forall n | 0 <= n < |calls|
        ensures AfterAll(book, api, c, calls[..n + 1]) == AfterAll(book, api, c', calls[1..][..n])
      {
        assert calls[..n + 1][0] == calls[0] && calls[..n + 1][1..] == calls[1..][..n];
      }
      assert calls[1..][..0] == [] && AfterAll(book, api, c', []) == c';
      if StartsOver(book, api, c, calls[0]) {
        assert Source(AfterAll(book, api, c, calls[..0 + 1]), answer) != first;
      } else {
        AnswersStandIff(book, api, c', first, answer, calls[1..]);
        StandsFromSecond(book, api, c, calls, first, answer);
      }
    }
  }

  lemma SourceOfProduced(c: Context, first: string, answer: string)
    requires c.input == Some(first) && Produced(c, answer)
    ensures Source(c, answer) == first
  {
  }

  /** Standing after every call is standing before the first and after every one from there. */
  lemma StandsFromSecond(book: Rules, api: Option<string>, c: Context, calls: seq<Call>, first: string, answer: string)
    requires calls != [] && Source(c, answer) == first
    ensures var c' := After(book, api, c, calls[0].name, calls[0].scope);
      (forall n | 0 <= n <= |calls| :: Source(AfterAll(book, api, c, calls[..n]), answer) == first)
      <==> (forall n | 0 <= n <= |calls[1..]| :: Source(AfterAll(book, api, c', calls[1..][..n]), answer) == first)
  {
    hide Resolve, Source, After;
    var c' := After(book, api, c, calls[0].name, calls[0].scope);
    forall n | 0 <= n < |calls|
      ensures AfterAll(book, api, c, calls[..n + 1]) == AfterAll(book, api, c', calls[1..][..n])
    {
      assert calls[..n + 1][0] == calls[0] && calls[..n + 1][1..] == calls[1..][..n];
    }
    if forall n | 0 <= n <= |calls[1..]| :: Source(AfterAll(book, api, c', calls[1..][..n]), answer) == first {
      forall n | 0 <= n <= |calls| ensures Source(AfterAll(book, api, c, calls[..n]), answer) == first {
        if n > 0 {
          assert AfterAll(book, api, c, calls[..(n - 1) + 1]) == AfterAll(book, api, c', calls[1..][..n - 1]);
        }
      }
    }
    if forall n | 0 <= n <= |calls| :: Source(AfterAll(book, api, c, calls[..n]), answer) == first {
      forall n | 0 <= n <= |calls[1..]| ensures Source(AfterAll(book, api, c', calls[1..][..n]), answer) == first {
        assert Source(AfterAll(book, api, c, calls[..n + 1]), answer) == first;
      }
    }
  }

  /** With two client names in one request, on one API surface, an answer to the first is mapped again. */
  lemma AnswersCanChainAfterSecondInput()
    returns (book: Rules, calls: seq<Call>)
    ensures |calls| == 3 && calls[0].name == "a" && calls[1].name == "x" && calls[2].name == "b"
    ensures Answers(book, Some("openai"), FRESH, calls) == ["b", "y", "c"]
    ensures Resolve(book, Some("openai"), calls[2].scope, "a") == "b"
  {
    var here, api := Scope(1, false), Some("openai");
    var rules := [Rule(1, 0, Exact("a"), "b", {"openai"}), Rule(2, 0, Exact("b"), "c", {"openai"}),
      Rule(3, 0, Exact("x"), "y", {"openai"})];
    book := map[here := rules];
    calls := [Call("a", here), Call("x", here), Call("b", here)];
    assert rules[1..] == [rules[1], rules[2]] && rules[1..][1..] == [rules[2]];
    assert Resolve(book, api, here, "a") == "b";
    assert Resolve(book, api, here, "x") == "y";
    assert Resolve(book, api, here, "b") == "c";
    var c1 := After(book, api, FRESH, "a", here);
    var c2 := After(book, api, c1, "x", here);
    assert calls[1..] == [calls[1], calls[2]] && calls[1..][1..] == [calls[2]];
    assert Answers(book, api, c2, [calls[2]]) == ["c"];
    assert Answers(book, api, c1, calls[1..]) == ["y", "c"];
  }
}
