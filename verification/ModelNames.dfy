/** Reading provider instances out of canonical model ids, `{provider_key}/{name}`. */
module ModelNames {

  /** The index of the first `c`, or the length when there is none. */
  function Find(s: string, c: char): (n: nat)
    ensures n <= |s|
    ensures n < |s| ==> s[n] == c
    ensures forall i | 0 <= i < n :: s[i] != c
  {
    if s == "" then 0 else if s[0] == c then 0 else 1 + Find(s[1..], c)
  }

  predicate StartsWith(s: string, prefix: string) {
    |prefix| <= |s| && s[..|prefix|] == prefix
  }

  /** Everything before the first '/', or the whole id when there is none. */
  function ProviderKeyOf(model: string): string {
    model[..Find(model, '/')]
  }

  /** What follows the first ':' of a provider key; "" when there is none. */
  function InstancePart(key: string): string {
    if Find(key, ':') == |key| then "" else key[Find(key, ':') + 1..]
  }

  const BYOK_PREFIX := "byok-"

  predicate IsByokKey(key: string) {
    StartsWith(InstancePart(key), BYOK_PREFIX)
  }

  predicate IsByokModel(model: string) {
    IsByokKey(ProviderKeyOf(model))
  }

  /** A canonical id falls into its key and the rest at the first slash; one without a slash is its own key. */
  lemma KeyOfCanonical(key: string, rest: string)
    requires '/' !in key
    ensures ProviderKeyOf(key + "/" + rest) == key && ProviderKeyOf(key) == key
  {
    var id := key + "/" + rest;
    assert id[|key|] == '/' && forall i | 0 <= i < |key| :: id[i] == key[i];
    FindIs(id, '/', |key|);
    assert id[..|key|] == key && key[..|key|] == key;
  }

  /** A user's own instance is one named `byok-...` after the first colon of its key. */
  lemma OwnInstances(provider: string, instance: string, rest: string)
    requires ':' !in provider && '/' !in provider && '/' !in instance
    ensures IsByokModel(provider + ":" + instance + "/" + rest) <==> |instance| >= 5 && instance[..5] == "byok-"
    ensures IsByokKey(provider + ":" + instance) <==> |instance| >= 5 && instance[..5] == "byok-"
    ensures !IsByokModel(provider + "/" + rest) && !IsByokKey(provider)
  {
    var key := provider + ":" + instance;
    assert key[|provider|] == ':' && forall i | 0 <= i < |provider| :: key[i] == provider[i];
    FindIs(key, ':', |provider|);
    assert key[|provider| + 1..] == instance;
    KeyOfCanonical(key, rest);
    KeyOfCanonical(provider, rest);
  }

  /** Find returns the first index at which the character stands. */
  lemma FindIs(s: string, c: char, n: nat)
    requires n < |s| && s[n] == c && forall i | 0 <= i < n :: s[i] != c
    ensures Find(s, c) == n
  {
  }
}
