/**
 * The configuration set `@envs` of `Deploy`: the parsed dotenv files as an
 * insertion-ordered Hash whose values are strings or `nil`.
 */
module Envs {
  import opened Wrappers
  import opened OrderedMap

  type Env = Map<Option<string>>

  /** `@envs[k]`: `nil` both for an absent key and for a key that holds `nil`. */
  function Lookup(env: Env, k: string): (r: Option<string>)
    ensures r.Some? ==> HasKey(env, k)
  {
    GetSome(env, k);
    match Get(env, k)
    case Some(v) => v
    case None => None
  }

  /**
   * `@envs[k] ||= v`: the key is assigned only when its lookup is `nil`; an
   * existing value, the empty string included, is kept, and no other key moves
   * or changes.
   */
  function FillDefault(env: Env, k: string, v: string): Env {
    if Lookup(env, k).Some? then env else Put(env, k, Some(v))
  }

  lemma FillDefaultSpec(env: Env, k: string, v: string)
    ensures var r := FillDefault(env, k, v);
      (Lookup(env, k).Some? ==> r == env) &&
      Lookup(r, k) == Some(Lookup(env, k).GetOr(v)) &&
      (forall k' :: k' != k ==> Get(r, k') == Get(env, k')) &&
      Keys(r) == (if HasKey(env, k) then Keys(env) else Keys(env) + [k]) &&
      (UniqueKeys(env) ==> UniqueKeys(r))
  {
    PutSpec(env, k, Some(v));
  }

  /** `||=` on an absent key appends it. */
  lemma FillDefaultAbsent(env: Env, k: string, v: string)
    requires !HasKey(env, k)
    ensures FillDefault(env, k, v) == env + [Entry(k, Some(v))]
  {
    FindSpec(Keys(env), k);
  }

  /** `||=` never stores a key twice. */
  lemma FillDefaultUnique(env: Env, k: string, v: string)
    requires UniqueKeys(env)
    ensures UniqueKeys(FillDefault(env, k, v))
  {
    PutSpec(env, k, Some(v));
  }

  /** A key other than the one assigned looks up as before. */
  lemma FillDefaultOther(env: Env, k: string, v: string, k': string)
    requires k' != k
    ensures Lookup(FillDefault(env, k, v), k') == Lookup(env, k')
  {
    FillDefaultSpec(env, k, v);
  }
}
