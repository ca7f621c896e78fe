/**
 * `set_envs`: the nine `@envs[KEY] ||= default` assignments, as a fold of
 * `FillDefault` over the list of (key, default) pairs, with the properties
 * it has for every parsed map.
 */
module Defaults {
  import opened Wrappers
  import opened OrderedMap
  import opened Envs
  import opened Names

  /**
   * What `Deploy` reads from outside when it needs a default: the working
   * directory's base name, the stripped contents of `.ruby-version` and
   * `.nvmrc`, and the three `SecureRandom.hex` results.
   */
  datatype Workspace = Workspace(
    dirName: string,
    rubyVersion: string,
    nodeVersion: string,
    postgresPassword: string,
    secretKeyBase: string,
    railsMasterKey: string)

  /** `postgres_password` and `secret_key_base` are `SecureRandom.hex(16)`, `rails_master_key` is `SecureRandom.hex(64)`. */
  predicate SecretsWellFormed(w: Workspace) {
    IsHex(w.postgresPassword, 16) && IsHex(w.secretKeyBase, 16) && IsHex(w.railsMasterKey, 64)
  }

  const ProjectNameKey := "PROJECT_NAME"
  const PostgresDbKey := "POSTGRES_DB"
  const PostgresUserKey := "POSTGRES_USER"
  const PostgresPasswordKey := "POSTGRES_PASSWORD"
  const ImageKey := "IMAGE"
  const RubyVersionKey := "RUBY_VERSION"
  const SecretKeyBaseKey := "SECRET_KEY_BASE"
  const RailsMasterKeyKey := "RAILS_MASTER_KEY"
  const ExecjsRuntimeKey := "EXECJS_RUNTIME"

  /** The keys `set_envs` fills, in the order it fills them. */
  function DefaultKeys(): seq<string> {
    [ProjectNameKey, PostgresDbKey, PostgresUserKey, PostgresPasswordKey, ImageKey,
     RubyVersionKey, SecretKeyBaseKey, RailsMasterKeyKey, ExecjsRuntimeKey]
  }

  /** The value `execjs_runtime` evidently means to return: the name of ExecJS's disabled runtime. */
  function ExecjsRuntime(): string {
    "Disabled"
  }

  /**
   * `execjs_runtime` as written: it evaluates the constant `Disabled`, which
   * neither `Deploy` nor the top level defines, so Ruby raises NameError.
   */
  function ExecjsRuntimeAsWritten(): Result<string, Error> {
    Failure(UndefinedConstant("Disabled"))
  }

  /** The nine (key, default) pairs of `set_envs`, in its order. */
  function DefaultPairs(prefix: string, w: Workspace): (ps: seq<Entry<string>>)
    ensures Keys(ps) == DefaultKeys()
    ensures UniqueKeys(ps)
  {
    var ps := [
      Entry(ProjectNameKey, w.dirName),
      Entry(PostgresDbKey, PostgresDb(w.dirName)),
      Entry(PostgresUserKey, PostgresUser(w.dirName)),
      Entry(PostgresPasswordKey, w.postgresPassword),
      Entry(ImageKey, Image(prefix, w.dirName)),
      Entry(RubyVersionKey, w.rubyVersion),
      Entry(SecretKeyBaseKey, w.secretKeyBase),
      Entry(RailsMasterKeyKey, w.railsMasterKey),
      Entry(ExecjsRuntimeKey, ExecjsRuntime())];
    assert Keys(ps) == DefaultKeys();
    ps
  }

  /** `FillDefault` applied pair by pair, first pair first. */
  function FillAll(env: Env, ps: seq<Entry<string>>): Env
    decreases |ps|
  {
    if |ps| == 0 then env
    else FillAll(FillDefault(env, ps[0].key, ps[0].value), ps[1..])
  }

  /** One step of the fold, taken from position `k` of the pairs. */
  lemma FillAllStep(env: Env, ps: seq<Entry<string>>, k: int)
    requires 0 <= k < |ps|
    ensures FillAll(env, ps[k..]) == FillAll(FillDefault(env, ps[k].key, ps[k].value), ps[k + 1..])
  {
    assert ps[k..][1..] == ps[k + 1..];
  }

  /** `@envs` after `set_envs` (with `execjs_runtime` returning "Disabled"). */
  function WithDefaults(env: Env, prefix: string, w: Workspace): Env {
    FillAll(env, DefaultPairs(prefix, w))
  }

  /** The fold over the nine pairs, written out as the nine assignments of `set_envs`. */
  lemma WithDefaultsUnfold(env: Env, prefix: string, w: Workspace)
    ensures WithDefaults(env, prefix, w) ==
      var e1 := FillDefault(env, ProjectNameKey, w.dirName);
      var e2 := FillDefault(e1, PostgresDbKey, PostgresDb(w.dirName));
      var e3 := FillDefault(e2, PostgresUserKey, PostgresUser(w.dirName));
      var e4 := FillDefault(e3, PostgresPasswordKey, w.postgresPassword);
      var e5 := FillDefault(e4, ImageKey, Image(prefix, w.dirName));
      var e6 := FillDefault(e5, RubyVersionKey, w.rubyVersion);
      var e7 := FillDefault(e6, SecretKeyBaseKey, w.secretKeyBase);
      var e8 := FillDefault(e7, RailsMasterKeyKey, w.railsMasterKey);
      FillDefault(e8, ExecjsRuntimeKey, ExecjsRuntime())
  {
    var ps := DefaultPairs(prefix, w);
    assert ps[0..] == ps;
    var e1 := FillDefault(env, ProjectNameKey, w.dirName);
    FillAllStep(env, ps, 0);
    var e2 := FillDefault(e1, PostgresDbKey, PostgresDb(w.dirName));
    FillAllStep(e1, ps, 1);
    var e3 := FillDefault(e2, PostgresUserKey, PostgresUser(w.dirName));
    FillAllStep(e2, ps, 2);
    var e4 := FillDefault(e3, PostgresPasswordKey, w.postgresPassword);
    FillAllStep(e3, ps, 3);
    var e5 := FillDefault(e4, ImageKey, Image(prefix, w.dirName));
    FillAllStep(e4, ps, 4);
    var e6 := FillDefault(e5, RubyVersionKey, w.rubyVersion);
    FillAllStep(e5, ps, 5);
    var e7 := FillDefault(e6, SecretKeyBaseKey, w.secretKeyBase);
    FillAllStep(e6, ps, 6);
    var e8 := FillDefault(e7, RailsMasterKeyKey, w.railsMasterKey);
    FillAllStep(e7, ps, 7);
    FillAllStep(e8, ps, 8);
    assert ps[9..] == [];
  }

  // ---------------------------------------------------------------------------
  // A reference definition of the fold: fill nil values in place, then append
  // the keys that were missing, in the order of the pairs.

  function PatchEntry(e: Entry<Option<string>>, ps: seq<Entry<string>>): Entry<Option<string>> {
    if e.value.Some? then e else Entry(e.key, Get(ps, e.key))
  }

  function Patched(env: Env, ps: seq<Entry<string>>): (r: Env)
    ensures |r| == |env|
  {
    seq(|env|, i requires 0 <= i < |env| => PatchEntry(env[i], ps))
  }

  function Missing(env: Env, ps: seq<Entry<string>>): Env
    decreases |ps|
  {
    if |ps| == 0 then []
    else
      (if HasKey(env, ps[0].key) then [] else [Entry(ps[0].key, Some(ps[0].value))])
      + Missing(env, ps[1..])
  }

  /** The first pair of `ps` with a key other than `k` does not affect what `k` looks up in `ps`. */
  lemma GetPairsHead(ps: seq<Entry<string>>, k: string)
    requires |ps| > 0
    ensures Get(ps, k) == if ps[0].key == k then Some(ps[0].value) else Get(ps[1..], k)
  {
    if ps[0].key != k {
      GetTail(ps, k);
    }
  }

  /** After the fold, a key holds its old value if it had one, and otherwise its default (or nil when it has none). */
  lemma {:induction false} LookupAfterFill(env: Env, ps: seq<Entry<string>>, k: string)
    ensures Lookup(FillAll(env, ps), k) == if Lookup(env, k).Some? then Lookup(env, k) else Get(ps, k)
    decreases |ps|
  {
    if |ps| > 0 {
      var e1 := FillDefault(env, ps[0].key, ps[0].value);
      FillDefaultSpec(env, ps[0].key, ps[0].value);
      LookupAfterFill(e1, ps[1..], k);
      GetPairsHead(ps, k);
      if k != ps[0].key {
        assert Get(e1, k) == Get(env, k);
      }
    }
  }

  /** A key none of the pairs names keeps its entry, whether it holds a value, nil, or is absent. */
  lemma {:induction false} FillLeavesOtherKeys(env: Env, ps: seq<Entry<string>>, k: string)
    requires !HasKey(ps, k)
    ensures Get(FillAll(env, ps), k) == Get(env, k)
    decreases |ps|
  {
    if |ps| > 0 {
      assert Keys(ps)[0] == ps[0].key;
      assert Keys(ps[1..]) == Keys(ps)[1..];
      FillDefaultSpec(env, ps[0].key, ps[0].value);
      FillLeavesOtherKeys(FillDefault(env, ps[0].key, ps[0].value), ps[1..], k);
    }
  }

  /** When every key of the pairs already holds a value, the fold changes nothing. */
  lemma {:induction false} FillAllNoop(env: Env, ps: seq<Entry<string>>)
    requires forall i :: 0 <= i < |ps| ==> Lookup(env, ps[i].key).Some?
    ensures FillAll(env, ps) == env
    decreases |ps|
  {
    if |ps| > 0 {
      FillAllNoop(env, ps[1..]);
    }
  }

  /** Running the fold twice is running it once. */
  lemma FillAllIdempotent(env: Env, ps: seq<Entry<string>>)
    ensures FillAll(FillAll(env, ps), ps) == FillAll(env, ps)
  {
    var out := FillAll(env, ps);
    forall i | 0 <= i < |ps| ensures Lookup(out, ps[i].key).Some? {
      LookupAfterFill(env, ps, ps[i].key);
      assert Keys(ps)[i] == ps[i].key;
      GetSome(ps, ps[i].key);
    }
    FillAllNoop(out, ps);
  }

  lemma MissingSame(env: Env, env': Env, ps: seq<Entry<string>>)
    requires forall i :: 0 <= i < |ps| ==> HasKey(env, ps[i].key) == HasKey(env', ps[i].key)
    ensures Missing(env, ps) == Missing(env', ps)
    decreases |ps|
  {
    if |ps| > 0 {
      MissingSame(env, env', ps[1..]);
    }
  }

  /** The pairs after the first do not name the first pair's key again. */
  lemma RestOmitsHead(ps: seq<Entry<string>>)
    requires UniqueKeys(ps) && |ps| > 0
    ensures UniqueKeys(ps[1..]) && !HasKey(ps[1..], ps[0].key)
    ensures forall q :: q != ps[0].key ==> Get(ps[1..], q) == Get(ps, q)
  {
    var rest := ps[1..];
    forall i | 0 <= i < |rest| ensures Keys(rest)[i] != ps[0].key {
      assert ps[i + 1] == rest[i];
    }
    forall q | q != ps[0].key ensures Get(rest, q) == Get(ps, q) {
      GetPairsHead(ps, q);
    }
  }

  /** First step of the fold when the first key already holds a value. */
  lemma PatchedStepSet(env: Env, ps: seq<Entry<string>>)
    requires UniqueKeys(env) && UniqueKeys(ps) && |ps| > 0
    requires Lookup(env, ps[0].key).Some?
    ensures Patched(env, ps[1..]) == Patched(env, ps)
  {
    RestOmitsHead(ps);
    forall i | 0 <= i < |env| ensures PatchEntry(env[i], ps[1..]) == PatchEntry(env[i], ps) {
      if env[i].key == ps[0].key {
        GetAt(env, i);
      }
    }
  }

  /** First step of the fold when the first key is present and holds nil. */
  lemma PatchedStepNil(env: Env, ps: seq<Entry<string>>)
    requires UniqueKeys(env) && UniqueKeys(ps) && |ps| > 0
    requires Lookup(env, ps[0].key).None? && HasKey(env, ps[0].key)
    ensures Patched(FillDefault(env, ps[0].key, ps[0].value), ps[1..]) == Patched(env, ps)
  {
    var p := ps[0];
    var j := Find(Keys(env), p.key);
    FindSpec(Keys(env), p.key);
    var e1 := FillDefault(env, p.key, p.value);
    assert e1 == env[j := Entry(p.key, Some(p.value))];
    RestOmitsHead(ps);
    GetPairsHead(ps, p.key);
    forall i | 0 <= i < |env| ensures PatchEntry(e1[i], ps[1..]) == PatchEntry(env[i], ps) {
      if i == j {
        GetAt(env, j);
      } else {
        assert Keys(env)[i] == env[i].key;
      }
    }
  }

  /** First step of the fold when the first key is absent. */
  lemma PatchedStepAbsent(env: Env, ps: seq<Entry<string>>)
    requires UniqueKeys(ps) && |ps| > 0
    requires !HasKey(env, ps[0].key)
    ensures Patched(env + [Entry(ps[0].key, Some(ps[0].value))], ps[1..])
      == Patched(env, ps) + [Entry(ps[0].key, Some(ps[0].value))]
  {
    RestOmitsHead(ps);
    forall i | 0 <= i < |env| ensures PatchEntry(env[i], ps[1..]) == PatchEntry(env[i], ps) {
      assert Keys(env)[i] == env[i].key;
    }
  }

  /** The first step of the fold does not change which of the later keys are missing. */
  lemma MissingStep(env: Env, ps: seq<Entry<string>>)
    requires UniqueKeys(ps) && |ps| > 0
    ensures Missing(FillDefault(env, ps[0].key, ps[0].value), ps[1..]) == Missing(env, ps[1..])
  {
    var rest := ps[1..];
    var e1 := FillDefault(env, ps[0].key, ps[0].value);
    FillDefaultSpec(env, ps[0].key, ps[0].value);
    RestOmitsHead(ps);
    forall i | 0 <= i < |rest| ensures HasKey(env, rest[i].key) == HasKey(e1, rest[i].key) {
      assert Keys(rest)[i] == rest[i].key;
    }
    MissingSame(env, e1, rest);
  }

  /** One step of the fold, given the reference equation for the rest of the pairs. */
  lemma ReferenceStep(env: Env, ps: seq<Entry<string>>)
    requires UniqueKeys(env) && UniqueKeys(ps) && |ps| > 0
    requires var e1 := FillDefault(env, ps[0].key, ps[0].value);
      FillAll(e1, ps[1..]) == Patched(e1, ps[1..]) + Missing(e1, ps[1..])
    ensures FillAll(env, ps) == Patched(env, ps) + Missing(env, ps)
  {
    var p, rest := ps[0], ps[1..];
    var e1 := FillDefault(env, p.key, p.value);
    MissingStep(env, ps);
    assert FillAll(env, ps) == Patched(e1, rest) + Missing(env, rest);
    if Lookup(env, p.key).Some? {
      ReferenceStepSet(env, ps);
    } else if HasKey(env, p.key) {
      ReferenceStepNil(env, ps);
    } else {
      ReferenceStepAbsent(env, ps);
    }
  }

  /** The first key already holds a value: that step changes nothing. */
  lemma ReferenceStepSet(env: Env, ps: seq<Entry<string>>)
    requires UniqueKeys(env) && UniqueKeys(ps) && |ps| > 0
    requires Lookup(env, ps[0].key).Some?
    ensures Patched(FillDefault(env, ps[0].key, ps[0].value), ps[1..]) + Missing(env, ps[1..])
      == Patched(env, ps) + Missing(env, ps)
  {
    PatchedStepSet(env, ps);
    assert FillDefault(env, ps[0].key, ps[0].value) == env;
    assert Missing(env, ps) == Missing(env, ps[1..]);
  }

  /** The first key is stored with nil: that step fills it in place. */
  lemma ReferenceStepNil(env: Env, ps: seq<Entry<string>>)
    requires UniqueKeys(env) && UniqueKeys(ps) && |ps| > 0
    requires Lookup(env, ps[0].key).None? && HasKey(env, ps[0].key)
    ensures Patched(FillDefault(env, ps[0].key, ps[0].value), ps[1..]) + Missing(env, ps[1..])
      == Patched(env, ps) + Missing(env, ps)
  {
    PatchedStepNil(env, ps);
    assert Missing(env, ps) == Missing(env, ps[1..]);
  }

  /** The first key is absent: that step appends it after the patched entries. */
  lemma ReferenceStepAbsent(env: Env, ps: seq<Entry<string>>)
    requires UniqueKeys(ps) && |ps| > 0
    requires !HasKey(env, ps[0].key)
    ensures Patched(FillDefault(env, ps[0].key, ps[0].value), ps[1..]) + Missing(env, ps[1..])
      == Patched(env, ps) + Missing(env, ps)
  {
    var added := Entry(ps[0].key, Some(ps[0].value));
    var e1 := FillDefault(env, ps[0].key, ps[0].value);
    var patched, later := Patched(env, ps), Missing(env, ps[1..]);
    calc {
      Patched(e1, ps[1..]) + later;
      { FillDefaultAbsent(env, ps[0].key, ps[0].value); }
      Patched(env + [added], ps[1..]) + later;
      { PatchedStepAbsent(env, ps); }
      patched + [added] + later;
      patched + ([added] + later);
      patched + Missing(env, ps);
    }
  }

  /** The fold agrees with the reference definition: nil values filled in place, missing keys appended in pair order. */
  lemma {:induction false} FillAllReference(env: Env, ps: seq<Entry<string>>)
    requires UniqueKeys(env) && UniqueKeys(ps)
    ensures FillAll(env, ps) == Patched(env, ps) + Missing(env, ps)
    decreases |ps|
  {
    if |ps| > 0 {
      var e1 := FillDefault(env, ps[0].key, ps[0].value);
      FillDefaultUnique(env, ps[0].key, ps[0].value);
      RestOmitsHead(ps);
      FillAllReference(e1, ps[1..]);
      ReferenceStep(env, ps);
    }
  }

  /** The fold keeps a Hash a Hash: no key ends up stored twice. */
  lemma {:induction false} FillAllUnique(env: Env, ps: seq<Entry<string>>)
    requires UniqueKeys(env)
    ensures UniqueKeys(FillAll(env, ps))
    decreases |ps|
  {
    if |ps| > 0 {
      FillDefaultUnique(env, ps[0].key, ps[0].value);
      FillAllUnique(FillDefault(env, ps[0].key, ps[0].value), ps[1..]);
    }
  }

  /** The keys of `ks` that `env` lacks, in the order of `ks`. */
  function AbsentKeys(env: Env, ks: seq<string>): seq<string>
    decreases |ks|
  {
    if |ks| == 0 then []
    else (if HasKey(env, ks[0]) then [] else [ks[0]]) + AbsentKeys(env, ks[1..])
  }

  lemma {:induction false} MissingKeys(env: Env, ps: seq<Entry<string>>)
    ensures Keys(Missing(env, ps)) == AbsentKeys(env, Keys(ps))
    decreases |ps|
  {
    if |ps| > 0 {
      MissingKeys(env, ps[1..]);
      assert Keys(ps[1..]) == Keys(ps)[1..];
      var head: Env := if HasKey(env, ps[0].key) then [] else [Entry(ps[0].key, Some(ps[0].value))];
      assert Keys(head + Missing(env, ps[1..])) == Keys(head) + Keys(Missing(env, ps[1..]));
    }
  }

  /** The reference definition, read as positions: old entries stay in place, absent keys follow. */
  lemma FillAllOrder(env: Env, ps: seq<Entry<string>>)
    requires UniqueKeys(env) && UniqueKeys(ps)
    ensures var out := FillAll(env, ps);
      |out| >= |env| &&
      Keys(out) == Keys(env) + AbsentKeys(env, Keys(ps)) &&
      (forall i :: 0 <= i < |env| && env[i].value.Some? ==> out[i] == env[i]) &&
      (forall i :: 0 <= i < |env| && env[i].key !in Keys(ps) ==> out[i] == env[i])
  {
    FillAllReference(env, ps);
    PatchedPlusMissing(env, ps);
  }

  lemma PatchedPlusMissing(env: Env, ps: seq<Entry<string>>)
    ensures var out := Patched(env, ps) + Missing(env, ps);
      |out| >= |env| &&
      Keys(out) == Keys(env) + AbsentKeys(env, Keys(ps)) &&
      (forall i :: 0 <= i < |env| && env[i].value.Some? ==> out[i] == env[i]) &&
      (forall i :: 0 <= i < |env| && env[i].key !in Keys(ps) ==> out[i] == env[i])
  {
    MissingKeys(env, ps);
    forall i | 0 <= i < |env| && env[i].key !in Keys(ps) ensures Get(ps, env[i].key).None? {
      GetSome(ps, env[i].key);
    }
    var patched, missing := Patched(env, ps), Missing(env, ps);
    assert Keys(patched) == Keys(env);
    assert Keys(patched + missing) == Keys(patched) + Keys(missing);
  }

  // ---------------------------------------------------------------------------
  // What `set_envs` guarantees.

  /** A key that already holds a value (the empty string included) keeps it. */
  lemma WithDefaultsKeepsValues(env: Env, prefix: string, w: Workspace, k: string)
    requires Lookup(env, k).Some?
    ensures Lookup(WithDefaults(env, prefix, w), k) == Lookup(env, k)
  {
    LookupAfterFill(env, DefaultPairs(prefix, w), k);
  }

  /** A key outside the nine is never touched: same value, nil, or absence. */
  lemma WithDefaultsLeavesOtherKeys(env: Env, prefix: string, w: Workspace, k: string)
    requires k !in DefaultKeys()
    ensures Get(WithDefaults(env, prefix, w), k) == Get(env, k)
  {
    FillLeavesOtherKeys(env, DefaultPairs(prefix, w), k);
  }

  /** Afterwards each of the nine keys holds a value: its old one, or else its default. */
  lemma WithDefaultsDefinesAll(env: Env, prefix: string, w: Workspace, i: int)
    requires 0 <= i < |DefaultKeys()|
    ensures var k := DefaultKeys()[i];
      Lookup(WithDefaults(env, prefix, w), k)
        == Some(Lookup(env, k).GetOr(DefaultPairs(prefix, w)[i].value))
  {
    var ps := DefaultPairs(prefix, w);
    var k := DefaultKeys()[i];
    assert Keys(ps)[i] == k;
    GetAt(ps, i);
    LookupAfterFill(env, ps, k);
  }

  /**
   * The entries of the parsed map stay where they were (only nil values of the
   * nine keys are filled), and the nine keys that were absent are appended
   * after them, in the order `set_envs` names them.
   */
  lemma WithDefaultsOrder(env: Env, prefix: string, w: Workspace)
    requires UniqueKeys(env)
    ensures var out := WithDefaults(env, prefix, w);
      |out| >= |env| &&
      Keys(out) == Keys(env) + AbsentKeys(env, DefaultKeys()) &&
      (forall i :: 0 <= i < |env| && env[i].value.Some? ==> out[i] == env[i]) &&
      (forall i :: 0 <= i < |env| && env[i].key !in DefaultKeys() ==> out[i] == env[i])
  {
    FillAllOrder(env, DefaultPairs(prefix, w));
  }

  /** `set_envs` applied to its own output, with the same inputs, changes nothing. */
  lemma WithDefaultsIdempotent(env: Env, prefix: string, w: Workspace)
    ensures WithDefaults(WithDefaults(env, prefix, w), prefix, w) == WithDefaults(env, prefix, w)
  {
    FillAllIdempotent(env, DefaultPairs(prefix, w));
  }

  /** The secrets `set_envs` generates have the length `SecureRandom.hex` gives them. */
  lemma WithDefaultsSecrets(env: Env, prefix: string, w: Workspace)
    requires SecretsWellFormed(w)
    ensures var out := WithDefaults(env, prefix, w);
      (Lookup(env, PostgresPasswordKey).None? ==>
        Lookup(out, PostgresPasswordKey).Some? && IsHex(Lookup(out, PostgresPasswordKey).value, 16)) &&
      (Lookup(env, SecretKeyBaseKey).None? ==>
        Lookup(out, SecretKeyBaseKey).Some? && IsHex(Lookup(out, SecretKeyBaseKey).value, 16)) &&
      (Lookup(env, RailsMasterKeyKey).None? ==>
        Lookup(out, RailsMasterKeyKey).Some? && IsHex(Lookup(out, RailsMasterKeyKey).value, 64))
  {
    WithDefaultsDefinesAll(env, prefix, w, 3);
    WithDefaultsDefinesAll(env, prefix, w, 6);
    WithDefaultsDefinesAll(env, prefix, w, 7);
  }

  // ---------------------------------------------------------------------------
  // `set_envs` as written, where `execjs_runtime` raises NameError.

  /** `set_envs` with `execjs_runtime` as written: the eight other keys are filled, then the ninth raises if it is needed. */
  function WithDefaultsAsWritten(env: Env, prefix: string, w: Workspace): Result<Env, Error> {
    var filled := FillAll(env, DefaultPairs(prefix, w)[..8]);
    if Lookup(filled, ExecjsRuntimeKey).Some? then Success(filled)
    else match ExecjsRuntimeAsWritten()
      case Success(v) => Success(FillDefault(filled, ExecjsRuntimeKey, v))
      case Failure(e) => Failure(e)
  }

  lemma {:induction false} FillAllAppend(env: Env, ps: seq<Entry<string>>, qs: seq<Entry<string>>)
    ensures FillAll(env, ps + qs) == FillAll(FillAll(env, ps), qs)
    decreases |ps|
  {
    if |ps| > 0 {
      assert (ps + qs)[1..] == ps[1..] + qs;
      FillAllAppend(FillDefault(env, ps[0].key, ps[0].value), ps[1..], qs);
    } else {
      assert ps + qs == qs;
    }
  }

  /**
   * Corrected, `set_envs` never raises: EXECJS_RUNTIME keeps its value, or
   * else becomes "Disabled", and the eight keys before it are filled as they
   * are as written.
   */
  lemma CorrectedExecjsRuntime(env: Env, prefix: string, w: Workspace)
    ensures Lookup(WithDefaults(env, prefix, w), ExecjsRuntimeKey) ==
      Some(Lookup(env, ExecjsRuntimeKey).GetOr("Disabled"))
  {
    WithDefaultsDefinesAll(env, prefix, w, 8);
  }

  /**
   * As written, `set_envs` raises NameError exactly when the parsed map has no
   * value for EXECJS_RUNTIME; otherwise it agrees with the corrected version.
   */
  lemma AsWrittenRaisesWithoutExecjs(env: Env, prefix: string, w: Workspace)
    ensures var r := WithDefaultsAsWritten(env, prefix, w);
      (r.Failure? <==> Lookup(env, ExecjsRuntimeKey).None?) &&
      (r.Failure? ==> r.error == UndefinedConstant("Disabled")) &&
      (r.Success? ==> r.value == WithDefaults(env, prefix, w))
  {
    var ps := DefaultPairs(prefix, w);
    var first := ps[..8];
    assert ps == first + [ps[8]];
    FillAllAppend(env, first, [ps[8]]);
    assert !HasKey(first, ExecjsRuntimeKey) by {
      assert Keys(first) == DefaultKeys()[..8];
    }
    LookupAfterFill(env, first, ExecjsRuntimeKey);
    GetSome(first, ExecjsRuntimeKey);
  }

  /** The as-written failure reports Ruby's "uninitialized constant" message for `Disabled`. */
  lemma AsWrittenMessage(env: Env, prefix: string, w: Workspace)
    ensures var r := WithDefaultsAsWritten(env, prefix, w);
      r.Failure? ==> Message(r.error) == "uninitialized constant Deploy::Disabled"
  {
    AsWrittenRaisesWithoutExecjs(env, prefix, w);
  }
}
