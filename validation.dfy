/**
 * The check in `prepare`: every key of `@envs`, then HOSTNAME, is looked up,
 * and the first whose value is exactly '' raises "ENV <key> is empty!".
 */
module Validation {
  import opened Wrappers
  import opened OrderedMap
  import opened Envs
  import opened Names
  import opened Defaults

  const HostnameKey := "HOSTNAME"

  /** `REQUIRED_ENVS`. */
  const RequiredEnvs: seq<string> := [HostnameKey]

  /** `@envs.keys + REQUIRED_ENVS`: the keys checked, in the order checked. */
  function CheckedKeys(env: Env): seq<string> {
    Keys(env) + RequiredEnvs
  }

  /** The key the check raises for: the first of `keys` that looks up exactly ''. */
  function FirstEmpty(env: Env, keys: seq<string>): Option<string>
    decreases |keys|
  {
    if |keys| == 0 then None
    else if Lookup(env, keys[0]) == Some("") then Some(keys[0])
    else FirstEmpty(env, keys[1..])
  }

  /** The `each` loop of `prepare`: the key it raises for, or None when it completes. */
  method FindEmpty(env: Env, keys: seq<string>) returns (bad: Option<string>)
    ensures bad == FirstEmpty(env, keys)
    ensures bad.None? <==> forall i :: 0 <= i < |keys| ==> Lookup(env, keys[i]) != Some("")
    ensures bad.Some? ==> bad.value in keys && Lookup(env, bad.value) == Some("")
  {
    var i := 0;
    while i < |keys|
      invariant 0 <= i <= |keys|
      invariant FirstEmpty(env, keys) == FirstEmpty(env, keys[i..])
      invariant forall j :: 0 <= j < i ==> Lookup(env, keys[j]) != Some("")
    {
      assert keys[i..][1..] == keys[i + 1..];
      if Lookup(env, keys[i]) == Some("") {
        return Some(keys[i]);
      }
      i := i + 1;
    }
    return None;
  }

  /** The raising key is the first checked key holding '', and nothing is raised when none does. */
  lemma {:induction false} FirstEmptySpec(env: Env, keys: seq<string>)
    ensures FirstEmpty(env, keys).None? <==> forall i :: 0 <= i < |keys| ==> Lookup(env, keys[i]) != Some("")
    ensures FirstEmpty(env, keys).Some? ==>
      exists i :: 0 <= i < |keys| && keys[i] == FirstEmpty(env, keys).value &&
        Lookup(env, keys[i]) == Some("") &&
        forall j :: 0 <= j < i ==> Lookup(env, keys[j]) != Some("")
    decreases |keys|
  {
    if |keys| > 0 {
      FirstEmptySpec(env, keys[1..]);
      if Lookup(env, keys[0]) != Some("") && FirstEmpty(env, keys[1..]).Some? {
        var i :| 0 <= i < |keys[1..]| && keys[1..][i] == FirstEmpty(env, keys[1..]).value &&
          Lookup(env, keys[1..][i]) == Some("") &&
          forall j :: 0 <= j < i ==> Lookup(env, keys[1..][j]) != Some("");
        assert keys[i + 1] == keys[1..][i];
        assert forall j :: 1 <= j < i + 1 ==> keys[j] == keys[1..][j - 1];
      }
    }
  }

  /**
   * The check raises exactly when some entry of `@envs` holds ''. A HOSTNAME
   * that is absent or nil looks up nil, which differs from '', so the
   * HOSTNAME entry of REQUIRED_ENVS never raises on its own.
   */
  lemma ValidationPassesIff(env: Env)
    requires UniqueKeys(env)
    ensures FirstEmpty(env, CheckedKeys(env)).None? <==>
      forall i :: 0 <= i < |env| ==> env[i].value != Some("")
  {
    var ks := CheckedKeys(env);
    FirstEmptySpec(env, ks);
    if forall i :: 0 <= i < |env| ==> env[i].value != Some("") {
      forall i | 0 <= i < |ks| ensures Lookup(env, ks[i]) != Some("") {
        LookupNotEmpty(env, ks[i]);
      }
    } else {
      var j :| 0 <= j < |env| && env[j].value == Some("");
      GetAt(env, j);
      assert ks[j] == env[j].key;
    }
  }

  lemma LookupNotEmpty(env: Env, k: string)
    requires UniqueKeys(env)
    requires forall i :: 0 <= i < |env| ==> env[i].value != Some("")
    ensures Lookup(env, k) != Some("")
  {
    if HasKey(env, k) {
      var j := Find(Keys(env), k);
      FindSpec(Keys(env), k);
      assert Keys(env)[j] == env[j].key;
      GetAt(env, j);
    }
  }

  /** Looking HOSTNAME up after the map's own keys never changes which key is reported. */
  lemma HostnameCheckRedundant(env: Env)
    ensures FirstEmpty(env, CheckedKeys(env)) == FirstEmpty(env, Keys(env))
  {
    FirstEmptyAppend(env, Keys(env), HostnameKey);
    FirstEmptySpec(env, Keys(env));
    if Lookup(env, HostnameKey) == Some("") {
      var i :| 0 <= i < |Keys(env)| && Keys(env)[i] == HostnameKey;
      assert FirstEmpty(env, Keys(env)).Some?;
    }
  }

  lemma {:induction false} FirstEmptyAppend(env: Env, keys: seq<string>, k: string)
    ensures FirstEmpty(env, keys + [k]) ==
      if FirstEmpty(env, keys).Some? then FirstEmpty(env, keys)
      else if Lookup(env, k) == Some("") then Some(k) else None
    decreases |keys|
  {
    if |keys| > 0 {
      assert (keys + [k])[1..] == keys[1..] + [k];
      FirstEmptyAppend(env, keys[1..], k);
    } else {
      assert keys + [k] == [k];
    }
  }

  /**
   * After `set_envs`, with defaults that are not empty, the check raises
   * exactly when the parsed map itself holds an empty value.
   */
  lemma ValidationAfterDefaults(env: Env, prefix: string, w: Workspace)
    requires UniqueKeys(env)
    requires w.dirName != "" && w.rubyVersion != "" && SecretsWellFormed(w)
    ensures var out := WithDefaults(env, prefix, w);
      FirstEmpty(out, CheckedKeys(out)).None? <==>
        forall i :: 0 <= i < |env| ==> env[i].value != Some("")
  {
    var ps := DefaultPairs(prefix, w);
    var out := WithDefaults(env, prefix, w);
    FillAllUnique(env, ps);
    ValidationPassesIff(out);
    ValidationPassesIff(env);
    assert forall i :: 0 <= i < |ps| ==> ps[i].value != "" by {
      assert ps[3].value == w.postgresPassword && |w.postgresPassword| == 32;
      assert ps[6].value == w.secretKeyBase && |w.secretKeyBase| == 32;
      assert ps[7].value == w.railsMasterKey && |w.railsMasterKey| == 128;
    }
    FillAllReference(env, ps);
    NoEmptyDefaults(env, ps);
  }

  /** Filling with non-empty defaults introduces no empty value and removes none. */
  lemma NoEmptyDefaults(env: Env, ps: seq<Entry<string>>)
    requires forall i :: 0 <= i < |ps| ==> ps[i].value != ""
    ensures var out := Patched(env, ps) + Missing(env, ps);
      (forall i :: 0 <= i < |out| ==> out[i].value != Some("")) <==>
      (forall i :: 0 <= i < |env| ==> env[i].value != Some(""))
  {
    var patched, missing := Patched(env, ps), Missing(env, ps);
    var out := patched + missing;
    if forall i :: 0 <= i < |env| ==> env[i].value != Some("") {
      MissingNotEmpty(env, ps);
      forall i | 0 <= i < |out| ensures out[i].value != Some("") {
        if i < |env| {
          assert out[i] == patched[i] == PatchEntry(env[i], ps);
          PatchEntryNotEmpty(env[i], ps);
        } else {
          assert out[i] == missing[i - |env|];
        }
      }
    } else {
      var j :| 0 <= j < |env| && env[j].value == Some("");
      assert out[j] == patched[j] == PatchEntry(env[j], ps);
      PatchEntryNotEmpty(env[j], ps);
    }
  }

  /** Patching an entry with non-empty defaults leaves it empty exactly when it was empty. */
  lemma PatchEntryNotEmpty(e: Entry<Option<string>>, ps: seq<Entry<string>>)
    requires forall i :: 0 <= i < |ps| ==> ps[i].value != ""
    ensures (PatchEntry(e, ps).value == Some("")) == (e.value == Some(""))
  {
    PairsNotEmpty(ps, e.key);
  }

  /** Looking a key up among non-empty defaults never gives ''. */
  lemma PairsNotEmpty(ps: seq<Entry<string>>, k: string)
    requires forall i :: 0 <= i < |ps| ==> ps[i].value != ""
    ensures Get(ps, k) != Some("")
  {
    var j := Find(Keys(ps), k);
    FindSpec(Keys(ps), k);
    if j >= 0 {
      assert Keys(ps)[j] == ps[j].key;
    }
  }

  lemma {:induction false} MissingNotEmpty(env: Env, ps: seq<Entry<string>>)
    requires forall i :: 0 <= i < |ps| ==> ps[i].value != ""
    ensures forall i :: 0 <= i < |Missing(env, ps)| ==> Missing(env, ps)[i].value != Some("")
    decreases |ps|
  {
    if |ps| > 0 {
      MissingNotEmpty(env, ps[1..]);
    }
  }
}
