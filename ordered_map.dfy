/**
 * Ruby's Hash: a map from string keys that keeps its keys in the order in
 * which they were first assigned.
 */
module OrderedMap {
  import opened Wrappers

  datatype Entry<V> = Entry(key: string, value: V)

  /** The entries, in insertion order. */
  type Map<V> = seq<Entry<V>>

  function Keys<V>(m: Map<V>): seq<string> {
    seq(|m|, i requires 0 <= i < |m| => m[i].key)
  }

  predicate HasKey<V>(m: Map<V>, k: string) {
    k in Keys(m)
  }

  /** What a Hash always satisfies: no key is stored twice. */
  ghost predicate UniqueKeys<V>(m: Map<V>) {
    forall i, j :: 0 <= i < j < |m| ==> m[i].key != m[j].key
  }

  /** The position of the first occurrence of `k` in `ks`, or -1. */
  function Find(ks: seq<string>, k: string): (i: int)
    ensures -1 <= i < |ks|
  {
    if |ks| == 0 then -1
    else if ks[0] == k then 0
    else
      var j := Find(ks[1..], k);
      if j < 0 then -1 else j + 1
  }

  /** `Find` gives -1 exactly for an absent key, and otherwise the first position holding it. */
  lemma {:induction false} FindSpec(ks: seq<string>, k: string)
    ensures var i := Find(ks, k);
      (i < 0 <==> k !in ks) &&
      (0 <= i ==> ks[i] == k && forall j :: 0 <= j < i ==> ks[j] != k)
    decreases |ks|
  {
    if |ks| > 0 && ks[0] != k {
      FindSpec(ks[1..], k);
      assert k in ks <==> k in ks[1..];
    }
  }

  /** `h[k]`. */
  function Get<V>(m: Map<V>, k: string): Option<V> {
    var i := Find(Keys(m), k);
    if i < 0 then None else Some(m[i].value)
  }

  /** A lookup finds a value exactly when the key is stored. */
  lemma GetSome<V>(m: Map<V>, k: string)
    ensures Get(m, k).Some? <==> HasKey(m, k)
  {
    FindSpec(Keys(m), k);
  }

  /** In a map with unique keys, each entry is what its key looks up. */
  lemma GetAt<V>(m: Map<V>, i: int)
    requires UniqueKeys(m) && 0 <= i < |m|
    ensures Get(m, m[i].key) == Some(m[i].value)
  {
    var ks := Keys(m);
    FindSpec(ks, m[i].key);
    assert ks[i] == m[i].key;
    assert forall j :: 0 <= j < i ==> ks[j] != m[i].key;
    assert Find(ks, m[i].key) == i;
  }

  /** Looking past a first entry with a different key. */
  lemma GetTail<V>(m: Map<V>, k: string)
    requires |m| > 0 && m[0].key != k
    ensures Get(m, k) == Get(m[1..], k)
  {
    assert Keys(m[1..]) == Keys(m)[1..];
  }

  /** `h[k] = v`: a present key keeps its place and takes the new value, an absent key is appended. */
  function Put<V>(m: Map<V>, k: string, v: V): Map<V> {
    var i := Find(Keys(m), k);
    if i < 0 then m + [Entry(k, v)] else m[i := Entry(k, v)]
  }

  /**
   * After `h[k] = v`, `k` looks up `v` and every other key looks up as before;
   * a present key keeps its position, an absent one is appended; no key ends
   * up stored twice.
   */
  lemma PutSpec<V>(m: Map<V>, k: string, v: V)
    ensures var r := Put(m, k, v);
      Get(r, k) == Some(v) &&
      (forall k' :: k' != k ==> Get(r, k') == Get(m, k')) &&
      Keys(r) == (if HasKey(m, k) then Keys(m) else Keys(m) + [k]) &&
      (UniqueKeys(m) ==> UniqueKeys(r))
  {
    var r := Put(m, k, v);
    var i := Find(Keys(m), k);
    FindSpec(Keys(m), k);
    if i < 0 {
      assert r == m + [Entry(k, v)];
      assert Keys(r) == Keys(m) + [k];
      FindSpec(Keys(r), k);
      forall k' | k' != k ensures Get(r, k') == Get(m, k') {
        FindSpec(Keys(m), k');
        FindSpec(Keys(r), k');
        assert forall j :: 0 <= j < |m| ==> Keys(r)[j] == Keys(m)[j];
      }
      forall j | 0 <= j < |m| ensures m[j].key != k {
        assert Keys(m)[j] == m[j].key;
      }
    } else {
      assert Keys(r) == Keys(m)[i := k];
      assert Keys(r) == Keys(m);
      FindSpec(Keys(r), k);
      forall k' | k' != k ensures Get(r, k') == Get(m, k') {
        FindSpec(Keys(m), k');
      }
    }
  }
}
