/** The strings `Deploy` derives from the project name, and the random-hex oracle. */
module Names {

  /** Position of the first occurrence of `c` in `s`, or |s| when there is none. */
  function FirstIndexOf(s: string, c: char): (i: nat)
    ensures i <= |s|
    ensures forall j :: 0 <= j < i ==> s[j] != c
    ensures i < |s| ==> s[i] == c
  {
    if |s| == 0 || s[0] == c then 0 else 1 + FirstIndexOf(s[1..], c)
  }

  /** `s` cut at its first `c`: what comes before it and what comes after it (empty when there is no `c`). */
  function SplitAtFirst(s: string, c: char): (string, string) {
    var i := FirstIndexOf(s, c);
    (s[..i], if i < |s| then s[i + 1..] else "")
  }

  /** A text built as `a`, `c`, `b` with no `c` in `a` splits back into `a` and `b`. */
  lemma {:induction false} SplitAtFirstJoin(a: string, c: char, b: string)
    requires c !in a
    ensures SplitAtFirst(a + [c] + b, c) == (a, b)
  {
    var s := a + [c] + b;
    assert s[|a|] == c;
    assert forall j :: 0 <= j < |a| ==> s[j] == a[j];
    var i := FirstIndexOf(s, c);
    assert i == |a|;
    assert s[..i] == a && s[i + 1..] == b;
  }

  /**
   * Ruby's `s.sub(from, to)` for one-character strings: only the first
   * occurrence of `from` is replaced.
   */
  function ReplaceFirst(s: string, from: char, to: char): string
    decreases |s|
  {
    if |s| == 0 then s
    else if s[0] == from then [to] + s[1..]
    else [s[0]] + ReplaceFirst(s[1..], from, to)
  }

  /** `sub` keeps the length and changes only the first occurrence of `from`, to `to`. */
  lemma {:induction false} ReplaceFirstSpec(s: string, from: char, to: char)
    ensures |ReplaceFirst(s, from, to)| == |s|
    ensures forall j :: 0 <= j < |s| ==>
      ReplaceFirst(s, from, to)[j] == if j == FirstIndexOf(s, from) then to else s[j]
    decreases |s|
  {
    if |s| > 0 && s[0] != from {
      ReplaceFirstSpec(s[1..], from, to);
      var r := ReplaceFirst(s, from, to);
      forall j | 1 <= j < |s| ensures r[j] == if j == FirstIndexOf(s, from) then to else s[j] {
        assert r[j] == ReplaceFirst(s[1..], from, to)[j - 1];
      }
    }
  }

  /** No occurrence of `from`: `sub` changes nothing. */
  lemma ReplaceFirstAbsent(s: string, from: char, to: char)
    requires from !in s
    ensures ReplaceFirst(s, from, to) == s
  {
    ReplaceFirstSpec(s, from, to);
    assert FirstIndexOf(s, from) == |s|;
  }

  /** An occurrence of `from`: the result differs from `s` at exactly that first position. */
  lemma ReplaceFirstPresent(s: string, from: char, to: char)
    requires from in s
    ensures var i := FirstIndexOf(s, from);
      i < |s| && ReplaceFirst(s, from, to) == s[..i] + [to] + s[i + 1..]
  {
    var i := FirstIndexOf(s, from);
    assert i < |s| by {
      var k :| 0 <= k < |s| && s[k] == from;
      assert i <= k;
    }
    assert ReplaceFirst(s, from, to) == s[..i] + [to] + s[i + 1..] by {
      var r, t := ReplaceFirst(s, from, to), s[..i] + [to] + s[i + 1..];
      ReplaceFirstSpec(s, from, to);
      forall j | 0 <= j < |s| ensures r[j] == t[j] {
        if j < i {
          assert t[j] == s[..i][j];
        } else if j > i {
          assert t[j] == s[i + 1..][j - i - 1];
        }
      }
    }
  }

  /** `image`: the repository prefix, the project name with its first '_' turned into '-', and "web", joined by '/'. */
  function Image(prefix: string, projectName: string): string {
    prefix + "/" + ReplaceFirst(projectName, '_', '-') + "/web"
  }

  /** `postgres_db`. */
  function PostgresDb(projectName: string): string {
    projectName + "_production"
  }

  /** `postgres_user`. */
  function PostgresUser(projectName: string): string {
    projectName + "_user"
  }

  predicate IsHexDigit(c: char) {
    '0' <= c <= '9' || 'a' <= c <= 'f'
  }

  /** The form of every `SecureRandom.hex(n)` result: 2n lower-case hex digits. */
  predicate IsHex(s: string, n: nat) {
    |s| == 2 * n && forall i :: 0 <= i < |s| ==> IsHexDigit(s[i])
  }

  /**
   * The image reference is the prefix and '/', then the project name with
   * only its first '_' (if any) turned into '-', then "/web".
   */
  lemma ImageShape(prefix: string, projectName: string)
    ensures var img := Image(prefix, projectName);
      |img| == |prefix| + |projectName| + 5 &&
      img[..|prefix| + 1] == prefix + "/" &&
      img[|img| - 4..] == "/web" &&
      forall j :: 0 <= j < |projectName| ==>
        img[|prefix| + 1 + j] == if j == FirstIndexOf(projectName, '_') then '-' else projectName[j]
  {
    var img := Image(prefix, projectName);
    var mid := ReplaceFirst(projectName, '_', '-');
    ReplaceFirstSpec(projectName, '_', '-');
    assert img == (prefix + "/") + mid + "/web";
    forall j | 0 <= j < |projectName|
      ensures img[|prefix| + 1 + j] == if j == FirstIndexOf(projectName, '_') then '-' else projectName[j]
    {
      assert img[|prefix| + 1 + j] == mid[j];
    }
  }

  lemma ImageExample()
    ensures Image("registry.example.com", "a_b_c") == "registry.example.com/a-b_c/web"
  {
    assert ReplaceFirst("a_b_c", '_', '-') == "a-b_c" by {
      ReplaceFirstPresent("a_b_c", '_', '-');
      assert FirstIndexOf("a_b_c", '_') == 1;
    }
  }

  /** Distinct project names give distinct database and user names, and the two never coincide. */
  lemma PostgresNamesDistinct(a: string, b: string)
    ensures PostgresDb(a) == PostgresDb(b) ==> a == b
    ensures PostgresUser(a) == PostgresUser(b) ==> a == b
    ensures PostgresDb(a) != PostgresUser(b)
  {
    if PostgresDb(a) == PostgresDb(b) {
      assert a == PostgresDb(a)[..|a|];
    }
    if PostgresUser(a) == PostgresUser(b) {
      assert a == PostgresUser(a)[..|a|];
    }
    if |PostgresDb(a)| == |PostgresUser(b)| {
      var n := |PostgresDb(a)|;
      assert PostgresDb(a)[n - 2] == 'o';
      assert PostgresUser(b)[n - 2] == 'e';
    }
  }
}
