/**
 * The `.env` text that `prepare` writes: one `key=value` line per entry of
 * `@envs`, in map order, joined with "\n" (so no newline after the last
 * line), and a reader for that format to state what the text holds.
 */
module EnvFile {
  import opened Wrappers
  import opened OrderedMap
  import opened Envs
  import opened Names

  /** One line of `.env`: the key, '=', and the value, where nil interpolates as the empty string. */
  function Line(e: Entry<Option<string>>): string {
    e.key + "=" + e.value.GetOr("")
  }

  /** `lines.join("\n")`. */
  function Join(lines: seq<string>): string
    decreases |lines|
  {
    if |lines| == 0 then ""
    else if |lines| == 1 then lines[0]
    else lines[0] + "\n" + Join(lines[1..])
  }

  function Lines(env: Env): seq<string> {
    seq(|env|, i requires 0 <= i < |env| => Line(env[i]))
  }

  /** The content of the `.env` file. */
  function Render(env: Env): string {
    Join(Lines(env))
  }

  /** A text cut at every "\n": the fields between the separators, empty ones included. */
  function SplitLines(s: string): (r: seq<string>)
    ensures |r| >= 1
    decreases |s|
  {
    if |s| == 0 then [""]
    else
      var rest := SplitLines(s[1..]);
      if s[0] == '\n' then [""] + rest else [[s[0]] + rest[0]] + rest[1..]
  }

  /** Reading a `.env` text back: no lines for the empty text, otherwise each line split at its first '='. */
  function Parse(text: string): Map<string> {
    if text == "" then []
    else
      var lines := SplitLines(text);
      seq(|lines|, i requires 0 <= i < |lines| =>
        var kv := SplitAtFirst(lines[i], '='); Entry(kv.0, kv.1))
  }

  /** An entry whose line reads back as itself: no "\n" anywhere, no '=' in the key. */
  predicate LineSafe(e: Entry<Option<string>>) {
    '\n' !in e.key && '=' !in e.key && '\n' !in e.value.GetOr("")
  }

  /** What reading back should give: each key with its value, nil read as the empty string. */
  function AsWritten(env: Env): Map<string> {
    seq(|env|, i requires 0 <= i < |env| => Entry(env[i].key, env[i].value.GetOr("")))
  }

  // ---------------------------------------------------------------------------

  lemma {:induction false} SplitNoNewline(l: string)
    requires '\n' !in l
    ensures SplitLines(l) == [l]
    decreases |l|
  {
    if |l| > 0 {
      SplitNoNewline(l[1..]);
      assert [l[0]] + l[1..] == l;
    }
  }

  lemma {:induction false} SplitAfterLine(l: string, t: string)
    requires '\n' !in l
    ensures SplitLines(l + "\n" + t) == [l] + SplitLines(t)
    decreases |l|
  {
    var s := l + "\n" + t;
    if |l| == 0 {
      assert s[1..] == t;
    } else {
      assert s[1..] == l[1..] + "\n" + t;
      SplitAfterLine(l[1..], t);
      assert [l[0]] + l[1..] == l;
    }
  }

  /** Joining lines that hold no "\n" and cutting the text again gives the lines back. */
  lemma {:induction false} SplitJoin(lines: seq<string>)
    requires |lines| >= 1
    requires forall i :: 0 <= i < |lines| ==> '\n' !in lines[i]
    ensures SplitLines(Join(lines)) == lines
    decreases |lines|
  {
    if |lines| == 1 {
      SplitNoNewline(lines[0]);
    } else {
      SplitJoin(lines[1..]);
      SplitAfterLine(lines[0], Join(lines[1..]));
    }
  }

  /** Cutting any text at its newlines and joining the pieces gives the text back. */
  lemma {:induction false} JoinSplit(s: string)
    ensures Join(SplitLines(s)) == s
    decreases |s|
  {
    if |s| > 0 {
      var rest := SplitLines(s[1..]);
      JoinSplit(s[1..]);
      if s[0] == '\n' {
        assert ([""] + rest)[1..] == rest;
      } else if |rest| > 1 {
        assert ([[s[0]] + rest[0]] + rest[1..])[1..] == rest[1..];
      }
    }
  }

  /** The `.env` text has one line per entry, and reading it back gives every key with its value. */
  lemma RenderRoundTrip(env: Env)
    requires forall i :: 0 <= i < |env| ==> LineSafe(env[i])
    ensures Parse(Render(env)) == AsWritten(env)
    ensures |env| > 0 ==> |SplitLines(Render(env))| == |env|
  {
    if |env| > 0 {
      var lines := Lines(env);
      forall i | 0 <= i < |lines| ensures '\n' !in lines[i] {
        assert lines[i] == env[i].key + ("=" + env[i].value.GetOr(""));
      }
      SplitJoin(lines);
      assert Render(env) != "" by { JoinNonEmpty(lines); }
      forall i | 0 <= i < |env| ensures SplitAtFirst(lines[i], '=') == (env[i].key, env[i].value.GetOr("")) {
        SplitAtFirstJoin(env[i].key, '=', env[i].value.GetOr(""));
      }
    }
  }

  lemma {:induction false} JoinNonEmpty(lines: seq<string>)
    requires |lines| >= 1 && lines[0] != ""
    ensures Join(lines) != "" && Join(lines)[0] == lines[0][0]
  {
  }

  lemma {:induction false} JoinLast(lines: seq<string>)
    requires |lines| >= 1
    ensures |Join(lines)| >= |lines[|lines| - 1]|
    ensures Join(lines)[|Join(lines)| - |lines[|lines| - 1]|..] == lines[|lines| - 1]
    decreases |lines|
  {
    if |lines| > 1 {
      JoinLast(lines[1..]);
    }
  }

  /** The text ends with the last entry's line: `join` adds no newline after it. */
  lemma RenderEndsWithLastLine(env: Env)
    requires |env| > 0
    ensures var text := Render(env); var last := Line(env[|env| - 1]);
      |text| >= |last| > 0 && text[|text| - |last|..] == last
    ensures LineSafe(env[|env| - 1]) ==> Render(env)[|Render(env)| - 1] != '\n'
  {
    var text, last := Render(env), Line(env[|env| - 1]);
    JoinLast(Lines(env));
    assert text[|text| - 1] == text[|text| - |last|..][|last| - 1];
    assert last == env[|env| - 1].key + ("=" + env[|env| - 1].value.GetOr(""));
  }

  lemma RenderEmpty()
    ensures Render([]) == ""
  {
  }
}
