/** Cleaning a model reply before parsing it: both handlers evaluate
    `content.replace(/```json\n?/g, '').replace(/```\n?/g, '').trim()`.
    A global replace scans left to right and removes every non-overlapping
    match; each match may swallow one newline right after the token. */
module Fences {

  const JSON_FENCE: string := "```json"
  const FENCE: string := "```"

  predicate StartsWith(s: string, token: string)
  {
    |token| <= |s| && s[..|token|] == token
  }

  /** `s.replace(/<token>\n?/g, '')`. */
  function RemoveAll(s: string, token: string): (r: string)
    requires |token| > 0
    ensures |r| <= |s|
    decreases |s|
  {
    if s == [] then []
    else if StartsWith(s, token) then
      var rest := s[|token|..];
      if rest != [] && rest[0] == '\n' then RemoveAll(rest[1..], token) else RemoveAll(rest, token)
    else [s[0]] + RemoveAll(s[1..], token)
  }

  /** The characters `String.prototype.trim` removes: ECMAScript WhiteSpace
      (tab, vertical tab, form feed, space, no-break space, byte order mark and
      the Unicode space separators) and LineTerminator (LF, CR, U+2028, U+2029). */
  predicate IsWhitespace(c: char)
  {
    var n := c as int;
    (9 <= n <= 13) || n == 0x20 || n == 0xA0 || n == 0x1680 || (0x2000 <= n <= 0x200A)
    || n == 0x2028 || n == 0x2029 || n == 0x202F || n == 0x205F || n == 0x3000 || n == 0xFEFF
  }

  /** Neither end of `s` is whitespace. */
  predicate IsTrimmed(s: string)
  {
    s == [] || (!IsWhitespace(s[0]) && !IsWhitespace(s[|s| - 1]))
  }

  /** Drops leading whitespace: the result is the suffix of `s` that starts at
      its first non-whitespace character. */
  function TrimStart(s: string): (r: string)
    ensures |r| <= |s| && r == s[|s| - |r|..]
    ensures r == [] || !IsWhitespace(r[0])
    ensures forall i :: 0 <= i < |s| - |r| ==> IsWhitespace(s[i])
  {
    if s != [] && IsWhitespace(s[0]) then TrimStart(s[1..]) else s
  }

  /** Drops trailing whitespace: the result is the prefix of `s` that ends at
      its last non-whitespace character. */
  function TrimEnd(s: string): (r: string)
    ensures |r| <= |s| && r == s[..|r|]
    ensures r == [] || !IsWhitespace(r[|r| - 1])
    ensures forall i :: |r| <= i < |s| ==> IsWhitespace(s[i])
  {
    if s != [] && IsWhitespace(s[|s| - 1]) then TrimEnd(s[..|s| - 1]) else s
  }

  /** `s.trim()`. */
  function Trim(s: string): (r: string)
    ensures IsTrimmed(r)
  {
    TrimEnd(TrimStart(s))
  }

  /** The cleaning expression shared by both handlers. */
  function Clean(content: string): string
  {
    Trim(RemoveAll(RemoveAll(content, JSON_FENCE), FENCE))
  }

  /** A reply wrapped the way a model usually wraps JSON. */
  function Fenced(json: string): string
  {
    "```json\n" + json + "\n```"
  }

  predicate IsFenceAt(s: string, i: int)
  {
    0 <= i && i + 3 <= |s| && s[i] == '`' && s[i + 1] == '`' && s[i + 2] == '`'
  }

  /** `s` has no three consecutive backticks. */
  predicate NoFence(s: string)
  {
    forall i :: 0 <= i < |s| ==> !IsFenceAt(s, i)
  }

  predicate NoBacktick(s: string)
  {
    forall i :: 0 <= i < |s| ==> s[i] != '`'
  }

  /** After the second removal no fence is left, because the scan removes the
      leftmost one each time: the output can start with one or two backticks
      only where the input did, so a fence can never be formed across the
      place where a match was cut out. */
  lemma {:induction false} RemoveFenceLeavesNone(s: string)
    ensures NoFence(RemoveAll(s, FENCE))
    ensures var r := RemoveAll(s, FENCE);
            (|r| >= 1 && r[0] == '`' ==> |s| >= 1 && s[0] == '`')
            && (|r| >= 2 && r[0] == '`' && r[1] == '`' ==> |s| >= 2 && s[0] == '`' && s[1] == '`')
    decreases |s|
  {
    if s == [] {
    } else if StartsWith(s, FENCE) {
      var rest := s[3..];
      if rest != [] && rest[0] == '\n' {
        RemoveFenceLeavesNone(rest[1..]);
      } else {
        RemoveFenceLeavesNone(rest);
      }
    } else {
      var t := s[1..];
      RemoveFenceLeavesNone(t);
      var tail := RemoveAll(t, FENCE);
      var r := RemoveAll(s, FENCE);
      assert r == [s[0]] + tail;
      forall i | 0 <= i < |r| ensures !IsFenceAt(r, i) {
        if i > 0 {
          assert !IsFenceAt(tail, i - 1);
        }
      }
    }
  }

  /** Trimming cuts a slice out of `s`, so it creates no fence. */
  lemma TrimKeepsNoFence(s: string)
    requires NoFence(s)
    ensures NoFence(Trim(s))
  {
    var a := TrimStart(s);
    var d := |s| - |a|;
    forall i | 0 <= i < |a| ensures !IsFenceAt(a, i) {
      assert !IsFenceAt(s, i + d);
    }
    var b := TrimEnd(a);
    forall i | 0 <= i < |b| ensures !IsFenceAt(b, i) {
      assert !IsFenceAt(a, i);
    }
  }

  /** The cleaned text never contains three consecutive backticks. */
  lemma CleanLeavesNoFence(content: string)
    ensures NoFence(Clean(content))
  {
    RemoveFenceLeavesNone(RemoveAll(content, JSON_FENCE));
    TrimKeepsNoFence(RemoveAll(RemoveAll(content, JSON_FENCE), FENCE));
  }

  /** A token that starts with three backticks never matches in fence-free
      text, so removing it changes nothing. */
  lemma {:induction false} RemoveAbsentToken(s: string, token: string)
    requires |token| >= 3 && token[..3] == FENCE
    requires NoFence(s)
    ensures RemoveAll(s, token) == s
    decreases |s|
  {
    if s != [] {
      if StartsWith(s, token) {
        assert s[..3] == token[..3];
        assert IsFenceAt(s, 0);
        assert false;
      }
      assert forall i :: 0 <= i < |s| - 1 ==> IsFenceAt(s[1..], i) == IsFenceAt(s, i + 1);
      RemoveAbsentToken(s[1..], token);
    }
  }

  lemma {:induction false} TrimStartOfTrimmed(s: string)
    requires IsTrimmed(s)
    ensures TrimStart(s) == s && TrimEnd(s) == s
  {
  }

  /** Cleaning is idempotent: cleaned text is fence-free and trimmed, so a
      second pass finds nothing to remove. */
  lemma CleanIdempotent(content: string)
    ensures Clean(Clean(content)) == Clean(content)
  {
    var c := Clean(content);
    CleanLeavesNoFence(content);
    RemoveAbsentToken(c, JSON_FENCE);
    RemoveAbsentToken(c, FENCE);
    TrimStartOfTrimmed(c);
  }

  lemma {:induction false} RemoveSkipsBacktickFree(x: string, y: string, token: string)
    requires |token| > 0 && token[0] == '`'
    requires NoBacktick(x)
    ensures RemoveAll(x + y, token) == x + RemoveAll(y, token)
    decreases |x|
  {
    if x == [] {
      assert x + y == y;
    } else {
      var s := x + y;
      assert s[0] == x[0] && s[1..] == x[1..] + y;
      assert RemoveAll(s, token) == [x[0]] + RemoveAll(x[1..] + y, token);
      RemoveSkipsBacktickFree(x[1..], y, token);
      assert [x[0]] + (x[1..] + RemoveAll(y, token)) == x + RemoveAll(y, token);
    }
  }

  lemma RemoveFromBacktickFree(x: string, token: string)
    requires |token| > 0 && token[0] == '`'
    requires NoBacktick(x)
    ensures RemoveAll(x, token) == x
  {
    RemoveSkipsBacktickFree(x, [], token);
    assert x + [] == x;
  }

  const CLOSING: string := "\n```"

  lemma StripJsonFence(json: string)
    requires NoBacktick(json)
    ensures RemoveAll(Fenced(json), JSON_FENCE) == json + CLOSING
  {
    var f := Fenced(json);
    assert StartsWith(f, JSON_FENCE);
    assert f[|JSON_FENCE|..] == "\n" + json + CLOSING;
    assert ("\n" + json + CLOSING)[1..] == json + CLOSING;
    RemoveSkipsBacktickFree(json, CLOSING, JSON_FENCE);
    assert RemoveAll(CLOSING, JSON_FENCE) == CLOSING by {
      assert !StartsWith(CLOSING, JSON_FENCE);
      assert CLOSING[1..] == "```";
      assert RemoveAll("```", JSON_FENCE) == "```" by {
        assert !StartsWith("```", JSON_FENCE);
        assert "```"[1..] == "``";
        assert !StartsWith("``", JSON_FENCE);
        assert "``"[1..] == "`";
        assert !StartsWith("`", JSON_FENCE);
        assert "`"[1..] == "";
      }
    }
  }

  lemma StripClosingFence(json: string)
    requires NoBacktick(json)
    ensures RemoveAll(json + CLOSING, FENCE) == json + "\n"
  {
    RemoveSkipsBacktickFree(json, CLOSING, FENCE);
    assert !StartsWith(CLOSING, FENCE);
    assert CLOSING[1..] == FENCE;
    assert StartsWith(FENCE, FENCE);
    assert FENCE[3..] == "";
  }

  lemma TrimDropsNewline(json: string)
    requires IsTrimmed(json)
    ensures Trim(json + "\n") == json
  {
    var w := json + "\n";
    if json == [] {
      assert w[1..] == [];
      assert TrimStart(w) == [];
    } else {
      assert w[0] == json[0];
      assert TrimStart(w) == w;
      assert w[..|w| - 1] == json;
      assert TrimEnd(w) == TrimEnd(json);
      TrimStartOfTrimmed(json);
    }
  }

  /** Stripping a fenced reply yields exactly the JSON inside the fence, and
      cleaning the bare JSON leaves it as it is, provided the JSON contains no
      backtick and is already trimmed. */
  lemma CleanFenced(json: string)
    requires NoBacktick(json) && IsTrimmed(json)
    ensures Clean(Fenced(json)) == json
    ensures Clean(json) == json
  {
    StripJsonFence(json);
    StripClosingFence(json);
    TrimDropsNewline(json);
    RemoveFromBacktickFree(json, JSON_FENCE);
    RemoveFromBacktickFree(json, FENCE);
    TrimStartOfTrimmed(json);
  }
}
