/** JsonFixer: the best-effort normaliser that the JSON-source converters
    apply to a file before parsing it as an array of objects. */
module JsonFixer {
  import opened Text

  const Backspace: char := '\U{0008}'
  const FormFeed: char := '\U{000C}'

  /** The eight chars that `escapeJsonString` writes as a backslash escape. */
  predicate IsSpecial(c: char)
  {
    c == '"' || c == '\\' || c == '/' || c == Backspace || c == FormFeed
    || c == '\n' || c == '\r' || c == '\t'
  }

  /** The letter written after the backslash for a special char. */
  function EscapeLetter(c: char): char
    requires IsSpecial(c)
  {
    if c == Backspace then 'b'
    else if c == FormFeed then 'f'
    else if c == '\n' then 'n'
    else if c == '\r' then 'r'
    else if c == '\t' then 't'
    else c
  }

  /** What `escapeJsonString` appends for one char. */
  function EscapeChar(c: char): string
  {
    if IsSpecial(c) then ['\\', EscapeLetter(c)] else [c]
  }

  /** What `escapeJsonString` returns: each char in turn replaced by its escape. */
  function Escaped(s: string): string
  {
    if s == [] then [] else Escaped(s[..|s| - 1]) + EscapeChar(s[|s| - 1])
  }

  /** The number of special chars in `s`. */
  function SpecialCount(s: string): nat
  {
    if s == [] then 0 else SpecialCount(s[..|s| - 1]) + (if IsSpecial(s[|s| - 1]) then 1 else 0)
  }

  /** `escapeJsonString`: a loop that appends each char's escape to a builder. */
  method EscapeJsonString(input: string) returns (out: string)
    ensures out == Escaped(input)
  {
    out := [];
    for i := 0 to |input|
      invariant out == Escaped(input[..i])
    {
      var c := input[i];
      if c == '"' {
        out := out + "\\\"";
      } else if c == '\\' {
        out := out + "\\\\";
      } else if c == '/' {
        out := out + "\\/";
      } else if c == Backspace {
        out := out + "\\b";
      } else if c == FormFeed {
        out := out + "\\f";
      } else if c == '\n' {
        out := out + "\\n";
      } else if c == '\r' {
        out := out + "\\r";
      } else if c == '\t' {
        out := out + "\\t";
      } else {
        out := out + [c];
      }
      assert input[..i + 1][..i] == input[..i];
    }
    assert input[..|input|] == input;
  }

  /** Escaping works char by char, so it distributes over concatenation. */
  lemma {:induction false} EscapedAppend(a: string, b: string)
    ensures Escaped(a + b) == Escaped(a) + Escaped(b)
    decreases |b|
  {
    if b != [] {
      var b' := b[..|b| - 1];
      assert (a + b)[..|a + b| - 1] == a + b';
      assert (a + b)[|a + b| - 1] == b[|b| - 1];
      EscapedAppend(a, b');
    } else {
      assert a + b == a;
    }
  }

  /** The output is one char longer than the input for every special char. */
  lemma {:induction false} EscapedLength(s: string)
    ensures |Escaped(s)| == |s| + SpecialCount(s)
    decreases |s|
  {
    if s != [] {
      EscapedLength(s[..|s| - 1]);
    }
  }

  /** A string with no special char is copied unchanged. */
  lemma {:induction false} EscapedPlain(s: string)
    requires forall i :: 0 <= i < |s| ==> !IsSpecial(s[i])
    ensures Escaped(s) == s
    decreases |s|
  {
    if s != [] {
      EscapedPlain(s[..|s| - 1]);
      assert s == s[..|s| - 1] + [s[|s| - 1]];
    }
  }

  // The decoding a JSON parser applies to these escapes: the partner of
  // `Escaped` that shows no information is lost.

  predicate IsEscapeLetter(e: char)
  {
    e == '"' || e == '\\' || e == '/' || e == 'b' || e == 'f' || e == 'n' || e == 'r' || e == 't'
  }

  function UnescapeLetter(e: char): char
    requires IsEscapeLetter(e)
  {
    if e == 'b' then Backspace
    else if e == 'f' then FormFeed
    else if e == 'n' then '\n'
    else if e == 'r' then '\r'
    else if e == 't' then '\t'
    else e
  }

  function Unescape(s: string): string
    decreases |s|
  {
    if s == [] then []
    else if s[0] == '\\' && |s| >= 2 && IsEscapeLetter(s[1]) then [UnescapeLetter(s[1])] + Unescape(s[2..])
    else [s[0]] + Unescape(s[1..])
  }

  /** Decoding the escaped string gives back the input. */
  lemma {:induction false} UnescapeEscaped(s: string)
    ensures Unescape(Escaped(s)) == s
    decreases |s|
  {
    if s != [] {
      var c, rest := s[0], s[1..];
      assert s == [c] + rest;
      EscapedAppend([c], rest);
      assert Escaped([c]) == EscapeChar(c) by {
        assert [c][..0] == [];
      }
      var e := Escaped(rest);
      UnescapeEscaped(rest);
      var out := Escaped(s);
      assert out == EscapeChar(c) + e;
      if IsSpecial(c) {
        assert out == ['\\', EscapeLetter(c)] + e;
        assert IsEscapeLetter(EscapeLetter(c)) && UnescapeLetter(EscapeLetter(c)) == c;
        assert out[2..] == e;
        assert Unescape(out) == [c] + Unescape(e);
      } else {
        assert c != '\\';
        assert out == [c] + e;
        assert out[1..] == e;
        assert Unescape(out) == [c] + Unescape(e);
      }
    }
  }

  // ---------------------------------------------------------------------

  /** `fixJson`: trims the text, then forces it into the shape of a JSON
      array. Every result is non-empty and bracketed by `[` and `]`. */
  function FixJson(json: string): (r: string)
    ensures |r| >= 2 && r[0] == '[' && r[|r| - 1] == ']'
  {
    FixTrimmed(Trim(json))
  }

  /** The tests `fixJson` applies to the trimmed text `t`, in its order. */
  function FixTrimmed(t: string): (r: string)
    ensures |r| >= 2 && r[0] == '[' && r[|r| - 1] == ']'
  {
    FixJsonTests(t);
    if t == [] then "[]"
    else if StartsWith(t, "[") && EndsWith(t, "]") then t
    else if StartsWith(t, "{") && EndsWith(t, "}") then "[" + t + "]"
    else if StartsWith(t, "{") && !EndsWith(t, "}") then "[" + t + "]"
    else if !StartsWith(t, "[") && !StartsWith(t, "{") then "[{\"value\":\"" + Escaped(t) + "\"}]"
    else "[" + t + "]"
  }

  /** The four tests of `FixJson` on the trimmed text, as char comparisons. */
  lemma FixJsonTests(t: string)
    ensures StartsWith(t, "[") <==> |t| >= 1 && t[0] == '['
    ensures StartsWith(t, "{") <==> |t| >= 1 && t[0] == '{'
    ensures EndsWith(t, "]") <==> |t| >= 1 && t[|t| - 1] == ']'
    ensures EndsWith(t, "}") <==> |t| >= 1 && t[|t| - 1] == '}'
  {
    StartsWithChar(t, '[');
    StartsWithChar(t, '{');
    EndsWithChar(t, ']');
    EndsWithChar(t, '}');
  }

  /** Empty or whitespace-only text becomes the empty array. */
  lemma FixJsonBlank(json: string)
    requires forall i :: 0 <= i < |json| ==> json[i] <= ' '
    ensures FixJson(json) == "[]"
  {
  }

  /** Trimmed text already bracketed by `[` and `]` is returned as it is. */
  lemma FixJsonArray(json: string)
    requires Trim(json) != [] && Trim(json)[0] == '[' && Trim(json)[|Trim(json)| - 1] == ']'
    ensures FixJson(json) == Trim(json)
  {
    FixJsonTests(Trim(json));
  }

  /** Trimmed text starting with `{` is wrapped in brackets, whatever its last char. */
  lemma FixJsonObject(json: string)
    requires Trim(json) != [] && Trim(json)[0] == '{'
    ensures FixJson(json) == "[" + Trim(json) + "]"
  {
    FixJsonTests(Trim(json));
  }

  /** Trimmed text starting with neither `[` nor `{` becomes the escaped
      string value of a one-field object in a one-element array. */
  lemma FixJsonScalar(json: string)
    requires Trim(json) != [] && Trim(json)[0] != '[' && Trim(json)[0] != '{'
    ensures FixJson(json) == "[{\"value\":\"" + Escaped(Trim(json)) + "\"}]"
  {
    FixJsonTests(Trim(json));
  }

  /** Trimmed text that starts with `[` but does not end with `]` reaches the
      last fallback and is wrapped in brackets. */
  lemma FixJsonFallback(json: string)
    requires Trim(json) != [] && Trim(json)[0] == '[' && Trim(json)[|Trim(json)| - 1] != ']'
    ensures FixJson(json) == "[" + Trim(json) + "]"
  {
    FixJsonTests(Trim(json));
  }

  /** The fallback is reachable: an unterminated array is one input that gets there. */
  lemma FixJsonFallbackReachable()
    ensures FixJson("[1, 2") == "[[1, 2]"
  {
    var t := "[1, 2";
    assert t[0] == '[' && t[|t| - 1] == '2';
    TrimUnchanged(t);
    FixJsonFallback(t);
  }

  /** Text bracketed by `[` and `]` passes the tests unchanged. */
  lemma FixTrimmedArray(t: string)
    requires |t| >= 2 && t[0] == '[' && t[|t| - 1] == ']'
    ensures FixTrimmed(t) == t
  {
    FixJsonTests(t);
  }

  /** Text bracketed by `[` and `]` is a fixed point of `fixJson`. */
  lemma FixJsonBracketed(x: string)
    requires |x| >= 2 && x[0] == '[' && x[|x| - 1] == ']'
    ensures FixJson(x) == x
  {
    TrimUnchanged(x);
    FixTrimmedArray(x);
  }

  /** A second pass changes nothing. */
  lemma FixJsonIdempotent(json: string)
    ensures FixJson(FixJson(json)) == FixJson(json)
  {
    FixJsonBracketed(FixJson(json));
  }
}
