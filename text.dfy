/** String helpers that the client and the server share: ECMAScript white space
    (`\s` in a regular expression, and `String.prototype.trim`), Python's
    `s.split(sep)[-1]` and ASCII lower-casing. */
module Text {

  /** ECMAScript WhiteSpace and LineTerminator code points: the characters `\s`
      matches and `trim()` removes. */
  predicate IsJsWhitespace(c: char) {
    c == '\t' || c == '\n' || c == '\U{000B}' || c == '\U{000C}' || c == '\r' || c == ' '
    || c == '\U{00A0}' || c == '\U{1680}' || ('\U{2000}' <= c <= '\U{200A}')
    || c == '\U{2028}' || c == '\U{2029}' || c == '\U{202F}' || c == '\U{205F}'
    || c == '\U{3000}' || c == '\U{FEFF}'
  }

  predicate IsBlank(s: string) {
    forall i :: 0 <= i < |s| ==> IsJsWhitespace(s[i])
  }

  /** `s` without its longest all-white-space prefix. */
  function TrimStart(s: string): (r: string)
    ensures |r| <= |s| && r == s[|s| - |r|..]
    ensures IsBlank(s[..|s| - |r|])
    ensures |r| > 0 ==> !IsJsWhitespace(r[0])
  {
    if |s| > 0 && IsJsWhitespace(s[0]) then TrimStart(s[1..]) else s
  }

  /** `s` without its longest all-white-space suffix. */
  function TrimEnd(s: string): (r: string)
    ensures |r| <= |s| && r == s[..|r|]
    ensures IsBlank(s[|r|..])
    ensures |r| > 0 ==> !IsJsWhitespace(r[|r| - 1])
  {
    if |s| > 0 && IsJsWhitespace(s[|s| - 1]) then TrimEnd(s[..|s| - 1]) else s
  }

  /** `s.trim()`. */
  function Trim(s: string): string {
    TrimEnd(TrimStart(s))
  }

  /** `!s.trim()` holds exactly for the strings made only of white space. */
  lemma {:induction false} TrimEmptyIffBlank(s: string)
    ensures Trim(s) == "" <==> IsBlank(s)
  {
    var t := TrimStart(s);
    assert s == s[..|s| - |t|] + t;
    if TrimEnd(t) == "" {
      assert t[0..] == t;
    }
  }

  /** Trimming twice is trimming once. */
  lemma TrimIdempotent(s: string)
    ensures Trim(Trim(s)) == Trim(s)
  {
    var t := Trim(s);
    if |t| > 0 {
      assert !IsJsWhitespace(t[0]) by {
        var u := TrimStart(s);
        assert t == u[..|t|];
      }
      assert TrimStart(t) == t;
      assert TrimEnd(t) == t;
    }
  }

  /** Python's `s.split(sep)[-1]`: the text after the last `sep`, or all of
      `s` when `sep` does not occur. */
  function AfterLast(s: string, sep: char): (r: string)
    ensures |r| <= |s| && r == s[|s| - |r|..]
    ensures sep !in r
    ensures |r| < |s| ==> s[|s| - |r| - 1] == sep
  {
    if |s| == 0 then ""
    else if s[|s| - 1] == sep then ""
    else AfterLast(s[..|s| - 1], sep) + [s[|s| - 1]]
  }

  /** When `sep` is absent, the last piece of the split is the whole string. */
  lemma AfterLastAbsent(s: string, sep: char)
    requires sep !in s
    ensures AfterLast(s, sep) == s
  {
  }

  /** Whatever precedes a `sep`, the last piece is decided by what follows it. */
  lemma {:induction false} AfterLastOfJoin(prefix: string, sep: char, last: string)
    ensures AfterLast(prefix + [sep] + last, sep) == AfterLast(last, sep)
  {
    if |last| > 0 {
      var init, c := last[..|last| - 1], last[|last| - 1];
      assert last == init + [c];
      assert prefix + [sep] + last == (prefix + [sep] + init) + [c];
      AfterLastSnoc(prefix + [sep] + init, c, sep);
      AfterLastSnoc(init, c, sep);
      AfterLastOfJoin(prefix, sep, init);
    } else {
      AfterLastSnoc(prefix, sep, sep);
    }
  }

  lemma AfterLastSnoc(s: string, c: char, sep: char)
    ensures AfterLast(s + [c], sep) == if c == sep then "" else AfterLast(s, sep) + [c]
  {
    assert (s + [c])[..|s|] == s;
  }

  function LowerAsciiChar(c: char): char {
    if 'A' <= c <= 'Z' then (c as int - 'A' as int + 'a' as int) as char else c
  }

  /** `s.lower()`, restricted to ASCII letters. */
  function LowerAscii(s: string): (r: string)
    ensures |r| == |s|
    ensures forall i :: 0 <= i < |s| ==> r[i] == LowerAsciiChar(s[i])
  {
    seq(|s|, i requires 0 <= i < |s| => LowerAsciiChar(s[i]))
  }
}
