/** Character classes and string helpers of the ECMAScript runtime that the
    sidebar's todo model relies on: `String.prototype.trim`, the regular
    expression classes `\s` and `.`, and `String.prototype.length`. */
module Text {

  /** The four ECMAScript line terminators. Outside `s` mode the regular
      expression atom `.` matches any code unit except these. */
  predicate IsLineTerminator(c: char) {
    c == '\n' || c == '\r' || c == '\U{2028}' || c == '\U{2029}'
  }

  /** ECMAScript WhiteSpace and LineTerminator code points: exactly what
      `trim()` strips and what `\s` matches. */
  predicate IsWhitespace(c: char) {
    IsLineTerminator(c)
    || c == '\t' || c == '\U{000B}' || c == '\U{000C}' || c == ' '
    || c == '\U{00A0}' || c == '\U{1680}'
    || ('\U{2000}' <= c <= '\U{200A}')
    || c == '\U{202F}' || c == '\U{205F}' || c == '\U{3000}' || c == '\U{FEFF}'
  }

  predicate AllWhitespace(s: string) {
    forall i :: 0 <= i < |s| ==> IsWhitespace(s[i])
  }

  /** A character that JavaScript stores as one UTF-16 code unit. */
  predicate IsSingleCodeUnit(c: char) {
    c as int < 0x1_0000
  }

  /** Drops leading whitespace. */
  function TrimStart(s: string): (r: string)
    ensures |r| <= |s| && r == s[|s| - |r|..]
    ensures r == [] || !IsWhitespace(r[0])
    ensures AllWhitespace(s[..|s| - |r|])
  {
    if |s| > 0 && IsWhitespace(s[0]) then
      var r := TrimStart(s[1..]);
      assert s[..|s| - |r|] == [s[0]] + s[1..][..|s| - 1 - |r|];
      r
    else s
  }

  /** Drops trailing whitespace. */
  function TrimEnd(s: string): (r: string)
    ensures |r| <= |s| && r == s[..|r|]
    ensures r == [] || !IsWhitespace(r[|r| - 1])
    ensures AllWhitespace(s[|r|..])
  {
    if |s| > 0 && IsWhitespace(s[|s| - 1]) then
      var r := TrimEnd(s[..|s| - 1]);
      assert s[|r|..] == s[..|s| - 1][|r|..] + [s[|s| - 1]];
      r
    else s
  }

  /** `String.prototype.trim`: whitespace removed from both ends. */
  function Trim(s: string): string {
    TrimEnd(TrimStart(s))
  }

  /** `trim()` yields the empty string exactly when the input is all
      whitespace; this is what makes `!text.trim()` true. */
  lemma TrimEmptyIff(s: string)
    ensures Trim(s) == [] <==> AllWhitespace(s)
  {
    var t := TrimStart(s);
    if Trim(s) == [] {
      assert t == t[|TrimEnd(t)|..];
      forall i | 0 <= i < |s| ensures IsWhitespace(s[i]) {
        assert s[i] == s[..|s| - |t|][i];
      }
    } else {
      var r := Trim(s);
      assert r[0] == t[0] == s[|s| - |t|];
    }
  }

  /** The result of `trim()` neither starts nor ends with whitespace. */
  lemma TrimHasNoOuterWhitespace(s: string)
    ensures Trim(s) == [] || (!IsWhitespace(Trim(s)[0]) && !IsWhitespace(Trim(s)[|Trim(s)| - 1]))
  {
    var t := TrimStart(s);
    var r := TrimEnd(t);
    if r != [] {
      assert r[0] == t[0];
    }
  }

  /** `String.prototype.length`: the number of UTF-16 code units, so a
      character outside the Basic Multilingual Plane counts twice. */
  function Utf16Length(s: string): (n: nat)
    ensures |s| <= n <= 2 * |s|
    ensures (forall i :: 0 <= i < |s| ==> IsSingleCodeUnit(s[i])) ==> n == |s|
  {
    if s == [] then 0
    else (if IsSingleCodeUnit(s[0]) then 1 else 2) + Utf16Length(s[1..])
  }
}
