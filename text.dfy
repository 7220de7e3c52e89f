/**
 * The string built-ins the controller leans on, over `string` (a sequence of UTF-16 code
 * units in JavaScript, of characters here): `String.prototype.trim`, `includes`,
 * `split(sep)[0]`, and the decimal rendering of a number in a template literal.
 */
module Text {

  /** The characters `trim` strips: ECMAScript WhiteSpace and LineTerminator. */
  predicate IsWhitespace(c: char) {
    c == '\t' || c == '\n' || c == '\U{000B}' || c == '\U{000C}' || c == '\r' || c == ' ' ||
    c == '\U{00A0}' || c == '\U{1680}' || ('\U{2000}' <= c <= '\U{200A}') ||
    c == '\U{2028}' || c == '\U{2029}' || c == '\U{202F}' || c == '\U{205F}' ||
    c == '\U{3000}' || c == '\U{FEFF}'
  }

  predicate AllWhitespace(s: string) {
    forall k :: 0 <= k < |s| ==> IsWhitespace(s[k])
  }

  /** `s` without its leading whitespace: a suffix of `s`, cut just before the first other character. */
  function TrimStart(s: string): (r: string)
    ensures |r| <= |s| && r == s[|s| - |r|..]
    ensures AllWhitespace(s[..|s| - |r|])
    ensures r != [] ==> !IsWhitespace(r[0])
  {
    if s != [] && IsWhitespace(s[0]) then TrimStart(s[1..]) else s
  }

  /** `s` without its trailing whitespace: a prefix of `s`, cut just after the last other character. */
  function TrimEnd(s: string): (r: string)
    ensures |r| <= |s| && r == s[..|r|]
    ensures AllWhitespace(s[|r|..])
    ensures r != [] ==> !IsWhitespace(r[|r| - 1])
  {
    if s != [] && IsWhitespace(s[|s| - 1]) then TrimEnd(s[..|s| - 1]) else s
  }

  /** `p` occurs in `s` starting at index `i`. */
  predicate MatchAt(s: string, p: string, i: int) {
    0 <= i <= |s| - |p| && s[i..i + |p|] == p
  }

  /** `s.trim()`: a contiguous piece of `s` with only whitespace cut away on either side. */
  function Trim(s: string): (r: string)
    ensures exists i :: MatchAt(s, r, i) && AllWhitespace(s[..i]) && AllWhitespace(s[i + |r|..])
    ensures r != [] ==> !IsWhitespace(r[0]) && !IsWhitespace(r[|r| - 1])
  {
    var t := TrimStart(s);
    var r := TrimEnd(t);
    TrimmedPiece(s, t, r);
    r
  }

  /** Whitespace cut from the front of `s` and then from the back of what remains leaves a piece of `s`. */
  lemma TrimmedPiece(s: string, t: string, r: string)
    requires |t| <= |s| && t == s[|s| - |t|..] && AllWhitespace(s[..|s| - |t|])
    requires |r| <= |t| && r == t[..|r|] && AllWhitespace(t[|r|..])
    ensures var i := |s| - |t|; MatchAt(s, r, i) && AllWhitespace(s[..i]) && AllWhitespace(s[i + |r|..])
  {
    var i := |s| - |t|;
    assert r == s[i..i + |r|];
    assert s[i + |r|..] == t[|r|..];
  }

  /** `!s.trim()`: the string is falsy once trimmed. */
  predicate IsBlank(s: string) {
    Trim(s) == []
  }

  /** Trimming leaves nothing exactly when every character is whitespace. */
  lemma BlankIffAllWhitespace(s: string)
    ensures IsBlank(s) <==> AllWhitespace(s)
  {
    var t := TrimStart(s);
    if TrimEnd(t) == [] {
      assert t[0..] == t;
      assert s[..|s| - |t|] == s;
    }
    if t != [] {
      assert t[0] == s[|s| - |t|];
    }
  }

  /** `s.includes(p)`: `p` occurs somewhere in `s`. */
  predicate Contains(s: string, p: string) {
    exists i | 0 <= i <= |s| - |p| :: MatchAt(s, p, i)
  }

  /**
   * A prefix that does not hold the pattern's first character cannot take part in a match,
   * so it can be skipped.
   */
  lemma ContainsSkip(a: string, b: string, p: string)
    requires p != [] && p[0] !in a
    ensures Contains(a + b, p) == Contains(b, p)
  {
    forall i | MatchAt(a + b, p, i) ensures MatchAt(b, p, i - |a|) {
      assert (a + b)[i..i + |p|][0] == (a + b)[i];
      assert i >= |a|;
      assert (a + b)[i..i + |p|] == b[i - |a|..i - |a| + |p|];
    }
    forall i | MatchAt(b, p, i) ensures MatchAt(a + b, p, i + |a|) {
      assert (a + b)[i + |a|..i + |a| + |p|] == b[i..i + |p|];
    }
  }

  /** A string without the pattern's first character does not contain the pattern. */
  lemma AbsentFirstChar(s: string, p: string)
    requires p != [] && p[0] !in s
    ensures !Contains(s, p)
  {
    forall i | 0 <= i <= |s| - |p| ensures !MatchAt(s, p, i) {
      assert s[i..i + |p|][0] == s[i];
    }
  }

  /** When the pattern's first character occurs in `s` only at its start, only a match there counts. */
  lemma OnlyMatchAtStart(s: string, p: string)
    requires p != [] && |p| <= |s|
    requires forall k :: 0 < k < |s| ==> s[k] != p[0]
    ensures Contains(s, p) <==> s[..|p|] == p
  {
    forall i | 0 < i <= |s| - |p| ensures !MatchAt(s, p, i) {
      assert s[i..i + |p|][0] == s[i];
    }
    if s[..|p|] == p {
      assert MatchAt(s, p, 0);
    }
  }

  /**
   * `s.split(sep)[0]`: the part of `s` before the first `sep`, or all of `s` when it has none.
   */
  function FirstPiece(s: string, sep: char): (r: string)
    ensures r <= s
    ensures sep !in r
    ensures |r| < |s| ==> s[|r|] == sep
  {
    if s == [] || s[0] == sep then [] else [s[0]] + FirstPiece(s[1..], sep)
  }

  function DigitChar(d: nat): (c: char)
    requires d < 10
    ensures '0' <= c <= '9'
  {
    "0123456789"[d]
  }

  /** A non-negative integer in a template literal: its decimal digits, no leading zeros. */
  function Decimal(n: nat): (r: string)
    ensures |r| >= 1
    ensures forall k :: 0 <= k < |r| ==> '0' <= r[k] <= '9'
    ensures r[|r| - 1] == DigitChar(n % 10)
  {
    if n < 10 then [DigitChar(n)] else Decimal(n / 10) + [DigitChar(n % 10)]
  }

  /** Different numbers print differently. */
  lemma {:induction false} DecimalInjective(s: nat, t: nat)
    requires Decimal(s) == Decimal(t)
    ensures s == t
  {
    if s >= 10 && t >= 10 {
      var a, b := Decimal(s), Decimal(t);
      assert a[..|a| - 1] == Decimal(s / 10) && b[..|b| - 1] == Decimal(t / 10);
      DecimalInjective(s / 10, t / 10);
      DigitCharInjective(s % 10, t % 10);
    } else if s < 10 && t < 10 {
      DigitCharInjective(s, t);
    }
  }

  lemma DigitCharInjective(a: nat, b: nat)
    requires a < 10 && b < 10 && DigitChar(a) == DigitChar(b)
    ensures a == b
  {
  }

  /** A three-digit number prints as its three digits, most significant first. */
  lemma ThreeDigits(n: nat)
    requires 100 <= n < 1000
    ensures Decimal(n) == [DigitChar(n / 100), DigitChar(n / 10 % 10), DigitChar(n % 10)]
  {
    assert Decimal(n / 10) == Decimal(n / 10 / 10) + [DigitChar(n / 10 % 10)];
    assert n / 10 / 10 == n / 100;
  }
}
