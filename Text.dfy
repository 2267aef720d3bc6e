/** The string operations the dashboard script relies on: JavaScript's
    `trim`, `toLowerCase`, `includes`, `join`, `String(n)` of a record id,
    and the order of the default `sort`, taken on characters (code points)
    rather than UTF-16 code units. */
module Text {

  /** The characters JavaScript's `String.prototype.trim` removes: the
      WhiteSpace and LineTerminator productions of ECMAScript. */
  predicate IsJsWhitespace(c: char)
  {
    || c == '\t' || c == '\n' || c == '\U{000B}' || c == '\U{000C}' || c == '\r'
    || c == ' ' || c == '\U{00A0}' || c == '\U{1680}' || ('\U{2000}' <= c <= '\U{200A}')
    || c == '\U{2028}' || c == '\U{2029}' || c == '\U{202F}' || c == '\U{205F}'
    || c == '\U{3000}' || c == '\U{FEFF}'
  }

  ghost predicate AllWhitespace(s: string)
  {
    forall i :: 0 <= i < |s| ==> IsJsWhitespace(s[i])
  }

  /** Drops the leading whitespace: the result is the suffix of `s` that
      starts at the first non-whitespace character. */
  function TrimStart(s: string): (r: string)
    ensures |r| <= |s| && r == s[|s| - |r|..]
    ensures forall i :: 0 <= i < |s| - |r| ==> IsJsWhitespace(s[i])
    ensures r == [] || !IsJsWhitespace(r[0])
  {
    if |s| > 0 && IsJsWhitespace(s[0]) then
      TrimStart(s[1..])
    else
      s
  }

  /** Drops the trailing whitespace: the result is the prefix of `s` that
      ends at the last non-whitespace character. */
  function TrimEnd(s: string): (r: string)
    ensures |r| <= |s| && r == s[..|r|]
    ensures forall i :: |r| <= i < |s| ==> IsJsWhitespace(s[i])
    ensures r == [] || !IsJsWhitespace(r[|r| - 1])
  {
    if |s| > 0 && IsJsWhitespace(s[|s| - 1]) then
      TrimEnd(s[..|s| - 1])
    else
      s
  }

  /** JavaScript's `trim`: `s` without its leading and trailing whitespace.
      The result is empty exactly when `s` is all whitespace, and otherwise
      neither starts nor ends with whitespace. */
  function Trim(s: string): (r: string)
    ensures exists a, b :: 0 <= a <= b <= |s| && r == s[a..b] && AllWhitespace(s[..a]) && AllWhitespace(s[b..])
    ensures r == [] <==> AllWhitespace(s)
    ensures r == [] || (!IsJsWhitespace(r[0]) && !IsJsWhitespace(r[|r| - 1]))
  {
    TrimEmptyIff(s);
    TrimIsSlice(s);
    TrimEnd(TrimStart(s))
  }

  /** The trimmed text is the slice of `s` between its whitespace ends. */
  lemma TrimIsSlice(s: string)
    ensures exists a, b :: 0 <= a <= b <= |s| && TrimEnd(TrimStart(s)) == s[a..b] && AllWhitespace(s[..a]) && AllWhitespace(s[b..])
  {
    var t := TrimStart(s);
    var r := TrimEnd(t);
    var a := |s| - |t|;
    var k := |r|;
    var b := a + k;
    assert t == s[a..];
    assert r == t[..k];
    assert AllWhitespace(s[..a]);
    WhitespaceTail(s, t, a, k);
  }

  /** A prefix of the suffix `t` of `s` is a slice of `s`; when `t` is
      whitespace after that prefix, so is `s`. */
  lemma WhitespaceTail(s: string, t: string, a: nat, k: nat)
    requires a <= |s| && t == s[a..] && k <= |t|
    requires forall i :: k <= i < |t| ==> IsJsWhitespace(t[i])
    ensures t[..k] == s[a..a + k]
    ensures AllWhitespace(s[a + k..])
  {
    var u := s[a + k..];
    forall i | 0 <= i < |u|
      ensures IsJsWhitespace(u[i])
    {
      assert u[i] == t[k + i];
    }
  }

  lemma TrimEmptyIff(s: string)
    ensures TrimEnd(TrimStart(s)) == [] <==> AllWhitespace(s)
    ensures TrimEnd(TrimStart(s)) == [] || !IsJsWhitespace(TrimEnd(TrimStart(s))[0])
  {
    var t := TrimStart(s);
    var k := |s| - |t|;
    var r := TrimEnd(t);
    if r == [] {
      // t is all whitespace yet does not start with whitespace, so it is empty
      assert t == [];
    } else {
      assert t[0] == s[k];
      assert r[0] == t[0];
    }
  }

  /** A string that neither starts nor ends with whitespace is its own trim. */
  lemma TrimmedIsFixed(s: string)
    requires s == [] || (!IsJsWhitespace(s[0]) && !IsJsWhitespace(s[|s| - 1]))
    ensures Trim(s) == s
  {
  }

  /** ASCII letters, the only characters `Lower` changes. */
  predicate IsAsciiUpper(c: char)
  {
    'A' <= c <= 'Z'
  }

  /** A capital becomes the letter 32 code points above it, which is its
      lower-case letter; every other character is kept. */
  function LowerChar(c: char): (r: char)
    ensures !IsAsciiUpper(r)
    ensures IsAsciiUpper(c) ==> r as int == c as int + 32
    ensures !IsAsciiUpper(c) ==> r == c
  {
    if IsAsciiUpper(c) then (c as int + 32) as char else c
  }

  /** JavaScript's `toLowerCase`, restricted to ASCII letters. Characters
      without case (Thai script, digits, punctuation) are left unchanged. */
  function Lower(s: string): (r: string)
    ensures |r| == |s|
    ensures forall i :: 0 <= i < |r| ==> !IsAsciiUpper(r[i])
    ensures forall i :: 0 <= i < |s| && IsAsciiUpper(s[i]) ==> r[i] as int == s[i] as int + 32
    ensures forall i :: 0 <= i < |s| && !IsAsciiUpper(s[i]) ==> r[i] == s[i]
  {
    seq(|s|, i requires 0 <= i < |s| => LowerChar(s[i]))
  }

  /** Lower-casing twice is lower-casing once. */
  lemma LowerIdempotent(s: string)
    ensures Lower(Lower(s)) == Lower(s)
  {
  }

  /** A string without ASCII capitals, in particular any Thai text, is
      unchanged by `Lower`. */
  lemma LowerFixesCaseless(s: string)
    requires forall i :: 0 <= i < |s| ==> !IsAsciiUpper(s[i])
    ensures Lower(s) == s
  {
  }

  /** `p` occurs in `s` starting at index `i`. */
  predicate OccursAt(s: string, p: string, i: int)
  {
    0 <= i && i + |p| <= |s| && s[i..i + |p|] == p
  }

  /** JavaScript's `includes` on strings: `p` occurs somewhere in `s`. */
  predicate Contains(s: string, p: string)
  {
    exists i | 0 <= i <= |s| - |p| :: OccursAt(s, p, i)
  }

  /** An occurrence at any index makes `Contains` true. */
  lemma ContainsAt(s: string, p: string, i: int)
    requires OccursAt(s, p, i)
    ensures Contains(s, p)
  {
  }

  /** A string cannot contain a pattern one of whose characters it lacks. */
  lemma ContainsOnlyPresentChars(s: string, p: string, k: int)
    requires 0 <= k < |p|
    requires forall j :: 0 <= j < |s| ==> s[j] != p[k]
    ensures !Contains(s, p)
  {
    forall i | 0 <= i <= |s| - |p|
      ensures !OccursAt(s, p, i)
    {
      assert s[i..i + |p|][k] == s[i + k];
    }
  }

  /** JavaScript's `Array.prototype.join`. */
  function Join(parts: seq<string>, sep: string): string
  {
    if |parts| == 0 then ""
    else if |parts| == 1 then parts[0]
    else parts[0] + sep + Join(parts[1..], sep)
  }

  predicate IsDigit(c: char)
  {
    '0' <= c <= '9'
  }

  function DigitChar(d: nat): (c: char)
    requires d < 10
    ensures IsDigit(c) && c as int - '0' as int == d
  {
    ('0' as int + d) as char
  }

  /** `String(n)` for a non-negative integer: its decimal digits. */
  function NatToString(n: nat): (r: string)
    ensures |r| >= 1
    ensures forall i :: 0 <= i < |r| ==> IsDigit(r[i])
  {
    if n < 10 then [DigitChar(n)] else NatToString(n / 10) + [DigitChar(n % 10)]
  }

  /** The value of a string of decimal digits, most significant first. */
  function DecimalValue(s: string): nat
    requires forall i :: 0 <= i < |s| ==> IsDigit(s[i])
  {
    if s == [] then 0
    else
      assert IsDigit(s[|s| - 1]);
      10 * DecimalValue(s[..|s| - 1]) + (s[|s| - 1] as int - '0' as int)
  }

  /** `NatToString` writes `n` in decimal: reading the digits back gives `n`. */
  lemma {:induction false} NatToStringRoundTrip(n: nat)
    ensures DecimalValue(NatToString(n)) == n
  {
    if n >= 10 {
      var s := NatToString(n);
      assert s[..|s| - 1] == NatToString(n / 10);
      NatToStringRoundTrip(n / 10);
    }
  }

  /** The order of JavaScript's default `sort` on strings: lexicographic on
      characters (code points here, where JavaScript compares UTF-16 code
      units), a proper prefix coming first. */
  predicate StrLess(a: string, b: string)
    decreases |a|
  {
    if |a| == 0 then |b| > 0
    else if |b| == 0 then false
    else if a[0] != b[0] then a[0] < b[0]
    else StrLess(a[1..], b[1..])
  }

  lemma {:induction false} StrLessIrreflexive(a: string)
    ensures !StrLess(a, a)
    decreases |a|
  {
    if |a| > 0 {
      StrLessIrreflexive(a[1..]);
    }
  }

  lemma {:induction false} StrLessTransitive(a: string, b: string, c: string)
    requires StrLess(a, b) && StrLess(b, c)
    ensures StrLess(a, c)
    decreases |a|
  {
    if |a| > 0 && a[0] == b[0] && b[0] == c[0] {
      StrLessTransitive(a[1..], b[1..], c[1..]);
    }
  }

  lemma {:induction false} StrLessTotal(a: string, b: string)
    ensures a == b || StrLess(a, b) || StrLess(b, a)
    decreases |a|
  {
    if |a| > 0 && |b| > 0 && a[0] == b[0] {
      StrLessTotal(a[1..], b[1..]);
      if a[1..] == b[1..] {
        assert a == [a[0]] + a[1..] && b == [b[0]] + b[1..];
      }
    }
  }
}
