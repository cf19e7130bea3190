/** Text helpers with JavaScript's meaning: decimal digits, `padStart`,
    ASCII case mapping, `includes`/`startsWith`, `join` and `split` on one
    character, whitespace trimming and the UTF-16 code units of a string. */
module JsText {

  function Pow10(n: nat): (p: nat)
    ensures p >= 1
  {
    if n == 0 then 1 else 10 * Pow10(n - 1)
  }

  // ---------------- Decimal digits ----------------

  predicate IsDigit(c: char) {
    '0' <= c <= '9'
  }

  predicate AllDigits(s: string) {
    forall i :: 0 <= i < |s| ==> IsDigit(s[i])
  }

  function DigitValue(c: char): nat
    requires IsDigit(c)
  {
    c as int - '0' as int
  }

  function DigitChar(d: nat): (c: char)
    requires d < 10
    ensures IsDigit(c) && DigitValue(c) == d
  {
    ('0' as int + d) as char
  }

  /** Value of a run of decimal digits, read left to right. */
  function DigitsValue(s: string): nat
    requires AllDigits(s)
  {
    if s == [] then 0 else DigitsValue(s[..|s| - 1]) * 10 + DigitValue(s[|s| - 1])
  }

  /** The decimal numeral of n with no leading zero ("0" for zero). */
  function NatToString(n: nat): (s: string)
    ensures |s| >= 1 && AllDigits(s)
    ensures |s| > 1 ==> s[0] != '0'
  {
    if n < 10 then [DigitChar(n)] else NatToString(n / 10) + [DigitChar(n % 10)]
  }

  /** `String(i)` for an integer i. */
  function IntToString(i: int): string {
    if i < 0 then "-" + NatToString(-i) else NatToString(i)
  }

  /** Reading the numeral of n gives n back. */
  lemma {:induction false} NatToStringValue(n: nat)
    ensures DigitsValue(NatToString(n)) == n
  {
    if n >= 10 {
      NatToStringValue(n / 10);
      var s := NatToString(n);
      assert s[..|s| - 1] == NatToString(n / 10);
    }
  }

  lemma ShiftDigit(x: int, y: int, q: int, l: int)
    ensures (x * q + y) * 10 + l == x * (10 * q) + (y * 10 + l)
  {
  }

  /** Digits of a + b are read as a shifted left by |b| places, plus b. */
  lemma {:induction false} DigitsValueAppend(a: string, b: string)
    requires AllDigits(a) && AllDigits(b)
    ensures AllDigits(a + b)
    ensures DigitsValue(a + b) == DigitsValue(a) * Pow10(|b|) + DigitsValue(b)
  {
    if b == [] {
      assert a + b == a;
    } else {
      var ab := a + b;
      var b' := b[..|b| - 1];
      assert ab[..|ab| - 1] == a + b';
      assert ab[|ab| - 1] == b[|b| - 1];
      DigitsValueAppend(a, b');
      var x, y, q, l := DigitsValue(a), DigitsValue(b'), Pow10(|b'|), DigitValue(b[|b| - 1]);
      assert DigitsValue(ab) == DigitsValue(a + b') * 10 + l;
      assert DigitsValue(b) == y * 10 + l;
      assert Pow10(|b|) == 10 * q;
      ShiftDigit(x, y, q, l);
    }
  }

  function Repeat(c: char, n: nat): (s: string)
    ensures |s| == n && forall i :: 0 <= i < n ==> s[i] == c
  {
    if n == 0 then [] else [c] + Repeat(c, n - 1)
  }

  /** `s.padStart(width, c)` for a one-character pad. */
  function PadStart(s: string, width: nat, c: char): (p: string)
    ensures |p| == if |s| >= width then |s| else width
    ensures p[|p| - |s|..] == s
    ensures forall i :: 0 <= i < |p| - |s| ==> p[i] == c
  {
    if |s| >= width then s else Repeat(c, width - |s|) + s
  }

  /** Leading zeros do not change the value of a numeral. */
  lemma PadStartValue(s: string, width: nat)
    requires AllDigits(s)
    ensures AllDigits(PadStart(s, width, '0'))
    ensures DigitsValue(PadStart(s, width, '0')) == DigitsValue(s)
  {
    if |s| < width {
      var z := Repeat('0', width - |s|);
      ZerosValue(z);
      DigitsValueAppend(z, s);
    }
  }

  lemma {:induction false} ZerosValue(z: string)
    requires forall i :: 0 <= i < |z| ==> z[i] == '0'
    ensures AllDigits(z) && DigitsValue(z) == 0
  {
    if z != [] {
      ZerosValue(z[..|z| - 1]);
    }
  }

  // ---------------- Searching ----------------

  predicate StartsWith(s: string, prefix: string) {
    |prefix| <= |s| && s[..|prefix|] == prefix
  }

  predicate EndsWith(s: string, suffix: string) {
    |suffix| <= |s| && s[|s| - |suffix|..] == suffix
  }

  lemma AffixesOfAppend(a: string, b: string)
    ensures StartsWith(a + b, a) && EndsWith(a + b, b)
  {
    assert (a + b)[..|a|] == a;
    assert (a + b)[|a + b| - |b|..] == b;
  }

  /** `s.includes(pat)`. */
  predicate Contains(s: string, pat: string)
    decreases |s|
  {
    StartsWith(s, pat) || (s != [] && Contains(s[1..], pat))
  }

  /** pat occurs in s starting at position i. */
  predicate OccursAt(s: string, pat: string, i: int) {
    0 <= i <= |s| - |pat| && s[i..i + |pat|] == pat
  }

  /** Contains holds exactly when pat occurs at some position of s. */
  lemma {:induction false} ContainsAt(s: string, pat: string)
    ensures Contains(s, pat) <==> exists i :: OccursAt(s, pat, i)
    decreases |s|
  {
    if StartsWith(s, pat) {
      assert OccursAt(s, pat, 0);
    }
    if s != [] {
      ContainsAt(s[1..], pat);
      if Contains(s[1..], pat) {
        var i :| OccursAt(s[1..], pat, i);
        assert s[i + 1..i + 1 + |pat|] == s[1..][i..i + |pat|];
        assert OccursAt(s, pat, i + 1);
      }
      if !StartsWith(s, pat) && exists i :: OccursAt(s, pat, i) {
        var i :| OccursAt(s, pat, i);
        assert i != 0;
        assert s[1..][i - 1..i - 1 + |pat|] == s[i..i + |pat|];
        assert OccursAt(s[1..], pat, i - 1);
      }
    } else {
      if exists i :: OccursAt(s, pat, i) {
        var i :| OccursAt(s, pat, i);
        assert StartsWith(s, pat);
      }
    }
  }

  /** Index of the first c in s, or -1. */
  function IndexOf(s: string, c: char): (i: int)
    ensures -1 <= i < |s|
    ensures i == -1 <==> c !in s
    ensures i >= 0 ==> s[i] == c
    ensures forall j :: 0 <= j < i ==> s[j] != c
  {
    if s == [] then -1
    else if s[0] == c then 0
    else
      var j := IndexOf(s[1..], c);
      if j < 0 then -1 else j + 1
  }

  // ---------------- Case mapping (ASCII letters) ----------------

  function LowerChar(c: char): char {
    if 'A' <= c <= 'Z' then (c as int + 32) as char else c
  }

  function UpperChar(c: char): char {
    if 'a' <= c <= 'z' then (c as int - 32) as char else c
  }

  /** `s.toLowerCase()` on ASCII letters; other characters are kept. */
  function ToLower(s: string): (t: string)
    ensures |t| == |s| && forall i :: 0 <= i < |s| ==> t[i] == LowerChar(s[i])
  {
    seq(|s|, i requires 0 <= i < |s| => LowerChar(s[i]))
  }

  /** `s.toUpperCase()` on ASCII letters; other characters are kept. */
  function ToUpper(s: string): (t: string)
    ensures |t| == |s| && forall i :: 0 <= i < |s| ==> t[i] == UpperChar(s[i])
  {
    seq(|s|, i requires 0 <= i < |s| => UpperChar(s[i]))
  }

  /** Lower-casing commutes with slicing. */
  lemma ToLowerSlice(s: string, i: nat, j: nat)
    requires i <= j <= |s|
    ensures ToLower(s)[i..j] == ToLower(s[i..j])
  {
  }

  /** A string without upper-case ASCII letters is its own lower case. */
  lemma ToLowerOfLower(s: string)
    requires forall i :: 0 <= i < |s| ==> !('A' <= s[i] <= 'Z')
    ensures ToLower(s) == s
  {
  }

  /** A pattern that occurs in s up to letter case occurs in the lower case of s. */
  lemma ContainsLowered(s: string, i: nat, pat: string)
    requires i + |pat| <= |s| && ToLower(s[i..i + |pat|]) == pat
    ensures Contains(ToLower(s), pat)
  {
    ToLowerSlice(s, i, i + |pat|);
    assert OccursAt(ToLower(s), pat, i);
    ContainsAt(ToLower(s), pat);
  }

  /** Every character of a pattern that s contains occurs in s. */
  lemma {:induction false} ContainsChars(s: string, pat: string)
    requires Contains(s, pat)
    ensures forall k :: 0 <= k < |pat| ==> pat[k] in s
    decreases |s|
  {
    if StartsWith(s, pat) {
      forall k | 0 <= k < |pat|
        ensures pat[k] in s
      {
        assert s[..|pat|][k] == s[k];
      }
    } else {
      ContainsChars(s[1..], pat);
      forall k | 0 <= k < |pat|
        ensures pat[k] in s
      {
        var j :| 0 <= j < |s[1..]| && s[1..][j] == pat[k];
        assert s[j + 1] == pat[k];
      }
    }
  }

  /** A string that lacks one character of a pattern does not contain the pattern. */
  lemma MissingChar(s: string, pat: string, k: nat)
    requires k < |pat| && pat[k] !in s
    ensures !Contains(s, pat)
  {
    if Contains(s, pat) {
      ContainsChars(s, pat);
      assert false;
    }
  }

  // ---------------- join / split ----------------

  /** `parts.join(sep)`. */
  function Join(parts: seq<string>, sep: string): string {
    if |parts| == 0 then ""
    else if |parts| == 1 then parts[0]
    else parts[0] + sep + Join(parts[1..], sep)
  }

  /** `s.split(c)` for a one-character separator. */
  function Split(s: string, c: char): (parts: seq<string>)
    ensures |parts| >= 1
    decreases |s|
  {
    var i := IndexOf(s, c);
    if i < 0 then [s] else [s[..i]] + Split(s[i + 1..], c)
  }

  /** The first separator of `a + [c] + rest` is the one after a, when a lacks it. */
  lemma FirstSeparator(a: string, c: char, rest: string)
    requires c !in a
    ensures IndexOf(a + [c] + rest, c) == |a|
  {
    var s := a + [c] + rest;
    assert s[|a|] == c;
    assert forall j :: 0 <= j < |a| ==> s[j] == a[j];
  }

  /** Splitting a join on a separator that occurs in no part gives the parts back. */
  lemma {:induction false} SplitJoin(parts: seq<string>, c: char)
    requires |parts| >= 1
    requires forall k :: 0 <= k < |parts| ==> c !in parts[k]
    ensures Split(Join(parts, [c]), c) == parts
  {
    if |parts| == 1 {
    } else {
      var rest := Join(parts[1..], [c]);
      var s := parts[0] + [c] + rest;
      assert Join(parts, [c]) == s;
      FirstSeparator(parts[0], c, rest);
      assert s[..|parts[0]|] == parts[0];
      assert s[|parts[0]| + 1..] == rest;
      SplitJoin(parts[1..], c);
    }
  }

  // ---------------- Whitespace ----------------

  /** The characters String.prototype.trim removes: the ECMAScript white space (including the
      Unicode space separators) and line terminators. */
  predicate IsWhitespace(c: char) {
    c == ' ' || c == '\t' || c == '\n' || c == '\r' || c == '\U{000B}' || c == '\U{000C}'
    || c == '\U{00A0}' || c == '\U{FEFF}' || c == '\U{2028}' || c == '\U{2029}'
    || c == '\U{1680}' || ('\U{2000}' <= c <= '\U{200A}') || c == '\U{202F}' || c == '\U{205F}'
    || c == '\U{3000}'
  }

  /** First index at or after i that does not hold whitespace. */
  function SpaceRunEnd(s: string, i: nat): (j: nat)
    requires i <= |s|
    ensures i <= j <= |s| && (j < |s| ==> !IsWhitespace(s[j]))
    ensures forall k :: i <= k < j ==> IsWhitespace(s[k])
    decreases |s| - i
  {
    if i < |s| && IsWhitespace(s[i]) then SpaceRunEnd(s, i + 1) else i
  }

  /** Last index at or before j that follows a character other than whitespace (or 0). */
  function SpaceRunStart(s: string, j: nat): (i: nat)
    requires j <= |s|
    ensures i <= j && (i > 0 ==> !IsWhitespace(s[i - 1]))
    ensures forall k :: i <= k < j ==> IsWhitespace(s[k])
  {
    if j > 0 && IsWhitespace(s[j - 1]) then SpaceRunStart(s, j - 1) else j
  }

  /** s is made only of whitespace. */
  predicate Blank(s: string) {
    forall k :: 0 <= k < |s| ==> IsWhitespace(s[k])
  }

  /** `s.trimStart()`: the leading run of whitespace removed (TrimStartFrame says nothing else is). */
  function TrimStart(s: string): (t: string)
    ensures |t| <= |s| && Blank(s[..|s| - |t|])
    ensures t == [] || !IsWhitespace(t[0])
    ensures s != [] && !IsWhitespace(s[0]) ==> t == s
  {
    s[SpaceRunEnd(s, 0)..]
  }

  /** What `s.trimStart()` keeps is the tail of s. */
  lemma TrimStartFrame(s: string)
    ensures TrimStart(s) == s[|s| - |TrimStart(s)|..]
  {
  }

  /** `s.trimEnd()`: the trailing run of whitespace removed, nothing else. */
  function TrimEnd(s: string): (t: string)
    ensures |t| <= |s| && forall k :: 0 <= k < |t| ==> t[k] == s[k]
    ensures Blank(s[|t|..])
    ensures t == [] || !IsWhitespace(t[|t| - 1])
    ensures s != [] && !IsWhitespace(s[|s| - 1]) ==> t == s
  {
    s[..SpaceRunStart(s, |s|)]
  }

  /** `s.trim()`: the whitespace at both ends removed (TrimFrame says nothing else is). */
  function Trim(s: string): (t: string)
    ensures |t| <= |s|
    ensures t == [] || (!IsWhitespace(t[0]) && !IsWhitespace(t[|t| - 1]))
    ensures s != [] && !IsWhitespace(s[0]) && !IsWhitespace(s[|s| - 1]) ==> t == s
  {
    TrimEnd(TrimStart(s))
  }

  /** What `s.trim()` keeps is the part of s between its leading and its trailing whitespace. */
  lemma TrimFrame(s: string)
    ensures var i := SpaceRunEnd(s, 0);
      i + |Trim(s)| <= |s| && Trim(s) == s[i..i + |Trim(s)|]
      && Blank(s[..i]) && Blank(s[i + |Trim(s)|..])
  {
    var i, u, t := SpaceRunEnd(s, 0), TrimStart(s), Trim(s);
    assert u == s[i..];
    assert t == u[..|t|];
    assert s[i + |t|..] == u[|t|..];
  }

  /** Trimming leaves nothing exactly when the text is made only of whitespace. */
  lemma TrimEmpty(s: string)
    ensures Trim(s) == [] <==> Blank(s)
  {
    TrimFrame(s);
    var i := SpaceRunEnd(s, 0);
    if Trim(s) == [] {
      assert s == s[..i];
    } else {
      assert Trim(s)[0] == s[i];
    }
  }

  // ---------------- UTF-16 ----------------

  /** The UTF-16 code units of one character (a surrogate pair above U+FFFF). */
  function CharUnits(c: char): (u: seq<int>)
    ensures forall k :: 0 <= k < |u| ==> 0 <= u[k] < 0x1_0000
  {
    var v := c as int;
    if v < 0x1_0000 then [v]
    else [0xD800 + (v - 0x1_0000) / 0x400, 0xDC00 + (v - 0x1_0000) % 0x400]
  }

  /** What `s.charCodeAt(i)` reads for i = 0 .. s.length - 1. */
  function CodeUnits(s: string): (u: seq<int>)
    ensures forall k :: 0 <= k < |u| ==> 0 <= u[k] < 0x1_0000
  {
    if s == [] then [] else CodeUnits(s[..|s| - 1]) + CharUnits(s[|s| - 1])
  }
}
