/**
 * Character classes and the few `str` operations the crawlers use:
 * digits and `int()`, `str()` of an integer, `strip` / `rstrip`,
 * `in` on strings, `startswith` and `'\n'.join`.
 */
module Text {

  /** `\d` on ASCII digits. */
  predicate IsDigit(c: char) {
    '0' <= c <= '9'
  }

  /** Python's `str.isspace()`: the characters `strip()` removes and `\s` matches. */
  predicate IsSpace(c: char) {
    || c == ' '
    || '\t' <= c <= '\r'
    || '\U{1c}' <= c <= '\U{1f}'
    || c == '\U{85}' || c == '\U{a0}' || c == '\U{1680}'
    || '\U{2000}' <= c <= '\U{200a}'
    || c == '\U{2028}' || c == '\U{2029}' || c == '\U{202f}' || c == '\U{205f}' || c == '\U{3000}'
  }

  predicate AllDigits(s: string) {
    forall i | 0 <= i < |s| :: IsDigit(s[i])
  }

  function DigitValue(c: char): (d: nat)
    requires IsDigit(c)
    ensures d < 10
  {
    c as int - '0' as int
  }

  function DigitChar(d: nat): (c: char)
    requires d < 10
    ensures IsDigit(c) && DigitValue(c) == d
  {
    ('0' as int + d) as char
  }

  /** `int(s)` for a string of decimal digits. */
  function DecimalValue(s: string): nat
    requires AllDigits(s)
    decreases |s|
  {
    if |s| == 0 then 0 else DecimalValue(s[..|s| - 1]) * 10 + DigitValue(s[|s| - 1])
  }

  /** `int()` of two digits. */
  lemma TwoDigitValue(s: string)
    requires |s| == 2 && AllDigits(s)
    ensures DecimalValue(s) == DigitValue(s[0]) * 10 + DigitValue(s[1])
  {
    assert s[..|s| - 1] == [s[0]] && [s[0]][..0] == [];
    assert DecimalValue([s[0]]) == DecimalValue([]) * 10 + DigitValue(s[0]);
  }

  /** `str(n)` for a natural number. */
  function NatToString(n: nat): (r: string)
    ensures |r| >= 1 && AllDigits(r) && DecimalValue(r) == n
    ensures r[0] == '0' ==> n == 0
    decreases n
  {
    if n < 10 then [DigitChar(n)]
    else
      var r := NatToString(n / 10) + [DigitChar(n % 10)];
      assert r[..|r| - 1] == NatToString(n / 10);
      r
  }

  /** `str(i)` for any integer. */
  function IntToString(i: int): (r: string)
    ensures i >= 0 ==> r == NatToString(i)
    ensures i < 0 ==> r == "-" + NatToString(-i)
  {
    if i < 0 then "-" + NatToString(-i) else NatToString(i)
  }

  /** Two-digit zero-padded rendering (`%02d`). */
  function Pad2(n: nat): (r: string)
    requires n < 100
    ensures |r| == 2 && AllDigits(r) && DecimalValue(r) == n
  {
    var r := [DigitChar(n / 10), DigitChar(n % 10)];
    assert r[..1] == [DigitChar(n / 10)] && r[..1][..0] == [];
    assert DecimalValue(r[..1]) == n / 10;
    assert DecimalValue(r) == (n / 10) * 10 + n % 10;
    r
  }

  /** Four-digit zero-padded rendering (`%04d`). */
  function Pad4(n: nat): (r: string)
    requires n < 10000
    ensures |r| == 4 && AllDigits(r) && DecimalValue(r) == n
  {
    var hi := Pad2(n / 100);
    var lo := Pad2(n % 100);
    var r := hi + lo;
    assert r[..3] == hi + [lo[0]] && (hi + [lo[0]])[..2] == hi && lo[..1] == [lo[0]];
    r
  }

  /** `sub` occurs in `s` at index `i`. */
  predicate IsAt(s: string, i: int, sub: string) {
    0 <= i && i + |sub| <= |s| && s[i..i + |sub|] == sub
  }

  /** `sub in s`. */
  predicate Contains(s: string, sub: string) {
    exists i | 0 <= i <= |s| :: IsAt(s, i, sub)
  }

  /** An occurrence inside an occurrence is an occurrence. */
  lemma IsAtWithin(s: string, i: int, a: string, j: int, r: string)
    requires IsAt(s, i, a) && IsAt(a, j, r)
    ensures IsAt(s, i + j, r)
  {
    forall k | 0 <= k < |r| ensures s[i + j + k] == r[k] {
      assert r[k] == a[j..j + |r|][k] == a[j + k] == s[i..i + |a|][j + k];
    }
    assert s[i + j..i + j + |r|] == r;
  }

  /** An occurrence of a prefix's occurrence is an occurrence. */
  lemma IsAtChain(s: string, i: int, a: string, b: string, j: int, r: string)
    requires IsAt(s, i, a) && IsAt(a, 0, b) && IsAt(b, j, r)
    ensures IsAt(s, i + j, r)
  {
    IsAtWithin(s, i, a, 0, b);
    IsAtWithin(s, i, b, j, r);
  }

  /** `s.startswith(p)`. */
  predicate StartsWith(s: string, p: string) {
    |p| <= |s| && s[..|p|] == p
  }

  /** `s.lstrip()`. */
  function LStrip(s: string): (r: string)
    ensures |r| <= |s| && r == s[|s| - |r|..]
    ensures forall i | 0 <= i < |s| - |r| :: IsSpace(s[i])
    ensures r == [] || !IsSpace(r[0])
    decreases |s|
  {
    if s != [] && IsSpace(s[0]) then LStrip(s[1..]) else s
  }

  /** `s.rstrip(chars)`: drops the longest suffix whose characters all satisfy `drop`. */
  function RStripBy(s: string, drop: char -> bool): (r: string)
    ensures |r| <= |s| && r == s[..|r|]
    ensures forall i | |r| <= i < |s| :: drop(s[i])
    ensures r == [] || !drop(r[|r| - 1])
    decreases |s|
  {
    if s != [] && drop(s[|s| - 1]) then RStripBy(s[..|s| - 1], drop) else s
  }

  /** `lstrip` stops at the first character that is not whitespace. */
  lemma {:induction false} LStripAt(s: string, n: nat)
    requires n <= |s| && (forall i | 0 <= i < n :: IsSpace(s[i])) && (n == |s| || !IsSpace(s[n]))
    ensures LStrip(s) == s[n..]
    decreases n
  {
    if n > 0 {
      assert forall i | 0 <= i < n - 1 :: s[1..][i] == s[i + 1];
      assert n - 1 == |s[1..]| || s[1..][n - 1] == s[n];
      LStripAt(s[1..], n - 1);
      assert s[1..][n - 1..] == s[n..];
    }
  }

  /** What `rstrip(chars)` leaves is a prefix. */
  lemma RStripIsPrefix(s: string, drop: char -> bool)
    ensures IsAt(s, 0, RStripBy(s, drop))
  {
    var r := RStripBy(s, drop);
    assert s[0..|r|] == r;
  }

  /** `rstrip(chars)` stops at the last character outside `chars`. */
  lemma RStripAt(s: string, drop: char -> bool, n: nat)
    requires n <= |s| && (forall i | n <= i < |s| :: drop(s[i])) && (n == 0 || !drop(s[n - 1]))
    ensures RStripBy(s, drop) == s[..n]
  {
    var r := RStripBy(s, drop);
    var m := |r|;
    assert m == 0 || r[m - 1] == s[m - 1];
    assert m == 0 || !drop(s[m - 1]);
  }

  /** Neither end of `s` is whitespace. */
  predicate Trimmed(s: string) {
    s == [] || (!IsSpace(s[0]) && !IsSpace(s[|s| - 1]))
  }

  /** `r` is `s` at `k`, with every character cut before it meeting `front` and every one cut after it `back`. */
  predicate CutAt(s: string, k: int, r: string, front: char -> bool, back: char -> bool) {
    && IsAt(s, k, r)
    && (forall i | 0 <= i < k :: front(s[i]))
    && (forall i | k + |r| <= i < |s| :: back(s[i]))
  }

  /** `s.strip()`. */
  function Strip(s: string): (r: string)
    ensures Trimmed(r)
    ensures exists k | 0 <= k <= |s| :: IsAt(s, k, r)
  {
    var t := RStripBy(s, IsSpace);
    var r := LStrip(t);
    assert s[|t| - |r|..|t|] == t[|t| - |r|..];
    assert IsAt(s, |t| - |r|, r);
    r
  }

  /** Where `s.strip()` starts in `s`. */
  function StripStart(s: string): (k: nat)
    ensures k <= |s| && IsAt(s, k, Strip(s))
  {
    var t := RStripBy(s, IsSpace);
    var r := LStrip(t);
    assert s[|t| - |r|..|t|] == t[|t| - |r|..];
    |t| - |r|
  }

  /** `strip()` cuts only whitespace from either end. */
  lemma StripCuts(s: string)
    ensures CutAt(s, StripStart(s), Strip(s), IsSpace, IsSpace)
  {
    var t := RStripBy(s, IsSpace);
    var r := LStrip(t);
    assert forall i | 0 <= i < |t| - |r| :: s[i] == t[i];
  }

  /** Being trimmed and cut from `s` by whitespace alone determines `s.strip()`. */
  lemma StripUnique(s: string, k: int, r: string)
    requires Trimmed(r) && CutAt(s, k, r, IsSpace, IsSpace)
    ensures r == Strip(s)
  {
    StripCuts(s);
    TrimmedCutsAgree(s, k, r, StripStart(s), Strip(s));
  }

  /** Two trimmed pieces of `s`, each cut out by whitespace alone, are the same. */
  lemma TrimmedCutsAgree(s: string, k: int, r: string, k': int, r': string)
    requires Trimmed(r) && CutAt(s, k, r, IsSpace, IsSpace)
    requires Trimmed(r') && CutAt(s, k', r', IsSpace, IsSpace)
    ensures r == r'
  {
    if r != [] && r' != [] {
      assert s[k] == r[0] && s[k + |r| - 1] == r[|r| - 1];
      assert s[k'] == r'[0] && s[k' + |r'| - 1] == r'[|r'| - 1];
      assert k == k' && k + |r| == k' + |r'|;
    }
  }

  /** `sep.join(parts)`. */
  function Join(parts: seq<string>, sep: string): (r: string)
    decreases |parts|
  {
    if |parts| == 0 then ""
    else if |parts| == 1 then parts[0]
    else parts[0] + sep + Join(parts[1..], sep)
  }

  /** Every text stripped. */
  function StripAll(ps: seq<string>): (r: seq<string>)
    ensures |r| == |ps| && forall i | 0 <= i < |ps| :: r[i] == Strip(ps[i])
  {
    seq(|ps|, i requires 0 <= i < |ps| => Strip(ps[i]))
  }

  /** The length `zip` stops at. */
  function Min(a: nat, b: nat): nat {
    if a <= b then a else b
  }
}
