/** The string primitives the site relies on: `toLowerCase`, `startsWith`, `includes`,
    `indexOf`, `replace` with a string pattern, and the decimal rendering of a count in a
    template literal. */
module Strings {

  /** `toLowerCase` on one character, restricted to ASCII letters. */
  function LowerChar(c: char): char {
    if 'A' <= c <= 'Z' then (c as int + 32) as char else c
  }

  /** `s.toLowerCase()`, character by character (ASCII case mapping only). */
  function ToLower(s: string): string {
    seq(|s|, i requires 0 <= i < |s| => LowerChar(s[i]))
  }

  /** `s.startsWith(prefix)`. */
  predicate StartsWith(s: string, prefix: string) {
    |prefix| <= |s| && s[..|prefix|] == prefix
  }

  /** `s.includes(t)`: `t` occurs in `s` at some position. */
  predicate Contains(s: string, t: string) {
    exists i :: 0 <= i <= |s| - |t| && StartsWith(s[i..], t)
  }

  /** Every string includes the empty string, so an empty search term matches anything. */
  lemma ContainsEmpty(s: string)
    ensures Contains(s, "")
  {
    assert StartsWith(s[0..], "");
  }

  /** An occurrence at a known position witnesses `includes`. */
  lemma ContainsAt(s: string, t: string, i: nat)
    requires i + |t| <= |s| && s[i..i + |t|] == t
    ensures Contains(s, t)
  {
    assert StartsWith(s[i..], t);
  }

  /** An occurrence in either part of a concatenation is an occurrence in the whole. */
  lemma ContainsConcat(a: string, b: string, t: string)
    requires Contains(a, t) || Contains(b, t)
    ensures Contains(a + b, t)
  {
    if Contains(a, t) {
      var i :| 0 <= i <= |a| - |t| && StartsWith(a[i..], t);
      assert (a + b)[i..][..|t|] == a[i..][..|t|];
      assert StartsWith((a + b)[i..], t);
    } else {
      var i :| 0 <= i <= |b| - |t| && StartsWith(b[i..], t);
      assert (a + b)[|a| + i..] == b[i..];
      assert StartsWith((a + b)[|a| + i..], t);
    }
  }

  /** Every character of an included string occurs in the including one. */
  lemma ContainsChar(s: string, t: string, k: nat)
    requires k < |t|
    ensures Contains(s, t) ==> t[k] in s
  {
    if Contains(s, t) {
      var i :| 0 <= i <= |s| - |t| && StartsWith(s[i..], t);
      assert s[i..][..|t|][k] == s[i + k];
    }
  }

  /** `s` holds `x` immediately followed by `y` somewhere. */
  predicate HasPair(s: string, x: char, y: char) {
    exists i :: 0 <= i < |s| - 1 && s[i] == x && s[i + 1] == y
  }

  /** Every pair of adjacent characters of an included string occurs in the including one. */
  lemma ContainsPair(s: string, t: string, k: nat)
    requires k + 1 < |t|
    ensures Contains(s, t) ==> HasPair(s, t[k], t[k + 1])
  {
    if Contains(s, t) {
      var i :| 0 <= i <= |s| - |t| && StartsWith(s[i..], t);
      assert s[i..][..|t|][k] == s[i + k] && s[i..][..|t|][k + 1] == s[i + k + 1];
    }
  }

  /** The last character of a concatenation is that of its second part. */
  lemma LastOfConcat(a: string, b: string)
    requires b != []
    ensures (a + b)[|a + b| - 1] == b[|b| - 1]
  {
  }

  /** `toLowerCase` maps each part of a concatenation separately. */
  lemma ToLowerConcat(a: string, b: string)
    ensures ToLower(a + b) == ToLower(a) + ToLower(b)
  {
  }

  /** The upper-case partner of an ASCII lower-case letter. */
  function UpperChar(c: char): char {
    if 'a' <= c <= 'z' then (c as int - 32) as char else c
  }

  /** A lower-case letter appears in the lowercased string only where the string holds it in
      either case. */
  lemma LowerCharAbsent(s: string, c: char)
    requires 'a' <= c <= 'z' && c !in s && UpperChar(c) !in s
    ensures c !in ToLower(s)
  {
    forall i | 0 <= i < |s| ensures ToLower(s)[i] != c {
      assert s[i] in s;
    }
  }

  /** `s` holds, ignoring ASCII case, the lower-case letter `x` immediately followed by the
      lower-case letter `y`. */
  predicate HasPairIgnoringCase(s: string, x: char, y: char) {
    exists i :: 0 <= i < |s| - 1 && LowerChar(s[i]) == x && LowerChar(s[i + 1]) == y
  }

  /** A pair in the lowercased string is a pair ignoring case in the original. */
  lemma LowerPair(s: string, x: char, y: char)
    ensures HasPair(ToLower(s), x, y) ==> HasPairIgnoringCase(s, x, y)
  {
    if HasPair(ToLower(s), x, y) {
      var i :| 0 <= i < |s| - 1 && ToLower(s)[i] == x && ToLower(s)[i + 1] == y;
      assert LowerChar(s[i]) == x && LowerChar(s[i + 1]) == y;
    }
  }

  /** A string lacking, in either case, one of the two letters lacks the pair; so does a
      string too short to hold one. */
  lemma NoPairWithout(s: string, x: char, y: char)
    requires 'a' <= x <= 'z' && 'a' <= y <= 'z'
    requires |s| <= 1 || (x !in s && UpperChar(x) !in s) || (y !in s && UpperChar(y) !in s)
    ensures !HasPairIgnoringCase(s, x, y)
  {
    forall i | 0 <= i < |s| - 1 ensures !(LowerChar(s[i]) == x && LowerChar(s[i + 1]) == y) {
      assert s[i] in s && s[i + 1] in s;
    }
  }

  /** Two parts without the pair whose junction does not form it make a whole without it. */
  lemma NoPairConcat(a: string, b: string, x: char, y: char)
    requires !HasPairIgnoringCase(a, x, y) && !HasPairIgnoringCase(b, x, y)
    requires a != [] && b != [] ==> !(LowerChar(a[|a| - 1]) == x && LowerChar(b[0]) == y)
    ensures !HasPairIgnoringCase(a + b, x, y)
  {
    var s := a + b;
    forall i | 0 <= i < |s| - 1 ensures !(LowerChar(s[i]) == x && LowerChar(s[i + 1]) == y) {
      if i < |a| - 1 {
        assert s[i] == a[i] && s[i + 1] == a[i + 1];
      } else if i == |a| - 1 {
        assert s[i] == a[|a| - 1] && s[i + 1] == b[0];
      } else {
        assert s[i] == b[i - |a|] && s[i + 1] == b[i - |a| + 1];
      }
    }
  }

  /** A case-insensitive search for `t` in `s` fails when `s` lacks, in either case, the
      lower-case letter `t[k]`. */
  lemma NoMatchByChar(s: string, t: string, k: nat)
    requires k < |t| && 'a' <= t[k] <= 'z' && t[k] !in s && UpperChar(t[k]) !in s
    ensures !Contains(ToLower(s), t)
  {
    LowerCharAbsent(s, t[k]);
    ContainsChar(ToLower(s), t, k);
  }

  /** A case-insensitive search for `t` in `s` fails when `s` lacks, ignoring case, the
      adjacent pair `t[k]`,`t[k + 1]`. */
  lemma NoMatchByPair(s: string, t: string, k: nat)
    requires k + 1 < |t| && !HasPairIgnoringCase(s, t[k], t[k + 1])
    ensures !Contains(ToLower(s), t)
  {
    ContainsPair(ToLower(s), t, k);
    LowerPair(s, t[k], t[k + 1]);
  }

  /** `s.indexOf(t)`: the first position at which `t` occurs in `s`, or -1. */
  function IndexOf(s: string, t: string): (k: int)
    ensures -1 <= k && (k >= 0 ==> k + |t| <= |s|)
    ensures k >= 0 ==> StartsWith(s[k..], t)
    ensures forall j :: 0 <= j <= |s| && (k < 0 || j < k) ==> !StartsWith(s[j..], t)
    decreases |s|
  {
    if StartsWith(s, t) then 0
    else if s == [] then -1
    else
      var k := IndexOf(s[1..], t);
      assert forall j :: 1 <= j <= |s| ==> s[1..][j - 1..] == s[j..];
      if k < 0 then -1 else k + 1
  }

  /** `indexOf` reports -1 exactly when `includes` is false. */
  lemma IndexOfMissing(s: string, t: string)
    ensures IndexOf(s, t) == -1 <==> !Contains(s, t)
  {
    var k := IndexOf(s, t);
    if k >= 0 {
      assert StartsWith(s[k..], t);
    }
  }

  /** `s.replace(pat, rep)` with a string pattern: only the first occurrence is replaced. */
  function ReplaceFirst(s: string, pat: string, rep: string): string {
    var k := IndexOf(s, pat);
    if k < 0 then s else s[..k] + rep + s[k + |pat|..]
  }

  /** A string that starts with the pattern loses that prefix, whatever follows. */
  lemma ReplaceFirstAtStart(s: string, pat: string, rep: string)
    requires StartsWith(s, pat)
    ensures ReplaceFirst(s, pat, rep) == rep + s[|pat|..]
  {
    assert s[0..] == s;
    assert IndexOf(s, pat) == 0;
  }

  /** A string without the pattern is returned unchanged. */
  lemma ReplaceFirstAbsent(s: string, pat: string, rep: string)
    requires !Contains(s, pat)
    ensures ReplaceFirst(s, pat, rep) == s
  {
    IndexOfMissing(s, pat);
  }

  /** The decimal digit for `d`. */
  function DigitChar(d: nat): char
    requires d < 10
  {
    ('0' as int + d) as char
  }

  /** The decimal rendering of a count, as a template literal `${n}` prints it: digits only,
      with no leading zero except for 0 itself. */
  function NatToString(n: nat): (r: string)
    ensures |r| >= 1
    ensures forall i :: 0 <= i < |r| ==> '0' <= r[i] <= '9'
    ensures r[0] == '0' ==> n == 0
  {
    if n < 10 then [DigitChar(n)] else NatToString(n / 10) + [DigitChar(n % 10)]
  }

  /** The number a string of decimal digits spells, read from left to right. */
  function DecimalValue(s: string): nat
    requires forall i :: 0 <= i < |s| ==> '0' <= s[i] <= '9'
    decreases |s|
  {
    if s == [] then 0
    else 10 * DecimalValue(s[..|s| - 1]) + (s[|s| - 1] as int - '0' as int)
  }

  /** Round trip: the digits `NatToString` writes spell `n` again. */
  lemma {:induction false} NatToStringValue(n: nat)
    ensures DecimalValue(NatToString(n)) == n
  {
    var r := NatToString(n);
    if n >= 10 {
      NatToStringValue(n / 10);
      assert r[..|r| - 1] == NatToString(n / 10);
    }
  }
}
