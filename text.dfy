/**
 * The handful of Kotlin/JVM string operations the wallet's decision code relies on:
 * decimal rendering and parsing of integers, searching, replacing, ASCII case folding
 * and whitespace trimming. Each operation is defined recursively and its contract says
 * what the result means, not how it is built.
 */
module Text {
  import opened Wrappers

  const INT_MIN: int := -0x8000_0000
  const INT_MAX: int := 0x7fff_ffff
  const LONG_MIN: int := -0x8000_0000_0000_0000
  const LONG_MAX: int := 0x7fff_ffff_ffff_ffff

  predicate IsInt(i: int) { INT_MIN <= i <= INT_MAX }
  predicate IsLong(i: int) { LONG_MIN <= i <= LONG_MAX }

  predicate StartsWith(s: string, prefix: string) {
    |prefix| <= |s| && s[..|prefix|] == prefix
  }

  predicate EndsWith(s: string, suffix: string) {
    |suffix| <= |s| && s[|s| - |suffix|..] == suffix
  }

  //
  // Decimal digits
  //

  predicate IsDigit(c: char) { '0' <= c <= '9' }

  predicate AllDigits(s: string) { forall i :: 0 <= i < |s| ==> IsDigit(s[i]) }

  function DigitChar(d: nat): (c: char)
    requires d < 10
    ensures IsDigit(c) && c as int - '0' as int == d
  {
    (d + '0' as int) as char
  }

  function DigitValue(c: char): (d: nat)
    requires IsDigit(c)
    ensures d < 10 && DigitChar(d) == c
  {
    c as int - '0' as int
  }

  /** Decimal rendering of a natural number, without leading zeros. */
  function NatToString(n: nat): (s: string)
    ensures |s| > 0 && AllDigits(s)
    ensures |s| > 1 ==> s[0] != '0'
  {
    if n < 10 then [DigitChar(n)] else NatToString(n / 10) + [DigitChar(n % 10)]
  }

  /** Kotlin's `"$i"` for an `Int` or a `Long`: an optional minus sign, then the digits. */
  function IntToString(i: int): (s: string)
    ensures |s| > 0
    ensures i < 0 <==> s[0] == '-'
    ensures forall k :: 0 <= k < |s| ==> s[k] != '.'
  {
    if i < 0 then "-" + NatToString(-i) else NatToString(i)
  }

  /** The value of a string of decimal digits. */
  function DigitsValue(s: string): nat
    requires AllDigits(s)
  {
    if |s| == 0 then 0 else DigitsValue(s[..|s| - 1]) * 10 + DigitValue(s[|s| - 1])
  }

  lemma {:induction false} DigitsValueOfNatToString(n: nat)
    ensures DigitsValue(NatToString(n)) == n
  {
    if n >= 10 {
      var s := NatToString(n);
      assert s[..|s| - 1] == NatToString(n / 10);
      DigitsValueOfNatToString(n / 10);
    }
  }

  /**
   * Kotlin's `String.toIntOrNull()` / `String.toLongOrNull()` (and the value `toLong()`
   * returns when it does not throw), for a target range [lo, hi]: an optional leading `-`
   * or `+` that is not the whole string, then decimal digits only, and a value in range.
   * Only ASCII digits are recognized.
   */
  function ParseSigned(s: string, lo: int, hi: int): (r: Option<int>)
    ensures r.Some? ==> lo <= r.value <= hi
    ensures |s| == 0 ==> r.None?
  {
    if |s| == 0 then None
    else if s[0] == '-' || s[0] == '+' then
      if |s| == 1 || !AllDigits(s[1..]) then None
      else
        var d: int := DigitsValue(s[1..]);
        var v := if s[0] == '-' then -d else d;
        if lo <= v <= hi then Some(v) else None
    else if !AllDigits(s) then None
    else if lo <= DigitsValue(s) <= hi then Some(DigitsValue(s)) else None
  }

  /** `toIntOrNull()` */
  function ToIntOrNull(s: string): (r: Option<int>)
    ensures r.Some? ==> IsInt(r.value)
  {
    ParseSigned(s, INT_MIN, INT_MAX)
  }

  /** `toLongOrNull()`; `toLong()` throws exactly where this is `None`. */
  function ToLongOrNull(s: string): (r: Option<int>)
    ensures r.Some? ==> IsLong(r.value)
  {
    ParseSigned(s, LONG_MIN, LONG_MAX)
  }

  /** Rendering an integer and parsing it back gives the integer, in any range that holds it. */
  lemma {:induction false} ParseSignedOfIntToString(i: int, lo: int, hi: int)
    requires lo <= i <= hi
    ensures ParseSigned(IntToString(i), lo, hi) == Some(i)
  {
    var s := IntToString(i);
    if i < 0 {
      assert s[1..] == NatToString(-i);
      DigitsValueOfNatToString(-i);
    } else {
      assert IsDigit(s[0]);
      DigitsValueOfNatToString(i);
    }
  }

  //
  // Searching
  //

  /** The index of the first `c` in `s`, or -1 (Kotlin's `indexOf(c)`). */
  function IndexOfChar(s: string, c: char): (r: int)
    ensures -1 <= r < |s|
    ensures r == -1 <==> c !in s
    ensures r >= 0 ==> s[r] == c && c !in s[..r]
  {
    if |s| == 0 then -1
    else if s[0] == c then 0
    else
      var k := IndexOfChar(s[1..], c);
      assert s[1..] == s[1..][..];
      if k == -1 then -1 else (assert s[..k + 1] == [s[0]] + s[1..][..k]; k + 1)
  }

  /** The part of `s` before its first `c`: the first element of Kotlin's `s.split(c)`. */
  function BeforeFirst(s: string, c: char): (r: string)
    ensures c !in r
    ensures c in s ==> |r| < |s| && r + [c] == s[..|r| + 1]
    ensures c !in s ==> r == s
  {
    var k := IndexOfChar(s, c);
    if k == -1 then s else s[..k]
  }

  /** `pat` occurs in `s` at index `i`. */
  predicate OccursAt(s: string, pat: string, i: int) {
    0 <= i && i + |pat| <= |s| && s[i..i + |pat|] == pat
  }

  /** Kotlin's `s.contains(pat)`. */
  predicate Contains(s: string, pat: string) {
    exists i :: 0 <= i <= |s| - |pat| && OccursAt(s, pat, i)
  }

  //
  // Replacing
  //

  /** Kotlin's `s.replace(from, to)` for characters: every `from` becomes `to`. */
  function ReplaceChar(s: string, from: char, to: char): (r: string)
    ensures |r| == |s|
    ensures forall k :: 0 <= k < |s| ==> r[k] == if s[k] == from then to else s[k]
  {
    if |s| == 0 then [] else [if s[0] == from then to else s[0]] + ReplaceChar(s[1..], from, to)
  }

  lemma {:induction false} ReplaceCharAppend(a: string, b: string, from: char, to: char)
    ensures ReplaceChar(a + b, from, to) == ReplaceChar(a, from, to) + ReplaceChar(b, from, to)
  {
    var r := ReplaceChar(a + b, from, to);
    var q := ReplaceChar(a, from, to) + ReplaceChar(b, from, to);
    assert |r| == |q|;
    forall k | 0 <= k < |r| ensures r[k] == q[k] {
      if k < |a| { assert (a + b)[k] == a[k]; } else { assert (a + b)[k] == b[k - |a|]; }
    }
  }

  /**
   * Kotlin's `s.replace(pat, rep)` for strings: scanning left to right, every
   * non-overlapping occurrence of `pat` becomes `rep`.
   */
  function ReplaceAll(s: string, pat: string, rep: string): string
    requires |pat| > 0
    decreases |s|
  {
    if |s| == 0 then []
    else if StartsWith(s, pat) then rep + ReplaceAll(s[|pat|..], pat, rep)
    else [s[0]] + ReplaceAll(s[1..], pat, rep)
  }

  /** A string that starts with the pattern starts with the replacement afterwards. */
  lemma ReplaceAllPrefix(s: string, pat: string, rep: string)
    requires |pat| > 0 && StartsWith(s, pat)
    ensures StartsWith(ReplaceAll(s, pat, rep), rep)
  {
  }

  /** No occurrence of `pat` starts inside `a` and runs on into `b`. */
  predicate NoStraddle(a: string, b: string, pat: string) {
    forall i :: 0 <= i < |a| && |a| < i + |pat| ==> !OccursAt(a + b, pat, i)
  }

  lemma OccursAtShift(s: string, pat: string, k: nat, i: int)
    requires k <= |s| && 0 <= i
    ensures OccursAt(s[k..], pat, i) <==> OccursAt(s, pat, i + k)
  {
    if i + |pat| <= |s| - k { assert s[k..][i..i + |pat|] == s[i + k..i + k + |pat|]; }
  }

  lemma NoStraddleSuffix(a: string, b: string, pat: string, k: nat)
    requires k <= |a| && NoStraddle(a, b, pat)
    ensures NoStraddle(a[k..], b, pat)
  {
    assert a[k..] + b == (a + b)[k..];
    forall i | 0 <= i < |a| - k && |a| - k < i + |pat| ensures !OccursAt(a[k..] + b, pat, i) {
      OccursAtShift(a + b, pat, k, i);
    }
  }

  /** If no occurrence of `pat` straddles `a` and `b`, replacing in `a + b` is replacing in each part. */
  lemma {:induction false} ReplaceAllAppend(a: string, b: string, pat: string, rep: string)
    requires |pat| > 0 && NoStraddle(a, b, pat)
    ensures ReplaceAll(a + b, pat, rep) == ReplaceAll(a, pat, rep) + ReplaceAll(b, pat, rep)
    decreases |a|
  {
    var s := a + b;
    if |a| == 0 {
      assert s == b;
    } else if StartsWith(a, pat) {
      assert s[..|pat|] == a[..|pat|];
      assert s[|pat|..] == a[|pat|..] + b;
      NoStraddleSuffix(a, b, pat, |pat|);
      ReplaceAllAppend(a[|pat|..], b, pat, rep);
    } else {
      if |pat| <= |a| {
        assert s[..|pat|] == a[..|pat|];
      } else {
        assert !OccursAt(s, pat, 0);
      }
      assert !StartsWith(s, pat);
      assert s[1..] == a[1..] + b;
      NoStraddleSuffix(a, b, pat, 1);
      ReplaceAllAppend(a[1..], b, pat, rep);
    }
  }

  /** A string in which `pat` never occurs is left as it is. */
  lemma {:induction false} ReplaceAllNoOccurrence(s: string, pat: string, rep: string)
    requires |pat| > 0
    requires forall i :: 0 <= i < |s| ==> !OccursAt(s, pat, i)
    ensures ReplaceAll(s, pat, rep) == s
  {
    if |s| > 0 {
      assert !OccursAt(s, pat, 0);
      forall i | 0 <= i < |s[1..]| ensures !OccursAt(s[1..], pat, i) {
        assert !OccursAt(s, pat, i + 1);
        if i + |pat| <= |s[1..]| { assert s[1..][i..i + |pat|] == s[i + 1..i + 1 + |pat|]; }
      }
      ReplaceAllNoOccurrence(s[1..], pat, rep);
    }
  }

  /**
   * When the replacement ends with the same character as the string, so does the
   * result: a final character is either kept or swallowed into a replacement.
   */
  lemma {:induction false} ReplaceAllKeepsLast(s: string, pat: string, rep: string)
    requires |pat| > 0 && |s| > 0 && |rep| > 0 && rep[|rep| - 1] == s[|s| - 1]
    ensures var r := ReplaceAll(s, pat, rep); |r| > 0 && r[|r| - 1] == s[|s| - 1]
    decreases |s|
  {
    if StartsWith(s, pat) {
      if |s[|pat|..]| > 0 { ReplaceAllKeepsLast(s[|pat|..], pat, rep); }
    } else if |s| > 1 {
      ReplaceAllKeepsLast(s[1..], pat, rep);
    }
  }

  //
  // Case and whitespace
  //

  /** ASCII `lowercaseChar()`; other characters are unchanged. */
  function LowerChar(c: char): (r: char)
    ensures 'A' <= c <= 'Z' ==> 'a' <= r <= 'z'
    ensures !('A' <= c <= 'Z') ==> r == c
  {
    if 'A' <= c <= 'Z' then (c as int - 'A' as int + 'a' as int) as char else c
  }

  /** ASCII `lowercase()`. */
  function Lower(s: string): (r: string)
    ensures |r| == |s| && forall k :: 0 <= k < |s| ==> r[k] == LowerChar(s[k])
  {
    if |s| == 0 then [] else [LowerChar(s[0])] + Lower(s[1..])
  }

  /** Two characters equal up to (ASCII) case, as in Kotlin's `equals(other, ignoreCase = true)`. */
  predicate EqualsIgnoreCase(a: string, b: string) {
    Lower(a) == Lower(b)
  }

  /** Kotlin's `Char.isWhitespace()` (the JVM's whitespace and space characters). */
  predicate IsWhitespace(c: char) {
    c == ' ' || '\t' <= c <= '\r' || '\U{1C}' <= c <= '\U{1F}' || c == '\U{A0}'
    || c == '\U{1680}' || '\U{2000}' <= c <= '\U{200A}' || c == '\U{2028}' || c == '\U{2029}'
    || c == '\U{202F}' || c == '\U{205F}' || c == '\U{3000}'
  }

  /** Kotlin's `trimStart()`: drop the leading whitespace. */
  function TrimStart(s: string): (r: string)
    ensures |r| <= |s| && r == s[|s| - |r|..]
    ensures forall k :: 0 <= k < |s| - |r| ==> IsWhitespace(s[k])
    ensures |r| > 0 ==> !IsWhitespace(r[0])
  {
    if |s| > 0 && IsWhitespace(s[0]) then TrimStart(s[1..]) else s
  }

  /** Kotlin's `isBlank()`: empty or whitespace only. */
  predicate IsBlank(s: string) {
    forall k :: 0 <= k < |s| ==> IsWhitespace(s[k])
  }

  /** One leading blank before text that starts with no blank is all `trimStart()` drops. */
  lemma TrimStartSkipsOne(c: char, rest: string)
    requires IsWhitespace(c) && |rest| > 0 && !IsWhitespace(rest[0])
    ensures TrimStart([c] + rest) == rest
  {
    assert ([c] + rest)[1..] == rest;
  }

  /** What `trimStart()` leaves is blank exactly when it is empty. */
  lemma TrimStartBlank(s: string)
    ensures IsBlank(TrimStart(s)) <==> TrimStart(s) == ""
  {
  }
}
