/**
 * The handful of Ruby string operations the playlist code relies on:
 * prefix tests, the `\s` character class, `String#strip`,
 * `Integer#to_s` (base 10 and base 16) and `String#rjust`.
 */
module Text {

  predicate StartsWith(s: string, prefix: string) {
    |prefix| <= |s| && s[..|prefix|] == prefix
  }

  /** Ruby's regular-expression class `\s`: space, tab, LF, VT, FF and CR. */
  predicate IsRegexSpace(c: char) {
    c == ' ' || c == '\t' || c == '\n' || c == '\U{B}' || c == '\U{C}' || c == '\r'
  }

  /** What `String#strip` removes at either end: `\s` and NUL. */
  predicate IsStripSpace(c: char) {
    IsRegexSpace(c) || c == '\0'
  }

  /** Where `String#lstrip` cuts: the first index at or after `i` that is not white space. */
  function StripStart(s: string, i: nat): (r: nat)
    requires i <= |s|
    ensures i <= r <= |s| && (r == |s| || !IsStripSpace(s[r]))
    ensures forall k :: i <= k < r ==> IsStripSpace(s[k])
    decreases |s| - i
  {
    if i < |s| && IsStripSpace(s[i]) then StripStart(s, i + 1) else i
  }

  /** Where `String#rstrip` cuts: the last index at or before `j` that follows a non-space, or `lo`. */
  function StripEnd(s: string, lo: nat, j: nat): (r: nat)
    requires lo <= j <= |s|
    ensures lo <= r <= j && (r == lo || !IsStripSpace(s[r - 1]))
    ensures forall k :: r <= k < j ==> IsStripSpace(s[k])
    decreases j
  {
    if lo < j && IsStripSpace(s[j - 1]) then StripEnd(s, lo, j - 1) else j
  }

  /**
   * `String#strip`: the part of `s` between its leading and trailing white
   * space. Everything cut away is white space, and what is kept neither
   * starts nor ends with it.
   */
  function Strip(s: string): (r: string)
    ensures var i := StripStart(s, 0); var j := StripEnd(s, i, |s|);
      r == s[i..j] && (forall k :: 0 <= k < i ==> IsStripSpace(s[k])) && (forall k :: j <= k < |s| ==> IsStripSpace(s[k]))
    ensures r == [] || (!IsStripSpace(r[0]) && !IsStripSpace(r[|r| - 1]))
  {
    var i := StripStart(s, 0);
    s[i..StripEnd(s, i, |s|)]
  }

  lemma ConcatAssoc<T>(a: seq<T>, b: seq<T>, c: seq<T>)
    ensures a + (b + c) == a + b + c
  {
  }

  /** A non-empty suffix is its first element followed by the next suffix. */
  lemma SuffixCons<T>(a: seq<T>, j: nat)
    requires j < |a|
    ensures a[j..] == [a[j]] + a[j + 1..] && a[j..][1..] == a[j + 1..]
  {
  }

  /** A slice of a suffix is a slice of the whole. */
  lemma SliceOfSuffix<T>(s: seq<T>, i: nat, a: nat, b: nat)
    requires i <= |s| && a <= b <= |s| - i
    ensures s[i..][a..b] == s[i + a..i + b]
  {
  }

  /** The middle part of a three-part concatenation sits between the other two. */
  lemma MiddleOfConcat<T>(a: seq<T>, b: seq<T>, c: seq<T>)
    ensures (a + b + c)[..|a|] == a
    ensures (a + b + c)[|a|..|a| + |b|] == b
  {
    assert (a + b + c)[..|a|] == (a + b)[..|a|];
  }

  /** Stripping keeps every character that is not white space and adds none. */
  lemma StripChars(s: string)
    ensures forall c :: c in Strip(s) ==> c in s
    ensures forall c :: c in s && !IsStripSpace(c) ==> c in Strip(s)
  {
    var i := StripStart(s, 0);
    var j := StripEnd(s, i, |s|);
    forall c | c in s[i..j] ensures c in s {
      var k :| 0 <= k < j - i && s[i..j][k] == c;
      assert s[i + k] == c;
    }
    forall c | c in s && !IsStripSpace(c) ensures c in s[i..j] {
      var k :| 0 <= k < |s| && s[k] == c;
      assert i <= k < j;
      assert s[i..j][k - i] == c;
    }
  }

  const Digits: string := "0123456789abcdef"

  /** The value of `c` as a digit of `base` (lower-case letters above 9), or -1. */
  function DigitValue(c: char, base: nat): (d: int)
    requires 2 <= base <= 16
    ensures -1 <= d < base as int
    ensures d >= 0 ==> Digits[d] == c
  {
    if '0' <= c <= '9' && (c as int - '0' as int) < base then c as int - '0' as int
    else if 'a' <= c <= 'f' && 10 + (c as int - 'a' as int) < base then 10 + (c as int - 'a' as int)
    else -1
  }

  predicate IsDigit(c: char) {
    '0' <= c <= '9'
  }

  predicate AllDigits(s: string, base: nat)
    requires 2 <= base <= 16
  {
    forall k :: 0 <= k < |s| ==> DigitValue(s[k], base) >= 0
  }

  /** `Integer#to_s(base)` for a non-negative integer: no leading zeros, "0" for zero. */
  function NatToString(n: nat, base: nat): (r: string)
    requires 2 <= base <= 16
    decreases n
  {
    if n < base then [Digits[n]] else NatToString(n / base, base) + [Digits[n % base]]
  }

  /** The value of a string of digits of `base`, most significant first. */
  function DigitsValue(s: string, base: nat): nat
    requires 2 <= base <= 16
    requires AllDigits(s, base)
  {
    if s == [] then 0
    else
      var init := s[..|s| - 1];
      assert AllDigits(init, base) by {
        assert forall k :: 0 <= k < |init| ==> init[k] == s[k];
      }
      var d := DigitValue(s[|s| - 1], base);
      var v := DigitsValue(init, base);
      NatProduct(v, base);
      v * base + d
  }

  lemma NatProduct(a: nat, b: nat)
    ensures a * b >= 0
  {
  }

  lemma DigitOfValue(d: nat, base: nat)
    requires 2 <= base <= 16 && d < base
    ensures DigitValue(Digits[d], base) == d as int
  {
  }

  /** `Integer#to_s(base)` round-trips: its digits read back as `n`, and it has no leading zero. */
  lemma {:induction false} NatToStringRoundTrip(n: nat, base: nat)
    requires 2 <= base <= 16
    ensures AllDigits(NatToString(n, base), base)
    ensures DigitsValue(NatToString(n, base), base) == n
    ensures NatToString(n, base)[0] == '0' <==> n == 0
    decreases n
  {
    if n < base {
      DigitOfValue(n, base);
    } else {
      var q, d := n / base, n % base;
      DivMod(n, base);
      NatToStringRoundTrip(q, base);
      DigitOfValue(d, base);
      AppendDigit(NatToString(q, base), d, base);
    }
  }

  lemma DivMod(n: nat, base: nat)
    requires 2 <= base <= 16 && base <= n
    ensures 1 <= n / base < n && n % base < base
    ensures (n / base) * base + n % base == n
  {
  }

  /** Appending one digit multiplies the value by the base and adds the digit. */
  lemma AppendDigit(p: string, d: nat, base: nat)
    requires 2 <= base <= 16 && d < base
    requires AllDigits(p, base) && p != []
    ensures var r := p + [Digits[d]];
      AllDigits(r, base) && r[0] == p[0] && DigitsValue(r, base) == DigitsValue(p, base) * base + d
  {
    var r := p + [Digits[d]];
    DigitOfValue(d, base);
    assert r[..|r| - 1] == p;
  }

  /** Leading zeros do not change the value of a digit string. */
  lemma {:induction false} LeadingZerosValue(z: nat, s: string, base: nat)
    requires 2 <= base <= 16
    requires AllDigits(s, base)
    ensures AllDigits(seq(z, _ => '0') + s, base)
    ensures DigitsValue(seq(z, _ => '0') + s, base) == DigitsValue(s, base)
    decreases |s|
  {
    var t := seq(z, _ => '0') + s;
    if s == [] {
      assert t == seq(z, _ => '0');
      ZerosValue(z, base);
    } else {
      LeadingZerosValue(z, s[..|s| - 1], base);
      assert t[..|t| - 1] == seq(z, _ => '0') + s[..|s| - 1];
    }
  }

  lemma {:induction false} ZerosValue(z: nat, base: nat)
    requires 2 <= base <= 16
    ensures AllDigits(seq(z, _ => '0'), base)
    ensures DigitsValue(seq(z, _ => '0'), base) == 0
  {
    if z > 0 {
      ZerosValue(z - 1, base);
      assert seq(z, _ => '0')[..z - 1] == seq(z - 1, _ => '0');
    }
  }

  function Power(b: nat, k: nat): nat {
    if k == 0 then 1 else b * Power(b, k - 1)
  }

  /** A number below `base` times `p` divided by `base` is below `p`. */
  lemma QuotientBelow(n: nat, base: nat, p: nat)
    requires 2 <= base && n < base * p
    ensures n / base < p
  {
    var q := n / base;
    assert q * base <= n;
    assert (p - q) * base == p * base - q * base;
  }

  /** A number below `base` to the `k` has at most `k` digits. */
  lemma {:induction false} NatToStringLength(n: nat, base: nat, k: nat)
    requires 2 <= base <= 16 && 1 <= k && n < Power(base, k)
    ensures |NatToString(n, base)| <= k
    decreases k
  {
    if n >= base {
      assert k > 1 by {
        assert Power(base, 1) == base;
      }
      QuotientBelow(n, base, Power(base, k - 1));
      NatToStringLength(n / base, base, k - 1);
    }
  }

  /** `Integer#to_s` in base 10, with a leading `-` for a negative value. */
  function IntToDecimal(n: int): string {
    if n < 0 then "-" + NatToString(-n, 10) else NatToString(n, 10)
  }

  /** Reads back an optionally signed decimal numeral. */
  function DecimalValue(s: string): int
    requires s != [] && (if s[0] == '-' then AllDigits(s[1..], 10) else AllDigits(s, 10))
  {
    if s[0] == '-' then -(DigitsValue(s[1..], 10) as int) else DigitsValue(s, 10)
  }

  /** Every integer the writer prints can be read back unchanged. */
  lemma IntToDecimalRoundTrip(n: int)
    ensures var s := IntToDecimal(n);
      s != [] && (if s[0] == '-' then AllDigits(s[1..], 10) else AllDigits(s, 10)) && DecimalValue(s) == n
  {
    var m: nat := if n < 0 then -n else n;
    var t := NatToString(m, 10);
    NatToStringRoundTrip(m, 10);
    assert DigitValue(t[0], 10) >= 0;
    if n < 0 {
      assert ("-" + t)[1..] == t;
    }
  }

  /** `String#rjust(width, pad)`: pads on the left up to `width`, never truncates. */
  function RightJustify(s: string, width: nat, pad: char): (r: string)
    ensures |r| == if |s| < width then width else |s|
    ensures r == seq(|r| - |s|, _ => pad) + s
  {
    seq(if |s| < width then width - |s| else 0, _ => pad) + s
  }

  /** Justifying with `0` puts exactly the missing zeros in front. */
  lemma RightJustifyZeros(s: string, width: nat)
    ensures var r := RightJustify(s, width, '0');
      |r| >= |s| && r == seq(|r| - |s|, _ => '0') + s
  {
    var r := RightJustify(s, width, '0');
    var z := seq(|r| - |s|, _ => '0');
    assert r[..|r| - |s|] == z;
    assert r == r[..|r| - |s|] + s;
  }
}
