/**
 * `n.toString(base).toUpperCase()` for a non-negative integer and its
 * inverse, as used for ticket identifiers (base 36) and upload file names
 * (base 10).
 */
module Radix {
  import opened Text

  function DigitChar(d: nat): (c: char)
    requires d < 36
  {
    if d < 10 then ('0' as int + d) as char else ('A' as int + d - 10) as char
  }

  /** The value of an upper-case digit character, or -1. */
  function DigitValue(c: char): int {
    if '0' <= c <= '9' then c as int - '0' as int
    else if 'A' <= c <= 'Z' then c as int - 'A' as int + 10
    else -1
  }

  predicate IsDigit(c: char, base: nat) {
    0 <= DigitValue(c) < base
  }

  predicate AllDigits(s: string, base: nat) {
    forall i :: 0 <= i < |s| ==> IsDigit(s[i], base)
  }

  /** Euclidean division by a base, in the form the digit recursion needs. */
  lemma DivStep(n: nat, base: nat)
    requires 2 <= base <= 36 && n >= base
    ensures 1 <= n / base < n && 0 <= n % base < base
    ensures n == n / base * base + n % base
  {
  }

  /** Upper-case digits of `n` in `base`, most significant first, no leading zeros. */
  function ToRadix(n: nat, base: nat): (r: string)
    requires 2 <= base <= 36
    ensures |r| >= 1 && AllDigits(r, base)
    ensures r[0] != '0' || n == 0
  {
    if n < base then [DigitChar(n)]
    else
      DivStep(n, base);
      ToRadix(n / base, base) + [DigitChar(n % base)]
  }

  /** The number a string of digits denotes. */
  function FromRadix(s: string, base: nat): nat
    requires 2 <= base <= 36 && AllDigits(s, base)
  {
    if s == [] then 0 else FromRadix(s[..|s| - 1], base) * base + DigitValue(s[|s| - 1])
  }

  /** Reading the digits back gives the number. */
  lemma {:induction false} FromToRadix(n: nat, base: nat)
    requires 2 <= base <= 36
    ensures FromRadix(ToRadix(n, base), base) == n
  {
    var r := ToRadix(n, base);
    if n < base {
      assert r[..0] == [];
    } else {
      DivStep(n, base);
      var q := ToRadix(n / base, base);
      assert r[..|r| - 1] == q;
      FromToRadix(n / base, base);
    }
  }

  /** Digits are letters and numerals only; in particular never a '-'. */
  lemma DigitsHaveNoDash(s: string, base: nat)
    requires AllDigits(s, base)
    ensures '-' !in s
  {
  }

  /**
   * The text of `Math.random().toString(36)`: "0." followed by lower-case
   * base-36 digits.
   */
  predicate IsRandomText(r: string) {
    && |r| >= 2 && r[0] == '0' && r[1] == '.'
    && forall i :: 2 <= i < |r| ==> ('0' <= r[i] <= '9' || 'a' <= r[i] <= 'z')
  }

  /** Any stretch of the random digits, upper-cased, is a string of base-36 digits. */
  lemma RandomDigits(r: string, start: int, end: int)
    requires IsRandomText(r) && 2 <= start <= end
    ensures AllDigits(Upper(Substring(r, start, end)), 36)
  {
    var a := Clamp(start, |r|);
    var b := Clamp(end, |r|);
    assert Substring(r, start, end) == r[a..b];
    var u := Upper(r[a..b]);
    forall i | 0 <= i < |u| ensures IsDigit(u[i], 36) {
      assert r[a..b][i] == r[a + i];
    }
  }
}
