/**
 * Rust's integer formatting as the encoder and `Display for Rgb` use it:
 * `{}` writes a value in decimal and `{:X}` in upper-case hexadecimal, with
 * no sign, no padding and no leading zeros.
 */
module Fmt {
  /** The digit character for `d` in a base of at most sixteen: `0`-`9`, then `A`-`F`. */
  function DigitChar(d: nat): (c: char)
    requires d < 16
    ensures DigitValue(c) == d
  {
    if d < 10 then ('0' as int + d) as char else ('A' as int + d - 10) as char
  }

  /** `n / base` is smaller than `n` once `n` has two digits. */
  lemma DivShrinks(n: nat, base: nat)
    requires 2 <= base <= n
    ensures 1 <= n / base < n
  {
    var q, r := n / base, n % base;
    assert n == q * base + r;
    assert q * 2 <= q * base;
  }

  /** The value of a digit character, or 16 if it is not one. */
  function DigitValue(c: char): (d: nat)
    ensures d <= 16
  {
    if '0' <= c <= '9' then c as int - '0' as int
    else if 'A' <= c <= 'F' then c as int - 'A' as int + 10
    else 16
  }

  /** Formats `n` in `base`: `{}` is base 10, `{:X}` is base 16. */
  function Radix(n: nat, base: nat): (s: string)
    requires 2 <= base <= 16
    ensures 1 <= |s|
    ensures forall k | 0 <= k < |s| :: DigitValue(s[k]) < base
    ensures n < base <==> |s| == 1
    decreases n
  {
    if n < base then [DigitChar(n)]
    else
      DivShrinks(n, base);
      Radix(n / base, base) + [DigitChar(n % base)]
  }

  /** Reads a string of digits in `base` back as a number. */
  function Value(s: string, base: nat): nat
    decreases |s|
  {
    if s == [] then 0
    else Value(s[..|s| - 1], base) * base + (if DigitValue(s[|s| - 1]) < base then DigitValue(s[|s| - 1]) else 0)
  }

  /** Reading the formatted digits back gives the number: formatting loses nothing. */
  lemma {:induction false} RadixRoundTrip(n: nat, base: nat)
    requires 2 <= base <= 16
    ensures Value(Radix(n, base), base) == n
    decreases n
  {
    if n < base {
      assert Radix(n, base)[..0] == [];
    } else {
      var q, d := n / base, n % base;
      DivShrinks(n, base);
      RadixRoundTrip(q, base);
      AppendDigit(Radix(q, base), d, base);
      assert Radix(n, base) == Radix(q, base) + [DigitChar(d)];
      DivMod(n, base);
    }
  }

  /** Appending a digit multiplies the value by the base and adds the digit. */
  lemma AppendDigit(s: string, d: nat, base: nat)
    requires d < base <= 16
    ensures Value(s + [DigitChar(d)], base) == Value(s, base) * base + d
  {
    assert (s + [DigitChar(d)])[..|s|] == s;
  }

  /** Euclidean division by a positive base. */
  lemma DivMod(n: nat, base: nat)
    requires 2 <= base
    ensures n == (n / base) * base + n % base && n % base < base
  {
  }

  /** Different numbers are formatted differently. */
  lemma RadixInjective(m: nat, n: nat, base: nat)
    requires 2 <= base <= 16
    requires Radix(m, base) == Radix(n, base)
    ensures m == n
  {
    RadixRoundTrip(m, base);
    RadixRoundTrip(n, base);
  }
}
