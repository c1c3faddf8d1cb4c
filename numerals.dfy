/**
 * `Number.prototype.toString(radix)` on integers: the decimal form that the
 * template engine gives numbers and the hexadecimal size in an ETag.
 */
module Numerals {

  /** The two radixes the source uses. */
  predicate IsRadix(base: nat) {
    base == 10 || base == 16
  }

  /** The digit for `d`: `0`-`9`, then lower-case `a`-`f`. */
  function DigitChar(d: nat): (c: char)
    requires d < 16
    ensures DigitValue(c) == d
  {
    if d < 10 then ('0' as int + d) as char else ('a' as int + d - 10) as char
  }

  /** The value of a digit character, or -1 for any other character. */
  function DigitValue(c: char): (v: int)
    ensures -1 <= v < 16
  {
    if '0' <= c <= '9' then c as int - '0' as int
    else if 'a' <= c <= 'f' then c as int - 'a' as int + 10
    else -1
  }

  lemma DivMod(n: nat, base: nat)
    requires IsRadix(base) && n >= base
    ensures 0 < n / base < n && n % base < base && n == (n / base) * base + n % base
  {
    if base == 10 {
      assert n == (n / 10) * 10 + n % 10;
    } else {
      assert n == (n / 16) * 16 + n % 16;
    }
  }

  /** `n.toString(base)` for a natural number: most significant digit first, no leading zero. */
  function NatToString(n: nat, base: nat): (s: string)
    requires IsRadix(base)
    ensures |s| >= 1
    ensures forall i :: 0 <= i < |s| ==> 0 <= DigitValue(s[i]) < base
    ensures |s| > 1 ==> s[0] != '0'
    decreases n
  {
    if n < base then [DigitChar(n)]
    else
      DivMod(n, base);
      NatToString(n / base, base) + [DigitChar(n % base)]
  }

  /** Reads digits of the given base back into a number (the inverse of `NatToString`). */
  function ParseNat(s: string, base: nat): nat
    requires IsRadix(base)
  {
    if s == [] then 0
    else
      var d := DigitValue(s[|s| - 1]);
      ParseNat(s[..|s| - 1], base) * base + (if d < 0 then 0 else d)
  }

  lemma ParseNatSnoc(p: string, c: char, base: nat)
    requires IsRadix(base) && 0 <= DigitValue(c)
    ensures ParseNat(p + [c], base) == ParseNat(p, base) * base + DigitValue(c)
  {
    assert (p + [c])[..|p + [c]| - 1] == p;
  }

  lemma {:induction false} ParseNatToString(n: nat, base: nat)
    requires IsRadix(base)
    ensures ParseNat(NatToString(n, base), base) == n
    decreases n
  {
    if n < base {
      assert [DigitChar(n)][..0] == [];
    } else {
      DivMod(n, base);
      var q, r := n / base, n % base;
      var p := NatToString(q, base);
      ParseNatToString(q, base);
      assert NatToString(n, base) == p + [DigitChar(r)];
      ParseNatSnoc(p, DigitChar(r), base);
    }
  }

  /** Reads an optional `-` and decimal digits back into an integer (the inverse of `IntToString`). */
  function ParseInt(s: string): int {
    if s != [] && s[0] == '-' then -(ParseNat(s[1..], 10) as int) else ParseNat(s, 10)
  }

  /** `n.toString()` for an integer: a `-` exactly for a negative number, then its decimal digits. */
  function IntToString(n: int): (s: string)
    ensures s != []
    ensures forall i :: 0 <= i < |s| ==> s[i] == '-' || '0' <= s[i] <= '9'
    ensures s[0] == '-' <==> n < 0
    ensures ParseInt(s) == n
  {
    if n < 0 then
      ParseNatToString(-n, 10);
      assert ("-" + NatToString(-n, 10))[1..] == NatToString(-n, 10);
      "-" + NatToString(-n, 10)
    else
      ParseNatToString(n, 10);
      NatToString(n, 10)
  }

  /** `n.toString(16)` for a size. */
  function Hex(n: nat): (s: string)
    ensures ParseNat(s, 16) == n
    ensures forall i :: 0 <= i < |s| ==> '0' <= s[i] <= '9' || 'a' <= s[i] <= 'f'
  {
    ParseNatToString(n, 16);
    NatToString(n, 16)
  }
}
