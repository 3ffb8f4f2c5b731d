/** Number rendering (`xtoa.c`): digits are produced backwards and then reversed in
  * place. */
module Xtoa {
  import opened Basics

  const DIGITS: string := "0123456789abcdef"

  function Quotient(v: nat, base: nat): (q: nat)
    requires 2 <= base
    ensures 0 < v ==> q < v
    ensures v == 0 ==> q == 0
  {
    QuotientShrinks(v, base);
    v / base
  }

  lemma QuotientShrinks(v: nat, base: nat)
    requires 2 <= base
    ensures 0 < v ==> v / base < v
    ensures v == 0 ==> v / base == 0
  {
    var q, r := v / base, v % base;
    assert v == base * q + r;
    Apart(q, 1, base);
    assert base * q == q * base;
  }

  function LastDigit(v: nat, base: nat): (d: nat)
    requires 2 <= base
    ensures d < base
  {
    v % base
  }

  lemma Division(v: nat, base: nat)
    requires 2 <= base
    ensures v == LastDigit(v, base) + Quotient(v, base) * base
  {
  }

  function DigitsReversed(v: nat, base: nat): (r: string)
    requires 2 <= base <= 16
    ensures r != []
    decreases v
  {
    [DIGITS[LastDigit(v, base)]] +
    if Quotient(v, base) == 0 then [] else DigitsReversed(Quotient(v, base), base)
  }

  function Reversed(s: string): (r: string)
    ensures |r| == |s|
    ensures forall i :: 0 <= i < |s| ==> r[i] == s[|s| - 1 - i]
  {
    if s == [] then [] else Reversed(s[1..]) + [s[0]]
  }

  /** What `xtoa` leaves in the buffer for a magnitude and a sign. */
  function Text(magnitude: nat, base: nat, negative: bool): string
    requires 2 <= base <= 16
  {
    (if negative then "-" else "") + Reversed(DigitsReversed(magnitude, base))
  }

  /** Two's complement negation of a 32-bit word. */
  function Negate(v: nat): nat
    requires v < TWO32
  {
    if v == 0 then 0 else TWO32 - v
  }

  /** A C `int` passed where `unsigned long` is expected. */
  function AsUnsigned(v: int): nat
    requires -TWO31 <= v < TWO31
  {
    if v < 0 then v + TWO32 else v
  }

  /** The text `xtoa(val, str, base, negative)` produces. */
  function XtoaText(val: nat, base: nat, negative: bool): string
    requires val < TWO32 && 2 <= base <= 16
  {
    Text(if negative then Negate(val) else val, base, negative)
  }

  function ItoaText(v: int, base: nat): string
    requires -TWO31 <= v < TWO31 && 2 <= base <= 16
  {
    XtoaText(AsUnsigned(v), base, v < 0)
  }

  // ------------------------------------------------------------ round trip

  function DigitValue(c: char): nat {
    if '0' <= c <= '9' then c as nat - '0' as nat
    else if 'a' <= c <= 'f' then c as nat - 'a' as nat + 10
    else 0
  }

  function ParseDigits(s: string, base: nat): nat {
    if s == [] then 0 else ParseDigits(s[..|s| - 1], base) * base + DigitValue(s[|s| - 1])
  }

  function Parse(s: string, base: nat): int {
    if s != [] && s[0] == '-' then -(ParseDigits(s[1..], base) as int) else ParseDigits(s, base)
  }

  lemma DigitRoundTrip(d: nat)
    requires d < 16
    ensures DigitValue(DIGITS[d]) == d && DIGITS[d] != '-' && (DIGITS[d] == '0' <==> d == 0)
  {
  }

  /** Value of a string of digits, least significant first. */
  function Value(r: string, base: nat): nat {
    if r == [] then 0 else DigitValue(r[0]) + Value(r[1..], base) * base
  }

  lemma {:induction false} ParseIsValue(r: string, base: nat)
    ensures ParseDigits(Reversed(r), base) == Value(r, base)
  {
    if r != [] {
      ParseIsValue(r[1..], base);
      assert Reversed(r)[..|r| - 1] == Reversed(r[1..]);
    }
  }

  lemma {:induction false} ValueOfDigits(v: nat, base: nat)
    requires 2 <= base <= 16
    ensures Value(DigitsReversed(v, base), base) == v
  {
    hide Quotient, LastDigit;
    Division(v, base);
    var q, d, r := Quotient(v, base), LastDigit(v, base), DigitsReversed(v, base);
    DigitRoundTrip(d);
    if q == 0 {
      assert r[1..] == [];
    } else {
      ValueOfDigits(q, base);
      assert r[1..] == DigitsReversed(q, base);
    }
  }

  lemma ParseReversed(v: nat, base: nat)
    requires 2 <= base <= 16
    ensures ParseDigits(Reversed(DigitsReversed(v, base)), base) == v
  {
    ParseIsValue(DigitsReversed(v, base), base);
    ValueOfDigits(v, base);
  }

  /** The most significant digit comes first and is zero only for zero itself. */
  lemma {:induction false} NoLeadingZero(v: nat, base: nat)
    requires 2 <= base <= 16
    ensures var s := Reversed(DigitsReversed(v, base));
            && s[0] != '-'
            && (s[0] == '0' ==> v == 0)
            && (v == 0 ==> s == "0")
  {
    hide Quotient, LastDigit;
    Division(v, base);
    var q, d := Quotient(v, base), LastDigit(v, base);
    DigitRoundTrip(d);
    var r := DigitsReversed(v, base);
    if q != 0 {
      NoLeadingZero(q, base);
      assert r[1..] == DigitsReversed(q, base);
      assert Reversed(r)[0] == r[|r| - 1] == Reversed(DigitsReversed(q, base))[0];
    }
  }

  /** For every 32-bit value, the most negative included, and every base, reading the
    * rendered text gives the value back, and it has no redundant leading zero. */
  lemma ItoaRoundTrip(v: int, base: nat)
    requires -TWO31 <= v < TWO31 && 2 <= base <= 16
    ensures var s := ItoaText(v, base);
            && Parse(s, base) == v
            && (v == 0 ==> s == "0")
            && (v != 0 ==> s[if v < 0 then 1 else 0] != '0')
  {
    hide DigitsReversed, Reversed, ParseDigits;
    var m: nat := if v < 0 then -v else v;
    ParseReversed(m, base);
    NoLeadingZero(m, base);
    var digits := Reversed(DigitsReversed(m, base));
    if v < 0 {
      assert ItoaText(v, base) == "-" + digits;
      assert ItoaText(v, base)[1..] == digits;
    } else {
      assert ItoaText(v, base) == digits;
    }
  }

  lemma UltoaRoundTrip(v: nat, base: nat)
    requires v < TWO32 && 2 <= base <= 16
    ensures Parse(XtoaText(v, base, false), base) == v
  {
    ParseReversed(v, base);
    NoLeadingZero(v, base);
    assert XtoaText(v, base, false) == Reversed(DigitsReversed(v, base));
  }

  // ---------------------------------------------------------------- length

  function Power(base: nat, k: nat): nat {
    if k == 0 then 1 else base * Power(base, k - 1)
  }

  lemma {:induction false} DigitCount(v: nat, base: nat, k: nat)
    requires 2 <= base <= 16 && 1 <= k && v < Power(base, k)
    ensures |DigitsReversed(v, base)| <= k
    decreases k
  {
    if Quotient(v, base) != 0 {
      DivBelow(v, base, Power(base, k - 1));
      if k > 1 {
        DigitCount(Quotient(v, base), base, k - 1);
      }
    }
  }

  lemma DivBelow(v: nat, base: nat, p: nat)
    requires 2 <= base && v < base * p
    ensures Quotient(v, base) < p
  {
  }

  /** In the bases the formatted output uses, text and terminator fit in 12 bytes. */
  lemma FitsTwelve(v: nat, base: nat, negative: bool)
    requires v < TWO32 && (base == 10 || base == 16)
    ensures |XtoaText(v, base, negative)| <= 11
  {
    assert Power(10, 5) == 100000 && Power(16, 4) == 65536;
    assert Power(10, 10) == 10000000000 by {
      assert Power(10, 8) == 100000000;
    }
    assert Power(16, 8) == TWO32;
    var m := if negative then Negate(v) else v;
    DigitCount(m, base, if base == 10 then 10 else 8);
  }

  // ---------------------------------------------------------- the algorithm

  /** Reverses the first `n` characters in place, with two approaching pointers. */
  method ReverseInPlace(str: array<char>, n: nat)
    requires n <= str.Length
    modifies str
    ensures str[..n] == Reversed(old(str[..n]))
    ensures forall k :: n <= k < str.Length ==> str[k] == old(str[k])
  {
    var lo, hi := 0, n - 1;
    while lo < hi
      invariant 0 <= lo && lo + hi == n - 1 && lo <= hi + 2
      invariant forall k :: 0 <= k < n && (k < lo || hi < k) ==> str[k] == old(str[n - 1 - k])
      invariant forall k :: lo <= k <= hi ==> str[k] == old(str[k])
      invariant forall k :: n <= k < str.Length ==> str[k] == old(str[k])
    {
      str[lo], str[hi] := str[hi], str[lo];
      lo, hi := lo + 1, hi - 1;
    }
    ghost var was := old(str[..n]);
    assert forall k :: 0 <= k < n ==> str[k] == was[n - 1 - k];
  }

  lemma Unroll(v: nat, base: nat)
    requires 2 <= base <= 16
    ensures v % base == LastDigit(v, base) && v / base == Quotient(v, base)
    ensures var r, q := DigitsReversed(v, base), Quotient(v, base);
            r[0] == DIGITS[LastDigit(v, base)] && r[1..] == if q == 0 then [] else DigitsReversed(q, base)
  {
  }

  /** The do/while loop: digits of `v`, least significant first, from the start. */
  method EmitDigits(str: array<char>, v: nat, base: nat) returns (i: nat)
    requires 2 <= base <= 16 && |DigitsReversed(v, base)| <= str.Length
    modifies str
    ensures i == |DigitsReversed(v, base)| && str[..i] == DigitsReversed(v, base)
    ensures forall k :: i <= k < str.Length ==> str[k] == old(str[k])
  {
    hide DigitsReversed, Quotient, LastDigit;
    ghost var all := DigitsReversed(v, base);
    i := 0;
    var val: nat := v;
    while true
      invariant 0 <= i < |all| && all[i..] == DigitsReversed(val, base)
      invariant str[..i] == all[..i]
      invariant forall k :: i <= k < str.Length ==> str[k] == old(str[k])
      decreases val
    {
      Unroll(val, base);
      str[i] := DIGITS[val % base];
      assert all[i..][1..] == all[i + 1..];
      i := i + 1;
      val := val / base;
      if val == 0 {
        break;
      }
    }
  }

  lemma TextIsReversal(v: nat, base: nat, negative: bool)
    requires 2 <= base <= 16
    ensures Text(v, base, negative) == Reversed(DigitsReversed(v, base) + if negative then "-" else "")
  {
    hide DigitsReversed;
    var r := DigitsReversed(v, base);
    if negative {
      assert Reversed(r + "-") == "-" + Reversed(r);
    } else {
      assert r + "" == r;
    }
  }

  method Xtoa(str: array<char>, val: nat, base: nat, negative: bool)
    requires val < TWO32 && 2 <= base <= 16
    requires |XtoaText(val, base, negative)| < str.Length
    modifies str
    ensures var text := XtoaText(val, base, negative);
            && str[..|text|] == text && str[|text|] == '\0'
            && forall k :: |text| < k < str.Length ==> str[k] == old(str[k])
  {
    hide DigitsReversed, Reversed;
    var v := val;
    if negative {
      v := if val == 0 then 0 else TWO32 - val;
    }
    var i := EmitDigits(str, v, base);
    if negative {
      str[i] := '-';
      i := i + 1;
    }
    str[i] := '\0';
    ghost var backwards := str[..i];
    assert backwards == DigitsReversed(v, base) + if negative then "-" else "";
    ReverseInPlace(str, i);
    TextIsReversal(v, base, negative);
  }
}
