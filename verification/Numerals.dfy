/** Numbers as text: the numeral of a number in a base, and the reader that undoes it. */
module Numerals {
  import opened Wrappers

  const DIGITS := "0123456789abcdef"

  predicate IsBase(base: nat) {
    base == 10 || base == 16
  }

  /** The numeral of n: its digits, the most significant first. */
  function Numeral(n: nat, base: nat): string
    requires IsBase(base)
  {
    if n < base then [DIGITS[n]]
    else
      Smaller(n, base);
      Numeral(n / base, base) + [DIGITS[n % base]]
  }

  /** How an integer is printed. */
  function Printed(v: int): string {
    if v < 0 then "-" + Numeral(-v, 10) else Numeral(v, 10)
  }

  function DigitValue(c: char): Option<nat> {
    if '0' <= c <= '9' then Some(c as nat - '0' as nat)
    else if 'a' <= c <= 'f' then Some(c as nat - 'a' as nat + 10)
    else None
  }

  /** Reads digits by weighing each with its place. */
  function Digits(s: string, base: nat): Option<nat> {
    if s == "" then Some(0)
    else
      var front, last := Digits(s[..|s| - 1], base), DigitValue(s[|s| - 1]);
      if front.Some? && last.Some? && last.value < base then Some(front.value * base + last.value) else None
  }

  function ParseNat(s: string, base: nat): Option<nat> {
    if s == "" then None else Digits(s, base)
  }

  function ParseInt(s: string): Option<int> {
    if s != "" && s[0] == '-' then
      var n := ParseNat(s[1..], 10);
      if n.Some? then Some(-(n.value as int)) else None
    else
      var n := ParseNat(s, 10);
      if n.Some? then Some(n.value) else None
  }

  function Power(base: nat, k: nat): nat {
    if k == 0 then 1 else base * Power(base, k - 1)
  }

  // ---------------------------------------------------------------- arithmetic

  lemma Smaller(n: nat, base: nat)
    requires IsBase(base) && base <= n
    ensures 1 <= n / base < n
  {
    if base == 10 {
      assert 1 <= n / 10 < n;
    }
  }

  lemma DivisionUnique(q: nat, r: nat, base: nat)
    requires IsBase(base) && r < base
    ensures (q * base + r) / base == q && (q * base + r) % base == r
  {
    if base == 10 {
      assert (q * 10 + r) / 10 == q && (q * 10 + r) % 10 == r;
    } else {
      assert (q * 16 + r) / 16 == q && (q * 16 + r) % 16 == r;
    }
  }

  lemma DivisionSum(n: nat, base: nat)
    requires IsBase(base)
    ensures (n / base) * base + n % base == n
  {
    if base == 10 {
      assert (n / 10) * 10 + n % 10 == n;
    }
  }

  lemma BelowMultiple(n: nat, base: nat, p: nat)
    requires IsBase(base)
    ensures n / base < p <==> n < base * p
  {
    if base == 10 {
      assert n / 10 < p <==> n < 10 * p;
    } else {
      assert n / 16 < p <==> n < 16 * p;
    }
  }

  // ---------------------------------------------------------------- reading back

  lemma DigitRoundTrip(d: nat)
    requires d < 16
    ensures DigitValue(DIGITS[d]) == Some(d)
  {
  }

  lemma DigitKnown(c: char)
    requires DigitValue(c).Some?
    ensures DigitValue(c).value < 16 && DIGITS[DigitValue(c).value] == c
  {
  }

  /** Reading the numeral of n gives n back. */
  lemma {:induction false} NumeralReadsBack(n: nat, base: nat)
    requires IsBase(base)
    ensures ParseNat(Numeral(n, base), base) == Some(n)
    ensures Numeral(n, base) != "" && DigitValue(Numeral(n, base)[0]).Some?
  {
    var s := Numeral(n, base);
    if n < base {
      DigitRoundTrip(n);
      assert s[..|s| - 1] == "" && Digits(s[..|s| - 1], base) == Some(0);
    } else {
      Smaller(n, base);
      NumeralReadsBack(n / base, base);
      assert s[..|s| - 1] == Numeral(n / base, base);
      DigitRoundTrip(n % base);
      DivisionSum(n, base);
    }
  }

  /** Reading a printed integer gives it back, whatever its sign and size. */
  lemma PrintedReadsBack(v: int)
    ensures ParseInt(Printed(v)) == Some(v)
  {
    NumeralReadsBack(if v < 0 then -v else v, 10);
    if v < 0 {
      assert Printed(v)[1..] == Numeral(-v, 10);
    }
  }

  lemma {:induction false} NoLeadingZero(n: nat, base: nat)
    requires IsBase(base)
    ensures Numeral(n, base)[0] == '0' <==> n == 0
    ensures n == 0 ==> Numeral(n, base) == "0"
  {
    if n < base {
      DigitRoundTrip(n);
    } else {
      Smaller(n, base);
      NoLeadingZero(n / base, base);
    }
  }

  lemma {:induction false} ReadsAtLeastOne(s: string, base: nat)
    requires IsBase(base) && s != "" && s[0] != '0' && Digits(s, base).Some?
    ensures Digits(s, base).value >= 1
  {
    if |s| == 1 {
      assert s[..0] == "";
      DigitKnown(s[0]);
    } else {
      ReadsAtLeastOne(s[..|s| - 1], base);
      assert Digits(s[..|s| - 1], base).value * base >= 1;
    }
  }

  /** A digit string of more than one digit splits into its last digit and a string for the rest. */
  lemma LastDigit(s: string, n: nat, base: nat)
    requires IsBase(base) && |s| > 1 && s[0] != '0' && ParseNat(s, base) == Some(n)
    ensures n >= base && ParseNat(s[..|s| - 1], base) == Some(n / base)
    ensures s == s[..|s| - 1] + [DIGITS[n % base]]
  {
    var d := DigitValue(s[|s| - 1]).value;
    var q := Digits(s[..|s| - 1], base).value;
    DigitKnown(s[|s| - 1]);
    ReadsAtLeastOne(s[..|s| - 1], base);
    assert n == q * base + d && d < base && q >= 1;
    hide Digits, DigitValue;
    DivisionUnique(q, d, base);
    assert q * base >= base;
    assert s == s[..|s| - 1] + [s[|s| - 1]];
  }

  /** The numeral is the only digit string without a leading zero that reads as n. */
  lemma {:induction false} NumeralUnique(s: string, n: nat, base: nat)
    requires IsBase(base) && ParseNat(s, base) == Some(n) && (s[0] != '0' || |s| == 1)
    ensures s == Numeral(n, base)
  {
    if |s| == 1 {
      assert s[..|s| - 1] == "" && Digits(s[..|s| - 1], base) == Some(0);
      DigitKnown(s[0]);
    } else {
      LastDigit(s, n, base);
      hide Digits, DigitValue;
      NumeralUnique(s[..|s| - 1], n / base, base);
    }
  }

  /** A numeral has at most k digits exactly when the number is below the k-th power of the base. */
  lemma {:induction false} NumeralLength(n: nat, base: nat, k: nat)
    requires IsBase(base) && k >= 1
    ensures |Numeral(n, base)| <= k <==> n < Power(base, k)
  {
    PowerPositive(base, k - 1);
    assert Power(base, k) == base * Power(base, k - 1);
    if n < base {
      assert base * Power(base, k - 1) >= base;
    } else {
      Smaller(n, base);
      if k == 1 {
        assert Power(base, 1) == base * Power(base, 0) == base;
        assert |Numeral(n / base, base)| >= 1 by { NumeralReadsBack(n / base, base); }
      } else {
        NumeralLength(n / base, base, k - 1);
        BelowMultiple(n, base, Power(base, k - 1));
      }
    }
  }

  lemma {:induction false} PowerPositive(base: nat, k: nat)
    requires base >= 1
    ensures Power(base, k) >= 1
  {
    if k > 0 {
      PowerPositive(base, k - 1);
    }
  }

  lemma TenPowers()
    ensures Power(10, 19) == 10_000_000_000_000_000_000
    ensures Power(10, 20) == 100_000_000_000_000_000_000
  {
    assert Power(10, 5) == 100_000;
    assert Power(10, 10) == 10_000_000_000;
    assert Power(10, 15) == 1_000_000_000_000_000;
  }

  lemma SixteenPowers()
    ensures Power(16, 16) == 0x1_0000_0000_0000_0000
  {
    assert Power(16, 4) == 0x1_0000;
    assert Power(16, 8) == 0x1_0000_0000;
    assert Power(16, 12) == 0x1_0000_0000_0000;
  }

  /** Twenty characters are enough for every 64-bit integer, signed or unsigned, and sixteen digits for
      every 64-bit address. */
  lemma SixtyFourBitsFit(v: int)
    requires -0x8000_0000_0000_0000 <= v < 0x1_0000_0000_0000_0000
    ensures |Printed(v)| <= 20
    ensures v >= 0 ==> |Numeral(v, 16)| <= 16
  {
    TenPowers();
    SixteenPowers();
    hide Power, Numeral;
    if v < 0 {
      NumeralLength(-v, 10, 19);
    } else {
      NumeralLength(v, 10, 20);
      NumeralLength(v, 16, 16);
    }
  }
}
