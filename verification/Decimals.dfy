/** Decimal digits: fixed-width and shortest texts of natural numbers, and reading them back. */
module Decimals {
  predicate IsDigit(c: char) { '0' <= c <= '9' }

  predicate Digits(s: string) { forall i :: 0 <= i < |s| ==> IsDigit(s[i]) }

  function DigitValue(c: char): nat { if IsDigit(c) then c as int - '0' as int else 0 }

  function Number(s: string): nat {
    if s == "" then 0 else 10 * Number(s[..|s| - 1]) + DigitValue(s[|s| - 1])
  }

  function DigitChar(d: nat): (c: char)
    requires d < 10
    ensures IsDigit(c) && DigitValue(c) == d
  {
    ('0' as int + d) as char
  }

  /** The last `w` decimal digits. */
  function Decimal(n: nat, w: nat): (s: string)
    ensures |s| == w && Digits(s)
  {
    if w == 0 then "" else Decimal(n / 10, w - 1) + [DigitChar(n % 10)]
  }

  /** `%0wd` of a natural number: at least `w` digits. */
  function Padded(n: nat, w: nat): (s: string)
    ensures |s| >= w && |s| >= 1 && Digits(s)
  {
    if n < 10 && w <= 1 then [DigitChar(n)]
    else Padded(n / 10, if w == 0 then 0 else w - 1) + [DigitChar(n % 10)]
  }

  function Pow10(w: nat): nat { if w == 0 then 1 else 10 * Pow10(w - 1) }

  lemma {:induction false} NumberDecimal(n: nat, w: nat)
    requires n < Pow10(w)
    ensures Number(Decimal(n, w)) == n
  {
    if w > 0 {
      assert n / 10 < Pow10(w - 1);
      NumberDecimal(n / 10, w - 1);
    }
  }

  lemma {:induction false} PaddedDecimal(n: nat, w: nat)
    requires n < Pow10(w) && w > 0
    ensures Padded(n, w) == Decimal(n, w)
  {
    if w > 1 {
      assert n / 10 < Pow10(w - 1);
      PaddedDecimal(n / 10, w - 1);
    } else {
      assert Decimal(n / 10, 0) == "";
    }
  }

  lemma {:induction false} PaddedLonger(n: nat, w: nat)
    requires n >= Pow10(w)
    ensures |Padded(n, w)| > w
  {
    if w > 0 {
      assert n / 10 >= Pow10(w - 1);
      PaddedLonger(n / 10, w - 1);
    }
  }

  lemma TensSplit(a: nat, b: nat)
    ensures a < b <==> a / 10 < b / 10 || (a / 10 == b / 10 && a % 10 < b % 10)
  {
  }

  lemma {:induction false} NumberPadded(n: nat, w: nat)
    ensures Number(Padded(n, w)) == n
  {
    if n < 10 && w <= 1 {
      assert [DigitChar(n)][..0] == "";
    } else {
      NumberPadded(n / 10, if w == 0 then 0 else w - 1);
    }
  }

  /** The shortest text, as `std::to_string` gives it. */
  function Shortest(n: nat): (s: string)
    ensures |s| >= 1 && Digits(s)
  {
    Padded(n, 1)
  }

  lemma {:induction false} NoLeadingZero(n: nat)
    requires n > 0
    ensures Shortest(n)[0] != '0'
  {
    if n >= 10 {
      NoLeadingZero(n / 10);
      PaddedZeroOne(n / 10);
    }
  }

  lemma {:induction false} PaddedZeroOne(n: nat)
    ensures Padded(n, 0) == Padded(n, 1)
  {
  }

  lemma {:induction false} ShortestLength(n: nat, w: nat)
    requires w > 0 && n < Pow10(w)
    ensures |Padded(n, 1)| <= w
    decreases w
  {
    if n >= 10 {
      assert n / 10 < Pow10(w - 1) && Pow10(0) == 1;
      ShortestLength(n / 10, w - 1);
      PaddedZeroOne(n / 10);
    }
  }

  /** The hexadecimal digit of a value's last four bits. */
  function HexDigit(d: nat): char { "0123456789abcdef"[d % 16] }
}
