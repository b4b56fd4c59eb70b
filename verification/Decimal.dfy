/** Decimal rendering of numbers (src/foundation.cpp). */
module Decimal {
  import opened Foundation

  const ZERO: Byte := 48

  function Digits(n: nat): (t: Text)
    ensures t != []
  {
    if n < 10 then [ZERO + n] else Digits(n / 10) + [ZERO + n % 10]
  }

  /** Zero-padded to at least `width` digits. */
  function Pad(n: nat, width: nat): Text {
    var t := Digits(n);
    if |t| < width then seq(width - |t|, i => ZERO) + t else t
  }

  /** The number a run of digits denotes. */
  function Value(t: Text): int {
    if t == [] then 0 else 10 * Value(t[..|t| - 1]) + t[|t| - 1] - ZERO
  }

  lemma {:induction false} DigitsDenote(n: nat)
    ensures Value(Digits(n)) == n
  {
    if n >= 10 {
      DigitsDenote(n / 10);
      assert Digits(n)[..|Digits(n)| - 1] == Digits(n / 10);
    }
  }

  lemma {:induction false} LeadingZeros(k: nat, t: Text)
    ensures Value(seq(k, i => ZERO) + t) == Value(t)
  {
    if t != [] {
      LeadingZeros(k, t[..|t| - 1]);
      assert (seq(k, i => ZERO) + t)[..k + |t| - 1] == seq(k, i => ZERO) + t[..|t| - 1];
    } else if k > 0 {
      LeadingZeros(k - 1, t);
      assert (seq(k, i => ZERO) + t)[..k - 1] == seq(k - 1, i => ZERO) + t;
    }
  }

  /** A padded number reads back as the number. */
  lemma PadDenotes(n: nat, width: nat)
    ensures Value(Pad(n, width)) == n
  {
    DigitsDenote(n);
    if |Digits(n)| < width {
      LeadingZeros(width - |Digits(n)|, Digits(n));
    }
  }

  lemma {:induction false} DigitCount(n: nat, width: nat)
    requires width > 0 && n < Power(10, width)
    ensures |Digits(n)| <= width
    decreases width
  {
    if n >= 10 {
      assert Power(10, width) == 10 * Power(10, width - 1);
      assert width != 1;
      DigitCount(n / 10, width - 1);
    }
  }

  function Power(base: nat, exponent: nat): nat {
    if exponent == 0 then 1 else base * Power(base, exponent - 1)
  }

  /** A number that fits is padded to exactly the width. */
  lemma PadWidth(n: nat, width: nat)
    requires width > 0 && n < Power(10, width)
    ensures |Pad(n, width)| == width
  {
    DigitCount(n, width);
  }
}
