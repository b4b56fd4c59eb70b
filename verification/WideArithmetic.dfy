/** 128-bit products and quotients from 64-bit words, and the percentages computed with them
    (src/foundation.cpp). */
module WideArithmetic {
  import opened Foundation
  import opened Decimal

  const HALF: nat := 0x1_0000_0000
  const FULL: nat := 0x1_0000_0000_0000_0000

  datatype U128 = U128(hi: U64, lo: U64) {
    function Value(): nat { hi * FULL + lo }
  }

  // ---------------------------------------------------------------------------------
  // Products and quotients as the solver is to see them
  // ---------------------------------------------------------------------------------

  function Mul(a: int, b: int): int { a * b }

  /** `q` and `r` are quotient and remainder of `v` by `d`. */
  predicate DivMod(v: int, d: int, q: int, r: int) {
    0 <= r < d && v == Mul(q, d) + r
  }

  lemma Distribute(a: int, b: int, c: int)
    ensures Mul(a + b, c) == Mul(a, c) + Mul(b, c)
  {
  }

  lemma Associate(a: int, b: int, c: int)
    ensures Mul(Mul(a, b), c) == Mul(a, Mul(b, c))
  {
  }

  lemma Commute(a: int, b: int)
    ensures Mul(a, b) == Mul(b, a)
  {
  }

  lemma One(a: int)
    ensures Mul(1, a) == a && Mul(0, a) == 0 && Mul(2, a) == a + a
  {
  }

  lemma Monotone(a: int, b: int, c: nat)
    requires a <= b
    ensures Mul(a, c) <= Mul(b, c)
  {
  }

  lemma HasDivMod(v: nat, d: nat)
    requires d > 0
    ensures DivMod(v, d, v / d, v % d)
  {
  }

  lemma DivModIsUnique(v: nat, d: nat, q: nat, r: nat, q2: nat, r2: nat)
    requires DivMod(v, d, q, r) && DivMod(v, d, q2, r2)
    ensures q == q2 && r == r2
  {
    hide Mul;
    if q < q2 {
      Monotone(q + 1, q2, d);
      Distribute(q, 1, d);
      One(d);
    } else if q2 < q {
      Monotone(q2 + 1, q, d);
      Distribute(q2, 1, d);
      One(d);
    }
  }

  lemma QuotientOf(v: nat, d: nat, q: nat, r: nat)
    requires DivMod(v, d, q, r)
    ensures v / d == q && v % d == r
  {
    HasDivMod(v, d);
    hide DivMod;
    DivModIsUnique(v, d, v / d, v % d, q, r);
  }

  lemma HalvedDivMod(v: nat, p: nat, q: nat, r: nat, h: nat, b: nat)
    requires DivMod(v, p, q, r) && q == 2 * h + b && b < 2
    ensures DivMod(v, 2 * p, h, Mul(b, p) + r)
  {
    hide Mul;
    Distribute(h + h, b, p);
    Distribute(h, h, p);
    Commute(h, 2 * p);
    Distribute(p, p, h);
    Commute(p, h);
    One(p);
  }

  lemma NestedDivMod(v: nat, a: nat, b: nat, q: nat, r: nat, q2: nat, r2: nat)
    requires DivMod(v, a, q, r) && DivMod(q, b, q2, r2)
    ensures DivMod(v, Mul(b, a), q2, Mul(r2, a) + r)
  {
    hide Mul;
    Distribute(Mul(q2, b), r2, a);
    Associate(q2, b, a);
    Monotone(r2, b - 1, a);
    Distribute(b - 1, 1, a);
    Monotone(0, r2, a);
    One(a);
  }

  lemma ShiftedDivMod(x: nat, k: nat, p: nat, q: nat, r: nat)
    requires DivMod(x, p, q, r)
    ensures DivMod(Mul(k, p) + x, p, k + q, r)
  {
    hide Mul;
    Distribute(k, q, p);
  }

  // ---------------------------------------------------------------------------------
  // Product
  // ---------------------------------------------------------------------------------

  lemma ProductBound(a: nat, b: nat, m: nat, n: nat)
    requires a <= m && b <= n
    ensures a * b <= m * n
  {
    assert a * b <= m * b by { Scale(a, m, b); }
    assert m * b <= m * n by { Scale(b, n, m); }
  }

  lemma Scale(a: nat, b: nat, k: nat)
    requires a <= b
    ensures a * k <= b * k
  {
  }

  /** The schoolbook product in base 2^32. */
  lemma HalvesMultiply(a0: nat, a1: nat, b0: nat, b1: nat)
    ensures (a1 * HALF + a0) * (b1 * HALF + b0) == a1 * b1 * FULL + (a0 * b1 + a1 * b0) * HALF + a0 * b0
  {
    var x, y := a1 * HALF, b1 * HALF;
    assert (x + a0) * (y + b0) == x * y + x * b0 + a0 * y + a0 * b0;
    assert x * y == a1 * b1 * FULL;
    assert x * b0 == a1 * b0 * HALF;
    assert a0 * y == a0 * b1 * HALF;
    assert (a0 * b1 + a1 * b0) * HALF == a0 * b1 * HALF + a1 * b0 * HALF;
  }

  /** All words of the computation fit and the result is the product. */
  lemma ProductInWords(a: U64, b: U64, a0: nat, a1: nat, b0: nat, b1: nat)
    requires a0 == a % HALF && a1 == a / HALF && b0 == b % HALF && b1 == b / HALF
    ensures a0 * b0 < FULL && a0 * b1 < FULL && a1 * b0 < FULL && a1 * b1 < FULL
    ensures a * b == a1 * b1 * FULL + (a0 * b1 + a1 * b0) * HALF + a0 * b0
  {
    ProductBound(a0, b0, HALF - 1, HALF - 1);
    ProductBound(a0, b1, HALF - 1, HALF - 1);
    ProductBound(a1, b0, HALF - 1, HALF - 1);
    ProductBound(a1, b1, HALF - 1, HALF - 1);
    HalvesMultiply(a0, a1, b0, b1);
    assert a == a1 * HALF + a0 && b == b1 * HALF + b0;
  }

  /** Adds the partial products, carrying through the middle words. */
  method AddPartials(p00: U64, p01: U64, p10: U64, p11: U64) returns (r: U128)
    requires p11 * FULL + (p01 + p10) * HALF + p00 < FULL * FULL
    ensures r.Value() == p11 * FULL + (p01 + p10) * HALF + p00
  {
    CarriesAddUp(p00, p01, p10, p11);
    var mid: U64 := p00 / HALF + p01 % HALF + p10 % HALF;
    // or-ing the halves together adds them: their bits are disjoint
    var lo: U64 := p00 % HALF + (mid * HALF) % FULL;
    var hi: U64 := p11 + p01 / HALF + p10 / HALF + mid / HALF;
    return U128(hi, lo);
  }

  /** The exact product. Every intermediate value fits its 64-bit word. */
  method MulU64(a: U64, b: U64) returns (r: U128)
    ensures r.Value() == a * b
  {
    var a0, a1 := a % HALF, a / HALF;
    var b0, b1 := b % HALF, b / HALF;
    ProductInWords(a, b, a0, a1, b0, b1);
    ProductBound(a, b, FULL - 1, FULL - 1);
    r := AddPartials(a0 * b0, a0 * b1, a1 * b0, a1 * b1);
  }

  lemma CarriesAddUp(p00: nat, p01: nat, p10: nat, p11: nat)
    ensures var mid := p00 / HALF + p01 % HALF + p10 % HALF;
            (p11 + p01 / HALF + p10 / HALF + mid / HALF) * FULL + (p00 % HALF + (mid * HALF) % FULL)
            == p11 * FULL + (p01 + p10) * HALF + p00
  {
    var mid := p00 / HALF + p01 % HALF + p10 % HALF;
    assert mid == (mid / HALF) * HALF + mid % HALF;
    assert (mid * HALF) % FULL == (mid % HALF) * HALF;
    assert p00 == (p00 / HALF) * HALF + p00 % HALF;
    assert p01 == (p01 / HALF) * HALF + p01 % HALF;
    assert p10 == (p10 / HALF) * HALF + p10 % HALF;
  }

  // ---------------------------------------------------------------------------------
  // Quotient
  // ---------------------------------------------------------------------------------

  function Pow2(n: nat): (p: nat)
    ensures p > 0
  {
    if n == 0 then 1 else 2 * Pow2(n - 1)
  }

  /** What the shift-subtract division answers. */
  function Quotient(value: nat, divisor: U64): U64 {
    if divisor == 0 then 0
    else if value / divisor > U64_MAX then U64_MAX
    else value / divisor
  }

  lemma NextBit(v: nat, n: nat)
    ensures v / Pow2(n) == 2 * (v / Pow2(n + 1)) + v / Pow2(n) % 2
  {
    var p := Pow2(n);
    assert Pow2(n + 1) == 2 * p;
    HalveQuotient(v, p);
  }

  lemma HalveQuotient(v: nat, p: nat)
    requires p > 0
    ensures v / (2 * p) == (v / p) / 2
  {
    var q := v / p;
    HasDivMod(v, p);
    HalvedDivMod(v, p, q, v % p, q / 2, q % 2);
    hide DivMod, Mul;
    QuotientOf(v, 2 * p, q / 2, Mul(q % 2, p) + v % p);
  }

  lemma UniqueQuotient(v: nat, d: nat, q: nat, r: nat)
    requires v == q * d + r && r < d
    ensures v / d == q && v % d == r
  {
    assert DivMod(v, d, q, r);
    hide DivMod;
    QuotientOf(v, d, q, r);
  }

  lemma ScaleUp(k: nat, d: nat)
    requires k > 0
    ensures k * d >= d
  {
  }

  lemma {:induction false} Pow2Adds(m: nat, n: nat)
    ensures Pow2(m + n) == Pow2(m) * Pow2(n)
  {
    if m > 0 {
      Pow2Adds(m - 1, n);
      assert 2 * (Pow2(m - 1) * Pow2(n)) == Pow2(m) * Pow2(n);
    }
  }

  lemma Pow2Words()
    ensures Pow2(63) == 0x8000_0000_0000_0000 && Pow2(64) == FULL
  {
    assert Pow2(8) == 256;
    Pow2Adds(8, 8);
    Pow2Adds(16, 16);
    Pow2Adds(32, 32);
    assert Pow2(64) == 2 * Pow2(63);
  }

  lemma TopIsEmpty(v: nat)
    requires v < FULL * FULL
    ensures v / Pow2(128) == 0
  {
    Pow2Words();
    Pow2Adds(64, 64);
  }

  lemma AddMultiple(x: nat, k: nat, p: nat)
    requires p > 0
    ensures (k * p + x) / p == k + x / p
  {
    HasDivMod(x, p);
    ShiftedDivMod(x, k, p, x / p, x % p);
    assert Mul(k, p) == k * p;
    hide DivMod, Mul;
    QuotientOf(Mul(k, p) + x, p, k + x / p, x % p);
  }

  lemma EvenShift(k: nat, y: nat)
    ensures (2 * k + y) % 2 == y % 2
  {
  }

  lemma HighQuotient(hi: nat, lo: nat, p: nat)
    requires lo < FULL && p > 0
    ensures (hi * FULL + lo) / (FULL * p) == hi / p
  {
    AddMultiple(lo, hi, FULL);
    DivideTwice(hi * FULL + lo, FULL, p);
  }

  lemma LowQuotient(hi: nat, lo: nat, k: nat, p: nat)
    requires p > 0 && (2 * k) * p == FULL
    ensures (hi * FULL + lo) / p % 2 == lo / p % 2
  {
    Regroup(hi, 2 * k, p);
    AddMultiple(lo, hi * (2 * k), p);
    Regroup(hi, k, 2);
    EvenShift(hi * k, lo / p);
    assert hi * (2 * k) == 2 * (hi * k);
  }

  /** The bit the loop extracts is the bit of the value. */
  lemma BitOfValue(value: U128, bit: nat)
    requires bit <= 127
    ensures value.Value() / Pow2(bit) % 2 ==
            if bit >= 64 then (value.hi / Pow2(bit - 64)) % 2 else (value.lo / Pow2(bit)) % 2
  {
    Pow2Words();
    if bit >= 64 {
      Pow2Adds(64, bit - 64);
      hide Pow2;
      HighQuotient(value.hi, value.lo, Pow2(bit - 64));
    } else {
      Pow2Adds(64 - bit, bit);
      assert Pow2(64 - bit) == 2 * Pow2(63 - bit);
      hide Pow2;
      LowQuotient(value.hi, value.lo, Pow2(63 - bit), Pow2(bit));
    }
  }

  lemma Regroup(a: nat, b: nat, c: nat)
    ensures a * (b * c) == (a * b) * c
  {
  }

  lemma DivideTwice(v: nat, a: nat, b: nat)
    requires a > 0 && b > 0
    ensures a * b > 0 && v / (a * b) == v / a / b
  {
    var q := v / a;
    HasDivMod(v, a);
    HasDivMod(q, b);
    NestedDivMod(v, a, b, q, v % a, q / b, q % b);
    assert Mul(b, a) == a * b;
    hide DivMod, Mul;
    QuotientOf(v, Mul(b, a), q / b, Mul(q % b, a) + v % a);
  }

  lemma AtLeastMultiple(v: nat, p: nat, d: nat, n: nat)
    requires p > 0 && d > 0
    requires p >= n && v / p >= d
    ensures v / d >= n
  {
    HasDivMod(v, p);
    HasDivMod(v, d);
    var q, r := v / p, v % p;
    var k, e := v / d, v % d;
    hide Mul;
    MultipleBound(v, p, d, n, q, r, k, e);
  }

  lemma MultipleBound(v: nat, p: nat, d: nat, n: nat, q: nat, r: nat, k: nat, e: nat)
    requires DivMod(v, p, q, r) && DivMod(v, d, k, e) && p >= n && q >= d
    ensures k >= n
  {
    hide Mul;
    if k < n {
      Monotone(k + 1, p, d);
      Distribute(k, 1, d);
      One(d);
      Monotone(d, q, p);
      Commute(d, p);
    }
  }

  lemma TooLarge(v: nat, bit: nat, divisor: U64)
    requires 64 <= bit && divisor > 0 && v / Pow2(bit) >= divisor
    ensures v / divisor > U64_MAX
  {
    Pow2Words();
    Pow2Adds(64, bit - 64);
    hide Pow2;
    ScaleUp(Pow2(bit - 64), FULL);
    assert Pow2(bit) >= FULL;
    AtLeastMultiple(v, Pow2(bit), divisor, FULL);
  }

  lemma ScaledBit(q: nat, digit: nat, p: nat)
    ensures q * (2 * p) + digit * p == (2 * q + digit) * p
  {
  }

  lemma ScaledBelow(q: nat, n: nat, p: nat)
    requires q < n
    ensures q * p <= n * p - p
  {
    Scale(q, n - 1, p);
    assert (n - 1) * p == n * p - p;
  }

  lemma QuotientBit(q: nat, bit: nat, digit: nat)
    requires bit <= 63 && digit < 2
    requires if bit == 63 then q == 0 else q < Pow2(63 - bit)
    ensures q * Pow2(bit + 1) + digit * Pow2(bit) == (2 * q + digit) * Pow2(bit) < FULL
    ensures 2 * q + digit < Pow2(64 - bit)
  {
    Pow2Words();
    assert Pow2(bit + 1) == 2 * Pow2(bit);
    assert Pow2(64 - bit) == 2 * Pow2(63 - bit);
    Pow2Adds(64 - bit, bit);
    hide Pow2;
    ScaledBit(q, digit, Pow2(bit));
    ScaledBelow(2 * q + digit, Pow2(64 - bit), Pow2(bit));
  }

  /** One step of the division on values: shift in a bit, subtract if possible. */
  lemma DivisionStep(v: nat, bit: nat, divisor: U64, q: nat, remainder: U64, next: nat)
    requires divisor > 0 && remainder < divisor && next == v / Pow2(bit) % 2
    requires v / Pow2(bit + 1) == q * divisor + remainder
    ensures var wide := 2 * remainder + next;
            && wide < 2 * divisor
            && v / Pow2(bit) == 2 * q * divisor + wide
            && (wide >= divisor ==> v / Pow2(bit) == (2 * q + 1) * divisor + (wide - divisor))
  {
    NextBit(v, bit);
    assert 2 * (q * divisor) == 2 * q * divisor;
    assert (2 * q + 1) * divisor == 2 * q * divisor + divisor;
  }

  /** The carry stands for the bit shifted out of the remainder. */
  lemma ShiftWithCarry(remainder: U64, next: nat, divisor: U64)
    requires next < 2 && remainder < divisor
    ensures var wide := 2 * remainder + next;
            var shifted := Shifted(remainder, next);
            var carry := Carries(remainder);
            && shifted < FULL
            && (carry || shifted >= divisor <==> wide >= divisor)
            && (wide >= divisor ==> (shifted - divisor) % FULL == wide - divisor)
            && (wide < divisor ==> shifted == wide)
  {
    if Carries(remainder) {
      assert (remainder * 2) % FULL == remainder * 2 - FULL;
    }
  }

  /** The state of the division when `n` bits are left: quotient and remainder of the bits
      seen so far. */
  ghost predicate Divided(v: nat, n: nat, divisor: U64, q: nat, remainder: U64) {
    && remainder < divisor && v / Pow2(n) == q * divisor + remainder
    && if n >= 64 then q == 0 else q < Pow2(64 - n)
  }

  /** A quotient moved to its place. */
  function Placed(q: nat, n: nat): nat {
    q * Pow2(n)
  }

  /** The remainder after one more bit, as the 64-bit code computes it. */
  function Shifted(remainder: U64, next: nat): nat {
    (remainder * 2) % FULL + next
  }

  predicate Carries(remainder: U64) {
    remainder >= 0x8000_0000_0000_0000
  }

  lemma SubtractStep(v: nat, n: nat, divisor: U64, q: nat, remainder: U64, next: nat)
    requires Divided(v, n + 1, divisor, q, remainder) && next == v / Pow2(n) % 2
    requires Carries(remainder) || Shifted(remainder, next) >= divisor
    ensures if n >= 64 then v / divisor > U64_MAX
            else && Divided(v, n, divisor, 2 * q + 1, (Shifted(remainder, next) - divisor) % FULL)
                 && Placed(2 * q + 1, n) == Placed(q, n + 1) + Pow2(n) < FULL
  {
    Pow2Words();
    hide Pow2;
    DivisionStep(v, n, divisor, q, remainder, next);
    ShiftWithCarry(remainder, next, divisor);
    if n >= 64 {
      TooLarge(v, n, divisor);
    } else {
      QuotientBit(q, n, 1);
    }
  }

  lemma KeepStep(v: nat, n: nat, divisor: U64, q: nat, remainder: U64, next: nat)
    requires Divided(v, n + 1, divisor, q, remainder) && next == v / Pow2(n) % 2
    requires !Carries(remainder) && Shifted(remainder, next) < divisor
    ensures Divided(v, n, divisor, 2 * q, Shifted(remainder, next)) && Placed(2 * q, n) == Placed(q, n + 1)
  {
    Pow2Words();
    hide Pow2;
    DivisionStep(v, n, divisor, q, remainder, next);
    ShiftWithCarry(remainder, next, divisor);
    if n >= 64 {
      assert q == 0;
    } else {
      QuotientBit(q, n, 0);
    }
  }

  lemma DivisionStarts(v: nat, divisor: U64)
    requires v < FULL * FULL && divisor > 0
    ensures Divided(v, 128, divisor, 0, 0) && Placed(0, 128) == 0
  {
    TopIsEmpty(v);
  }

  lemma DivisionEnds(v: nat, divisor: U64, q: nat, remainder: U64)
    requires divisor > 0 && Divided(v, 0, divisor, q, remainder)
    ensures v / divisor == Placed(q, 0) <= U64_MAX
  {
    Pow2Words();
    OneUnit(v);
    UniqueQuotient(v, divisor, q, remainder);
  }

  lemma WideValue(value: U128)
    ensures value.Value() < FULL * FULL
  {
  }

  /** Shift-subtract division with a carry out of the top of the remainder. The quotient is
      exact whenever it fits a word. */
  method DivU128ByU64(value: U128, divisor: U64) returns (quotient: U64)
    ensures quotient == Quotient(value.Value(), divisor)
  {
    hide Pow2, Divided, Placed, Shifted, Carries, U128.Value;
    if divisor == 0 {
      return 0;
    }
    ghost var v := value.Value();
    quotient := 0;
    var remainder: U64 := 0;
    ghost var q: nat := 0;
    WideValue(value);
    DivisionStarts(v, divisor);
    var bit := 127;
    while bit >= 0
      invariant -1 <= bit <= 127
      invariant Divided(v, bit + 1, divisor, q, remainder) && quotient == Placed(q, bit + 1)
      decreases bit
    {
      var next := if bit >= 64 then (value.hi / Pow2(bit - 64)) % 2 else (value.lo / Pow2(bit)) % 2;
      BitOfValue(value, bit);
      ShiftedIsWord(remainder, next);
      var carry := Carries(remainder);
      ghost var before := remainder;
      remainder := Shifted(remainder, next);
      if carry || remainder >= divisor {
        SubtractStep(v, bit, divisor, q, before, next);
        remainder := (remainder - divisor) % FULL;
        if bit >= 64 {
          return U64_MAX;
        }
        quotient := quotient + Pow2(bit);
        q := 2 * q + 1;
      } else {
        KeepStep(v, bit, divisor, q, before, next);
        q := 2 * q;
      }
      bit := bit - 1;
    }
    DivisionEnds(v, divisor, q, remainder);
  }

  lemma ShiftedIsWord(remainder: U64, next: nat)
    requires next < 2
    ensures Shifted(remainder, next) <= U64_MAX
  {
  }

  lemma OneUnit(v: nat)
    ensures Pow2(0) == 1 && v / Pow2(0) == v
  {
  }

  // ---------------------------------------------------------------------------------
  // Percentages
  // ---------------------------------------------------------------------------------

  /** A part of a whole in basis points, saturated to 32 bits. */
  method BasisPointsOf(part: U64, whole: U64) returns (points: U64)
    ensures whole == 0 ==> points == 0
    ensures whole != 0 ==> points == if 10000 * part / whole > U32_MAX then U32_MAX else 10000 * part / whole
  {
    if whole == 0 {
      return 0;
    }
    var scaled := MulU64(part, 10000);
    var quotient := DivU128ByU64(scaled, whole);
    return if quotient > U32_MAX then U32_MAX else quotient;
  }

  /** Ten thousand times the ratio, rounded half up. */
  function RoundedHundredths(part: nat, whole: nat): nat
    requires whole > 0
  {
    (2 * 10000 * part + whole) / (2 * whole)
  }

  /** Rounding a truncated value to a coarser unit is rounding the value itself. */
  lemma TwoStageRounding(part: nat, whole: nat)
    requires whole > 0
    ensures (Millionths(part, whole) + 50) / 100 == RoundedHundredths(part, whole)
  {
    var micro := Millionths(part, whole);
    HasDivMod(1000000 * part, whole);
    RoundingInOneStage(part, whole, micro, 1000000 * part % whole, (micro + 50) / 100, (micro + 50) % 100);
  }

  lemma RoundingInOneStage(part: nat, whole: nat, micro: nat, rest: nat, h: nat, low: nat)
    requires DivMod(1000000 * part, whole, micro, rest) && micro + 50 == 100 * h + low && low < 100
    ensures RoundedHundredths(part, whole) == h
  {
    var excess := 2 * 10000 * part + whole - 2 * Mul(h, whole);
    assert 50 * excess == Mul(low, whole) + rest && DivMod(2 * 10000 * part + whole, 2 * whole, h, excess) by {
      Scaled(whole, micro, h, low);
      assert Mul(h, 2 * whole) == 2 * Mul(h, whole);
      hide Mul;
      Monotone(0, low, whole);
      Monotone(low, 99, whole);
      Ninety(whole);
      One(whole);
    }
    hide DivMod, Mul;
    QuotientOf(2 * 10000 * part + whole, 2 * whole, h, excess);
  }

  lemma Scaled(whole: nat, micro: int, h: int, low: int)
    requires micro + 50 == 100 * h + low
    ensures Mul(micro, whole) == 100 * Mul(h, whole) + Mul(low, whole) - 50 * whole
  {
    assert micro == 100 * h + low - 50;
  }

  lemma Ninety(whole: nat)
    ensures Mul(99, whole) == 99 * whole
  {
  }

  /** The text of a percentage given in hundredths. */
  function PercentText(hundredths: nat): Text {
    Digits(hundredths / 100) + [46] + Pad(hundredths % 100, 2) + [37]
  }

  const ZERO_PERCENT: Text := [48, 46, 48, 48, 37]
  const BEYOND_RANGE: Text := [62, 49, 46, 56, 101, 49, 52, 37]

  function Millionths(part: nat, whole: nat): nat
    requires whole > 0
  {
    1000000 * part / whole
  }

  method ComputeMillionths(part: U64, whole: U64) returns (micro: U64)
    requires whole > 0
    ensures micro == if Millionths(part, whole) > U64_MAX then U64_MAX else Millionths(part, whole)
  {
    var scaled := MulU64(part, 1000000);
    micro := DivU128ByU64(scaled, whole);
  }

  /** The millionths are rounded to hundredths of a percent in 64-bit arithmetic. Only for
      the last forty-nine values of the millionths before the range ends does the rounding wrap
      around. */
  method PercentString(part: U64, whole: U64) returns (text: Text)
    ensures whole == 0 ==> text == ZERO_PERCENT
    ensures whole != 0 && Millionths(part, whole) >= U64_MAX ==> text == BEYOND_RANGE
    ensures whole != 0 && Millionths(part, whole) + 50 <= U64_MAX ==> text == PercentText(RoundedHundredths(part, whole))
    ensures whole != 0 && U64_MAX - 50 < Millionths(part, whole) < U64_MAX ==> text == ZERO_PERCENT
  {
    if whole == 0 {
      return ZERO_PERCENT;
    }
    var micro := ComputeMillionths(part, whole);
    if micro == U64_MAX {
      return BEYOND_RANGE;
    }
    RoundingFits(part, whole, micro);
    hide Millionths, RoundedHundredths, Digits, Pad;
    var hundredths: U64 := (micro + 50) % FULL / 100;
    var wholePart := hundredths / 100;
    return Digits(wholePart) + [46] + Pad(hundredths % 100, 2) + [37];
  }

  /** What the two steps of rounding in a word give. */
  lemma RoundingFits(part: U64, whole: U64, micro: U64)
    requires whole > 0 && micro == Millionths(part, whole) < U64_MAX
    ensures micro + 50 <= U64_MAX ==> (micro + 50) % FULL / 100 == RoundedHundredths(part, whole)
    ensures micro + 50 > U64_MAX ==> (micro + 50) % FULL / 100 == 0 && PercentText(0) == ZERO_PERCENT
  {
    hide Digits, Pad;
    TwoStageRounding(part, whole);
    hide Millionths, RoundedHundredths;
    if micro + 50 > U64_MAX {
      ZeroPercent();
    }
  }

  /** Each of these forty-nine values of the millionths occurs, and the text is then wrong. */
  lemma RoundingWraps(part: U64)
    requires U64_MAX - 50 < part < U64_MAX
    ensures Millionths(part, 1000000) == part
    ensures RoundedHundredths(part, 1000000) > 0
  {
  }

  lemma ZeroPercent()
    ensures PercentText(0) == ZERO_PERCENT
  {
    assert Digits(0) == [48];
  }

  /** For a part of a whole the printed percentage is the true one rounded half up, and it is
      at most one hundred. */
  lemma PartOfWholePercent(part: U64, whole: U64)
    requires whole > 0 && part <= whole
    ensures Millionths(part, whole) + 50 <= U64_MAX
    ensures RoundedHundredths(part, whole) <= 10000
  {
    var q := 1000000 * part / whole;
    assert 1000000 * part == q * whole + (1000000 * part) % whole;
    if q > 1000000 {
      ProductBound(1000001, whole, q, whole);
    }
    var h := RoundedHundredths(part, whole);
    assert 2 * 10000 * part + whole == h * (2 * whole) + (2 * 10000 * part + whole) % (2 * whole);
    if h > 10000 {
      ProductBound(10001, 2 * whole, h, 2 * whole);
    }
  }

  /** Rounding is to the nearest hundredth: half of one is never exceeded, and only a tie
      is rounded up by a full half. */
  lemma RoundingError(part: nat, whole: nat)
    requires whole > 0
    ensures var h := RoundedHundredths(part, whole);
            2 * h * whole <= 2 * 10000 * part + whole < 2 * h * whole + 2 * whole
  {
    var h := RoundedHundredths(part, whole);
    assert 2 * 10000 * part + whole == h * (2 * whole) + (2 * 10000 * part + whole) % (2 * whole);
    assert h * (2 * whole) == 2 * h * whole;
  }
}
