/** The checksum as polynomial division over GF(2): the register is the remainder that section 8
    of RFC 1952 asks for (src/foundation.cpp). */
module Polynomials {
  import opened Foundation
  import opened Crc
  import Octets

  // ---------------------------------------------------------------------------------
  // Polynomials with coefficients 0 and 1
  // ---------------------------------------------------------------------------------

  /** The exponents whose coefficient is 1. */
  type Polynomial = set<nat>

  /** x^32 + x^26 + x^23 + x^22 + x^16 + x^12 + x^11 + x^10 + x^8 + x^7 + x^5 + x^4 + x^2 + x + 1 */
  const GENERATOR: Polynomial := {32, 26, 23, 22, 16, 12, 11, 10, 8, 7, 5, 4, 2, 1, 0}

  /** x^31 + x^30 + ... + x + 1 */
  const ALL_ONES: Polynomial := set e: nat | e < 32

  /** Addition, and subtraction: equal terms cancel. */
  function Plus(p: Polynomial, q: Polynomial): Polynomial {
    (p - q) + (q - p)
  }

  /** Multiplication by x^k. */
  function Shift(p: Polynomial, k: nat): Polynomial {
    set e | e in p :: e + k
  }

  /** The product of g and the polynomial with the given coefficients, the highest power first. */
  function Times(bits: seq<bool>, g: Polynomial): Polynomial {
    if bits == [] then {}
    else Plus(Shift(Times(bits[..|bits| - 1], g), 1), if bits[|bits| - 1] then g else {})
  }

  ghost predicate IsMultiple(p: Polynomial) {
    exists quotient :: p == Times(quotient, GENERATOR)
  }

  predicate Below32(p: Polynomial) {
    forall e :: e in p ==> e < 32
  }

  /** What division of p by the generator leaves. */
  ghost predicate IsRemainder(p: Polynomial, r: Polynomial) {
    Below32(r) && IsMultiple(Plus(p, r))
  }

  // ---------------------------------------------------------------------------------
  // What is divided
  // ---------------------------------------------------------------------------------

  /** The n lowest bits of a number, the lowest first. */
  function LowBits(value: nat, n: nat): (bits: seq<bool>)
    ensures |bits| == n
    decreases n
  {
    if n == 0 then [] else [value % 2 == 1] + LowBits(value / 2, n - 1)
  }

  /** The bits of a message in the order of transmission: the lowest bit of every byte first. */
  function MessageBits(data: seq<Byte>): (bits: seq<bool>)
    ensures |bits| == 8 * |data|
  {
    if data == [] then [] else MessageBits(data[..|data| - 1]) + LowBits(data[|data| - 1], 8)
  }

  /** The message is the polynomial whose coefficients are its bits, the first the highest. */
  function MessagePolynomial(data: seq<Byte>): Polynomial {
    Times(MessageBits(data), {0})
  }

  /** x^32 M(x) + x^k (x^31 + ... + 1), for a message M of k bits. */
  function Dividend(data: seq<Byte>): Polynomial {
    Plus(Shift(MessagePolynomial(data), 32), Shift(ALL_ONES, 8 * |data|))
  }

  // ---------------------------------------------------------------------------------
  // Registers as polynomials
  // ---------------------------------------------------------------------------------

  function Halves(c: bv32, k: nat): bv32 {
    if k == 0 then c else Half(Halves(c, k - 1))
  }

  /** Bit k of a word, counted from the lowest. */
  predicate BitOf(c: bv32, k: nat) {
    Odd(Halves(c, k))
  }

  /** A register is reflected: its lowest bit is the coefficient of x^31, its highest that of 1. */
  predicate HasTerm(c: bv32, e: nat) {
    e < 32 && BitOf(c, 31 - e)
  }

  function RegisterPolynomial(c: bv32): (p: Polynomial)
    ensures Below32(p)
  {
    set e: nat | e < 32 && HasTerm(c, e)
  }

  // ---------------------------------------------------------------------------------
  // Arithmetic
  // ---------------------------------------------------------------------------------

  lemma InSum(p: Polynomial, q: Polynomial, e: nat)
    ensures e in Plus(p, q) <==> (e in p) != (e in q)
  {
  }

  lemma InShift(p: Polynomial, k: nat, e: nat)
    ensures e in Shift(p, k) <==> e >= k && e - k in p
  {
    if e >= k && e - k in p {
      assert (e - k) + k in Shift(p, k);
    }
  }

  lemma SumsExchange(a: Polynomial, b: Polynomial, c: Polynomial, d: Polynomial)
    ensures Plus(Plus(a, b), Plus(c, d)) == Plus(Plus(a, c), Plus(b, d))
  {
  }

  lemma SumsAssociate(a: Polynomial, b: Polynomial, c: Polynomial)
    ensures Plus(Plus(a, b), c) == Plus(a, Plus(b, c))
  {
  }

  lemma SumsCommute(a: Polynomial, b: Polynomial)
    ensures Plus(a, b) == Plus(b, a)
  {
  }

  lemma SumsCancel(a: Polynomial, b: Polynomial)
    ensures Plus(a, a) == {} && Plus(a, {}) == a && Plus({}, a) == a
    ensures Plus(a, Plus(a, b)) == b && Plus(Plus(a, b), b) == a
    ensures Plus(a, b) == {} ==> a == b
  {
    forall e: nat ensures e in Plus(a, Plus(a, b)) <==> e in b {
      InSum(a, b, e);
      InSum(a, Plus(a, b), e);
    }
    forall e: nat ensures e in Plus(Plus(a, b), b) <==> e in a {
      InSum(a, b, e);
      InSum(Plus(a, b), b, e);
    }
    if Plus(a, b) == {} {
      forall e: nat ensures e in a <==> e in b {
        InSum(a, b, e);
      }
    }
  }

  lemma ShiftOfSum(p: Polynomial, q: Polynomial, k: nat)
    ensures Shift(Plus(p, q), k) == Plus(Shift(p, k), Shift(q, k))
  {
    forall e: nat ensures e in Shift(Plus(p, q), k) <==> e in Plus(Shift(p, k), Shift(q, k)) {
      InShift(Plus(p, q), k, e);
      InShift(p, k, e);
      InShift(q, k, e);
      InSum(Shift(p, k), Shift(q, k), e);
      if e >= k {
        InSum(p, q, e - k);
      }
    }
  }

  lemma ShiftsCompose(p: Polynomial, j: nat, k: nat)
    ensures Shift(Shift(p, j), k) == Shift(p, j + k)
    ensures Shift(p, 0) == p
  {
    forall e: nat ensures e in Shift(Shift(p, j), k) <==> e in Shift(p, j + k) {
      InShift(Shift(p, j), k, e);
      InShift(p, j + k, e);
      if e >= k {
        InShift(p, j, e - k);
      }
    }
    forall e: nat ensures e in Shift(p, 0) <==> e in p {
      InShift(p, 0, e);
    }
  }

  /** Products of concatenated coefficient lists. */
  lemma {:induction false} ProductOfConcatenation(a: seq<bool>, b: seq<bool>, g: Polynomial)
    ensures Times(a + b, g) == Plus(Shift(Times(a, g), |b|), Times(b, g))
  {
    hide Plus, Shift;
    if b == [] {
      assert a + b == a;
      ShiftsCompose(Times(a, g), 0, 0);
      SumsCancel(Times(a, g), {});
    } else {
      var n := |b| - 1;
      var top := if b[n] then g else {};
      assert (a + b)[..|a| + n] == a + b[..n];
      ProductOfConcatenation(a, b[..n], g);
      ShiftOfSum(Shift(Times(a, g), n), Times(b[..n], g), 1);
      ShiftsCompose(Times(a, g), n, 1);
      SumsAssociate(Shift(Times(a, g), n + 1), Shift(Times(b[..n], g), 1), top);
    }
  }

  /** A coefficient list says which exponents occur. */
  lemma {:induction false} CoefficientsOf(bits: seq<bool>, e: nat)
    ensures e in Times(bits, {0}) <==> e < |bits| && bits[|bits| - 1 - e]
  {
    hide Plus, Shift;
    if bits != [] {
      var n := |bits| - 1;
      var rest := Times(bits[..n], {0});
      InSum(Shift(rest, 1), if bits[n] then {0} else {}, e);
      InShift(rest, 1, e);
      if e > 0 {
        CoefficientsOf(bits[..n], e - 1);
      }
    }
  }

  // ---------------------------------------------------------------------------------
  // Remainders are unique
  // ---------------------------------------------------------------------------------

  /** A multiple of the generator other than 0 has degree 32 at least. */
  lemma {:induction false} MultiplesAreLong(quotient: seq<bool>)
    requires Below32(Times(quotient, GENERATOR))
    ensures Times(quotient, GENERATOR) == {}
  {
    hide Plus, Shift;
    if quotient != [] {
      var n := |quotient| - 1;
      var rest := Times(quotient[..n], GENERATOR);
      var top := if quotient[n] then GENERATOR else {};
      forall e | e in rest ensures e < 31 + 1 {
        InShift(rest, 1, e + 1);
        InSum(Shift(rest, 1), top, e + 1);
      }
      MultiplesAreLong(quotient[..n]);
      InShift(rest, 1, 32);
      InSum(Shift(rest, 1), top, 32);
      ShiftOfNothing(1);
      SumsCancel({}, {});
    }
  }

  lemma ShiftOfNothing(k: nat)
    ensures Shift({}, k) == {}
  {
  }

  lemma {:induction false} SumOfProducts(a: seq<bool>, b: seq<bool>) returns (c: seq<bool>)
    requires |a| == |b|
    ensures Times(c, GENERATOR) == Plus(Times(a, GENERATOR), Times(b, GENERATOR))
  {
    hide Plus, Shift;
    if a == [] {
      c := [];
      SumsCancel({}, {});
    } else {
      var n := |a| - 1;
      var before := SumOfProducts(a[..n], b[..n]);
      c := before + [a[n] != b[n]];
      assert c[..|c| - 1] == before;
      var p, q := Times(a[..n], GENERATOR), Times(b[..n], GENERATOR);
      ShiftOfSum(p, q, 1);
      SumsCancel(GENERATOR, {});
      SumsCancel({}, {});
      SumsExchange(Shift(p, 1), Shift(q, 1), if a[n] then GENERATOR else {}, if b[n] then GENERATOR else {});
    }
  }

  lemma {:induction false} LeadingZeros(n: nat, a: seq<bool>)
    ensures Times(seq(n, i => false) + a, GENERATOR) == Times(a, GENERATOR)
  {
    hide Plus, Shift;
    ProductOfConcatenation(seq(n, i => false), a, GENERATOR);
    ProductOfZeros(n);
    ShiftOfNothing(|a|);
    SumsCancel(Times(a, GENERATOR), {});
  }

  lemma {:induction false} ProductOfZeros(n: nat)
    ensures Times(seq(n, i => false), GENERATOR) == {}
  {
    if n > 0 {
      assert seq(n, i => false)[..n - 1] == seq(n - 1, i => false);
      ProductOfZeros(n - 1);
    }
  }

  lemma MultiplesAdd(p: Polynomial, q: Polynomial)
    requires IsMultiple(p) && IsMultiple(q)
    ensures IsMultiple(Plus(p, q))
  {
    hide Times, Plus;
    var a :| p == Times(a, GENERATOR);
    var b :| q == Times(b, GENERATOR);
    LeadingZeros(|b|, a);
    LeadingZeros(|a|, b);
    var c := SumOfProducts(seq(|b|, i => false) + a, seq(|a|, i => false) + b);
    assert Plus(p, q) == Times(c, GENERATOR);
  }

  /** Division leaves one remainder. */
  lemma RemainderIsUnique(p: Polynomial, r: Polynomial, s: Polynomial)
    requires IsRemainder(p, r) && IsRemainder(p, s)
    ensures r == s
  {
    hide Plus, IsMultiple, Times;
    MultiplesAdd(Plus(p, r), Plus(p, s));
    SumsExchange(p, r, p, s);
    SumsCancel(p, {});
    SumsCancel(Plus(r, s), {});
    assert IsMultiple(Plus(r, s));
    forall e | e in Plus(r, s) ensures e < 32 {
      InSum(r, s, e);
    }
    MultipleBelow32(Plus(r, s));
    SumsCancel(r, s);
  }

  lemma MultipleBelow32(p: Polynomial)
    requires IsMultiple(p) && Below32(p)
    ensures p == {}
  {
    hide Times;
    var quotient :| p == Times(quotient, GENERATOR);
    MultiplesAreLong(quotient);
  }

  // ---------------------------------------------------------------------------------
  // Bits of words
  // ---------------------------------------------------------------------------------

  lemma {:induction false} HalvesShift(c: bv32, k: nat)
    ensures Halves(Half(c), k) == Halves(c, k + 1)
  {
    hide Half;
    if k > 0 {
      HalvesShift(c, k - 1);
    }
  }

  lemma {:induction false} BitsOfXor(x: bv32, y: bv32, k: nat)
    ensures Halves(Xor(x, y), k) == Xor(Halves(x, k), Halves(y, k))
    ensures BitOf(Xor(x, y), k) <==> BitOf(x, k) != BitOf(y, k)
  {
    hide Half, Xor, Odd;
    if k > 0 {
      BitsOfXor(x, y, k - 1);
      HalfOfXor(Halves(x, k - 1), Halves(y, k - 1));
    }
    OddOfXor(Halves(x, k), Halves(y, k));
  }

  lemma {:induction false} BitsOfZero(k: nat)
    ensures Halves(0, k) == 0 && !BitOf(0, k)
  {
    if k > 0 {
      BitsOfZero(k - 1);
    }
  }

  lemma HalvedEightTimes(x: bv32)
    ensures Half(Half(Half(Half(Half(Half(Half(Half(x)))))))) == DropByte(x)
  {
    HalvesAreShifts(x);
    hide Half, DropByte;
  }

  lemma EightHalvings(c: bv32, k: nat)
    ensures Halves(c, k + 8) == DropByte(Halves(c, k))
  {
    hide Half, DropByte;
    HalvedEightTimes(Halves(c, k));
    assert Halves(c, k + 2) == Half(Half(Halves(c, k)));
    assert Halves(c, k + 4) == Half(Half(Halves(c, k + 2)));
    assert Halves(c, k + 6) == Half(Half(Halves(c, k + 4)));
  }

  lemma FourDrops(c: bv32)
    ensures DropByte(DropByte(DropByte(DropByte(c)))) == 0
  {
  }

  lemma NoBit32(c: bv32)
    ensures !BitOf(c, 32)
  {
    hide DropByte, Halves;
    EightHalvings(c, 0);
    EightHalvings(c, 8);
    EightHalvings(c, 16);
    EightHalvings(c, 24);
    assert Halves(c, 0) == c by { NoHalving(c); }
    FourDrops(c);
  }

  lemma NoHalving(c: bv32)
    ensures Halves(c, 0) == c
  {
  }

  // ---------------------------------------------------------------------------------
  // One step multiplies by x and subtracts the generator when it is due
  // ---------------------------------------------------------------------------------

  /** The constant is the generator without x^32: bit 31 - e is set exactly for its exponents e. */
  lemma ConstantIsGenerator()
    ensures RegisterPolynomial(POLYNOMIAL) == GENERATOR - {32}
  {
    hide HasTerm;
    forall e: nat | e < 32 ensures HasTerm(POLYNOMIAL, e) <==> e in GENERATOR {
      TermOfConstant(e);
    }
  }

  lemma TermOfConstant(e: nat)
    requires e < 32
    ensures HasTerm(POLYNOMIAL, e) <==> e in GENERATOR
  {
    hide HasTerm;
    if e < 8 {
      LowTerms(e);
    } else if e < 16 {
      MiddleTerms(e);
    } else if e < 24 {
      UpperTerms(e);
    } else {
      HighTerms(e);
    }
  }

  /** The constant shifted right by whole bytes. */
  lemma ConstantBytes()
    ensures Halves(POLYNOMIAL, 8) == 0x00ED_B883
    ensures Halves(POLYNOMIAL, 16) == 0x0000_EDB8
    ensures Halves(POLYNOMIAL, 24) == 0x0000_00ED
  {
    hide Halves;
    NoHalving(POLYNOMIAL);
    EightHalvings(POLYNOMIAL, 0);
    EightHalvings(POLYNOMIAL, 8);
    EightHalvings(POLYNOMIAL, 16);
  }

  lemma LowTerms(e: nat)
    requires e < 8
    ensures HasTerm(POLYNOMIAL, e) <==> e in GENERATOR
  {
    hide Halves, Odd;
    LowerBits();
    assert e == 0 || e == 1 || e == 2 || e == 3 || e == 4 || e == 5 || e == 6 || e == 7;
  }

  lemma LowerBits()
    ensures BitOf(POLYNOMIAL, 31) && BitOf(POLYNOMIAL, 30) && BitOf(POLYNOMIAL, 29) && BitOf(POLYNOMIAL, 27) && BitOf(POLYNOMIAL, 26) && BitOf(POLYNOMIAL, 24)
    ensures !BitOf(POLYNOMIAL, 28) && !BitOf(POLYNOMIAL, 25)
  {
    ConstantBytes();
    assert Halves(POLYNOMIAL, 25) == 0x0000_0076;
    assert Halves(POLYNOMIAL, 26) == 0x0000_003B;
    assert Halves(POLYNOMIAL, 27) == 0x0000_001D;
    assert Halves(POLYNOMIAL, 28) == 0x0000_000E;
    assert Halves(POLYNOMIAL, 29) == 0x0000_0007;
    assert Halves(POLYNOMIAL, 30) == 0x0000_0003;
    assert Halves(POLYNOMIAL, 31) == 0x0000_0001;
  }

  lemma MiddleTerms(e: nat)
    requires 8 <= e < 16
    ensures HasTerm(POLYNOMIAL, e) <==> e in GENERATOR
  {
    hide Halves, Odd;
    MiddleBits();
    assert e == 8 || e == 9 || e == 10 || e == 11 || e == 12 || e == 13 || e == 14 || e == 15;
  }

  lemma MiddleBits()
    ensures BitOf(POLYNOMIAL, 23) && BitOf(POLYNOMIAL, 21) && BitOf(POLYNOMIAL, 20) && BitOf(POLYNOMIAL, 19)
    ensures !BitOf(POLYNOMIAL, 22) && !BitOf(POLYNOMIAL, 18) && !BitOf(POLYNOMIAL, 17) && !BitOf(POLYNOMIAL, 16)
  {
    ConstantBytes();
    assert Halves(POLYNOMIAL, 17) == 0x0000_76DC;
    assert Halves(POLYNOMIAL, 18) == 0x0000_3B6E;
    assert Halves(POLYNOMIAL, 19) == 0x0000_1DB7;
    assert Halves(POLYNOMIAL, 20) == 0x0000_0EDB;
    assert Halves(POLYNOMIAL, 21) == 0x0000_076D;
    assert Halves(POLYNOMIAL, 22) == 0x0000_03B6;
    assert Halves(POLYNOMIAL, 23) == 0x0000_01DB;
  }

  lemma UpperTerms(e: nat)
    requires 16 <= e < 24
    ensures HasTerm(POLYNOMIAL, e) <==> e in GENERATOR
  {
    hide Halves, Odd;
    UpperBits();
    assert e == 16 || e == 17 || e == 18 || e == 19 || e == 20 || e == 21 || e == 22 || e == 23;
  }

  lemma UpperBits()
    ensures BitOf(POLYNOMIAL, 15) && BitOf(POLYNOMIAL, 9) && BitOf(POLYNOMIAL, 8)
    ensures !BitOf(POLYNOMIAL, 14) && !BitOf(POLYNOMIAL, 13) && !BitOf(POLYNOMIAL, 12) && !BitOf(POLYNOMIAL, 11) && !BitOf(POLYNOMIAL, 10)
  {
    ConstantBytes();
    assert Halves(POLYNOMIAL, 9) == 0x0076_DC41;
    assert Halves(POLYNOMIAL, 10) == 0x003B_6E20;
    assert Halves(POLYNOMIAL, 11) == 0x001D_B710;
    assert Halves(POLYNOMIAL, 12) == 0x000E_DB88;
    assert Halves(POLYNOMIAL, 13) == 0x0007_6DC4;
    assert Halves(POLYNOMIAL, 14) == 0x0003_B6E2;
    assert Halves(POLYNOMIAL, 15) == 0x0001_DB71;
  }

  lemma HighTerms(e: nat)
    requires 24 <= e < 32
    ensures HasTerm(POLYNOMIAL, e) <==> e in GENERATOR
  {
    hide Halves, Odd;
    HighBits();
    assert e == 24 || e == 25 || e == 26 || e == 27 || e == 28 || e == 29 || e == 30 || e == 31;
  }

  lemma HighBits()
    ensures BitOf(POLYNOMIAL, 5)
    ensures !BitOf(POLYNOMIAL, 7) && !BitOf(POLYNOMIAL, 6) && !BitOf(POLYNOMIAL, 4) && !BitOf(POLYNOMIAL, 3) && !BitOf(POLYNOMIAL, 2) && !BitOf(POLYNOMIAL, 1) && !BitOf(POLYNOMIAL, 0)
  {
    ConstantBytes();
    assert Halves(POLYNOMIAL, 1) == 0x76DC_4190;
    assert Halves(POLYNOMIAL, 2) == 0x3B6E_20C8;
    assert Halves(POLYNOMIAL, 3) == 0x1DB7_1064;
    assert Halves(POLYNOMIAL, 4) == 0x0EDB_8832;
    assert Halves(POLYNOMIAL, 5) == 0x076D_C419;
    assert Halves(POLYNOMIAL, 6) == 0x03B6_E20C;
    assert Halves(POLYNOMIAL, 7) == 0x01DB_7106;
  }

  lemma TermsOfStep(c: bv32, e: nat)
    ensures e in RegisterPolynomial(BitStep(c)) <==>
            e in Plus(Shift(RegisterPolynomial(c), 1), if Odd(c) then GENERATOR else {})
  {
    hide Plus, Shift, Odd, Half, Xor, RegisterPolynomial, Halves;
    var top := if Odd(c) then GENERATOR else {};
    InSum(Shift(RegisterPolynomial(c), 1), top, e);
    InShift(RegisterPolynomial(c), 1, e);
    InRegister(BitStep(c), e);
    InRegister(POLYNOMIAL, e);
    if e > 0 {
      InRegister(c, e - 1);
    }
    NoHalving(c);
    if e < 32 {
      BitsOfXor(Tap(c), Half(c), 31 - e);
      BitsOfZero(31 - e);
      HalvesShift(c, 31 - e);
      NoBit32(c);
      ConstantIsGenerator();
    }
  }

  lemma InRegister(c: bv32, e: nat)
    ensures e in RegisterPolynomial(c) <==> e < 32 && BitOf(c, 31 - e)
  {
    hide BitOf;
  }

  lemma StepDivides(c: bv32)
    ensures RegisterPolynomial(BitStep(c)) ==
            Plus(Shift(RegisterPolynomial(c), 1), if Odd(c) then GENERATOR else {})
  {
    hide Plus, Shift, Odd, RegisterPolynomial, BitStep;
    forall e: nat
      ensures e in RegisterPolynomial(BitStep(c)) <==>
              e in Plus(Shift(RegisterPolynomial(c), 1), if Odd(c) then GENERATOR else {})
    {
      TermsOfStep(c, e);
    }
  }

  /** The bits that leave the register in n steps: the digits of the quotient. */
  function Taps(c: bv32, n: nat): (bits: seq<bool>)
    ensures |bits| == n
    decreases n
  {
    if n == 0 then [] else [Odd(c)] + Taps(BitStep(c), n - 1)
  }

  /** n steps multiply by x^n modulo the generator. */
  lemma {:induction false} StepsDivide(c: bv32, n: nat)
    ensures RegisterPolynomial(Bits(c, n)) ==
            Plus(Shift(RegisterPolynomial(c), n), Times(Taps(c, n), GENERATOR))
    decreases n
  {
    hide Plus, Shift, Odd, RegisterPolynomial, BitStep;
    var p := RegisterPolynomial(c);
    if n == 0 {
      ShiftsCompose(p, 0, 0);
      SumsCancel(p, {});
    } else {
      var top := if Odd(c) then GENERATOR else {};
      var rest := Taps(BitStep(c), n - 1);
      StepsDivide(BitStep(c), n - 1);
      StepDivides(c);
      ShiftOfSum(Shift(p, 1), top, n - 1);
      ShiftsCompose(p, 1, n - 1);
      SumsAssociate(Shift(p, n), Shift(top, n - 1), Times(rest, GENERATOR));
      ProductOfConcatenation([Odd(c)], rest, GENERATOR);
      assert Times([Odd(c)], GENERATOR) == top by {
        ProductOfOne(Odd(c), GENERATOR);
      }
    }
  }

  lemma ProductOfOne(bit: bool, g: Polynomial)
    ensures Times([bit], g) == if bit then g else {}
  {
    hide Plus, Shift;
    assert [bit][..0] == [];
    ShiftOfNothing(1);
    SumsCancel(g, {});
    SumsCancel({}, {});
  }

  // ---------------------------------------------------------------------------------
  // A byte enters as eight coefficients
  // ---------------------------------------------------------------------------------

  lemma HalfOfOctet(w: bv8)
    ensures (w >> 1) as int == (w as int) / 2
    ensures w & 1 != 0 <==> (w as int) % 2 == 1
  {
  }

  lemma WideningShifts(w: bv8)
    ensures (w >> 1) as bv32 == (w as bv32) >> 1
    ensures w & 1 != 0 <==> (w as bv32) & 1 != 0
  {
  }

  lemma HalfOfWord(b: Byte)
    ensures Half(Word(b)) == Word(b / 2) && (Odd(Word(b)) <==> b % 2 == 1)
  {
    var w: bv8 := b as bv8;
    Octets.RoundTrip(b);
    HalfOfOctet(w);
    WideningShifts(w);
    Octets.IndexRoundTrip(w >> 1);
  }

  lemma {:induction false} BitsOfByte(b: Byte, n: nat, k: nat)
    requires k < n <= 8
    ensures BitOf(Word(b), k) <==> LowBits(b, n)[k]
    decreases k
  {
    hide Half, Odd, Word;
    HalfOfWord(b);
    if k > 0 {
      HalvesShift(Word(b), k - 1);
      BitsOfByte(b / 2, n - 1, k - 1);
    }
  }

  lemma NoBitAboveByte(b: Byte, k: nat)
    requires 8 <= k
    ensures !BitOf(Word(b), k)
  {
    hide Halves, Half, Odd, Word, DropByte;
    EightHalvings(Word(b), 0);
    NoHalving(Word(b));
    WordIsByte(b);
    NothingAboveByte(Word(b));
    ZeroFromHere(Word(b), 8, k);
  }

  lemma NothingAboveByte(c: bv32)
    requires IsByte(c)
    ensures DropByte(c) == 0
  {
  }

  lemma {:induction false} ZeroFromHere(c: bv32, j: nat, k: nat)
    requires j <= k && Halves(c, j) == 0
    ensures Halves(c, k) == 0 && !BitOf(c, k)
    decreases k - j
  {
    if j < k {
      ZeroFromHere(c, j + 1, k);
    }
  }

  /** A byte in a register is its eight bits as coefficients, the lowest the highest, times x^24. */
  lemma ByteAsPolynomial(b: Byte)
    ensures RegisterPolynomial(Word(b)) == Shift(Times(LowBits(b, 8), {0}), 24)
  {
    hide RegisterPolynomial, Shift, Times, LowBits, BitOf, Word;
    forall e: nat ensures e in RegisterPolynomial(Word(b)) <==> e in Shift(Times(LowBits(b, 8), {0}), 24) {
      InRegister(Word(b), e);
      InShift(Times(LowBits(b, 8), {0}), 24, e);
      if e >= 24 {
        CoefficientsOf(LowBits(b, 8), e - 24);
        if e < 32 {
          BitsOfByte(b, 8, 31 - e);
        }
      } else {
        NoBitAboveByte(b, 31 - e);
      }
    }
  }

  lemma SumOfRegisters(x: bv32, y: bv32)
    ensures RegisterPolynomial(Xor(x, y)) == Plus(RegisterPolynomial(x), RegisterPolynomial(y))
  {
    hide Xor, Plus, RegisterPolynomial, BitOf;
    forall e: nat ensures e in RegisterPolynomial(Xor(x, y)) <==> e in Plus(RegisterPolynomial(x), RegisterPolynomial(y)) {
      InRegister(Xor(x, y), e);
      InRegister(x, e);
      InRegister(y, e);
      InSum(RegisterPolynomial(x), RegisterPolynomial(y), e);
      if e < 32 {
        BitsOfXor(x, y, 31 - e);
      }
    }
  }

  lemma ByteDivides(c: bv32, b: Byte)
    ensures RegisterPolynomial(ByteStep(c, b)) ==
            Plus(Plus(Shift(RegisterPolynomial(c), 8), Shift(Times(LowBits(b, 8), {0}), 32)),
                 Times(Taps(Xor(c, Word(b)), 8), GENERATOR))
  {
    hide Plus, Shift, RegisterPolynomial, Times, Taps, LowBits, Bits, Word, Xor;
    var byte := Times(LowBits(b, 8), {0});
    StepsDivide(Xor(c, Word(b)), 8);
    SumOfRegisters(c, Word(b));
    ByteAsPolynomial(b);
    ShiftOfSum(RegisterPolynomial(c), Shift(byte, 24), 8);
    ShiftsCompose(byte, 24, 8);
  }

  // ---------------------------------------------------------------------------------
  // The register is the remainder
  // ---------------------------------------------------------------------------------

  /** One more byte shifts the dividend and adds its own bits. */
  lemma DividendGrows(data: seq<Byte>)
    requires data != []
    ensures Dividend(data) ==
            Plus(Shift(Dividend(data[..|data| - 1]), 8), Shift(Times(LowBits(data[|data| - 1], 8), {0}), 32))
  {
    hide Plus, Shift, Times, LowBits, MessageBits;
    var n := |data| - 1;
    var before, byte := MessagePolynomial(data[..n]), Times(LowBits(data[n], 8), {0});
    assert MessagePolynomial(data) == Plus(Shift(before, 8), byte) by {
      LastByte(data);
      ProductOfConcatenation(MessageBits(data[..n]), LowBits(data[n], 8), {0});
    }
    ShiftOfSum(Shift(before, 8), byte, 32);
    ShiftsCompose(before, 8, 32);
    ShiftsCompose(before, 32, 8);
    ShiftOfSum(Shift(before, 32), Shift(ALL_ONES, 8 * n), 8);
    ShiftsCompose(ALL_ONES, 8 * n, 8);
    var a, b, c := Shift(before, 40), Shift(byte, 32), Shift(ALL_ONES, 8 * n + 8);
    SumsAssociate(a, b, c);
    SumsCommute(b, c);
    SumsAssociate(a, c, b);
  }

  lemma LastByte(data: seq<Byte>)
    requires data != []
    ensures MessageBits(data) == MessageBits(data[..|data| - 1]) + LowBits(data[|data| - 1], 8)
  {
  }

  lemma {:induction false} RegisterDivides(data: seq<Byte>) returns (quotient: seq<bool>)
    ensures RegisterPolynomial(Register(ONES, data)) == Plus(Dividend(data), Times(quotient, GENERATOR))
  {
    hide Plus, Shift, RegisterPolynomial, Dividend, Taps, LowBits, ByteStep, Word, Xor;
    if data == [] {
      quotient := [];
      StartPolynomial();
      EmptyDividend();
      SumsCancel(ALL_ONES, {});
    } else {
      var n := |data| - 1;
      var before := RegisterDivides(data[..n]);
      var c := Register(ONES, data[..n]);
      var taps := Taps(Xor(c, Word(data[n])), 8);
      quotient := before + taps;
      ByteDivides(c, data[n]);
      DividendGrows(data);
      ProductOfConcatenation(before, taps, GENERATOR);
      hide Times;
      var d, q := Dividend(data[..n]), Times(before, GENERATOR);
      var byte, t := Shift(Times(LowBits(data[n], 8), {0}), 32), Times(taps, GENERATOR);
      ShiftOfSum(d, q, 8);
      SumsAssociate(Plus(Shift(d, 8), Shift(q, 8)), byte, t);
      SumsExchange(Shift(d, 8), Shift(q, 8), byte, t);
    }
  }

  lemma {:induction false} HalvesCompose(c: bv32, j: nat, k: nat)
    ensures Halves(Halves(c, j), k) == Halves(c, j + k)
  {
    hide Half;
    if k > 0 {
      HalvesCompose(c, j, k - 1);
    }
  }

  lemma SetByte(x: bv32)
    requires LowByte(x) == 0xFF
    ensures Odd(x) && Odd(Half(x)) && Odd(Half(Half(x))) && Odd(Half(Half(Half(x))))
    ensures var y := Half(Half(Half(Half(x))));
            Odd(y) && Odd(Half(y)) && Odd(Half(Half(y))) && Odd(Half(Half(Half(y))))
  {
    SetBits(x);
    HalvesAreShifts(x);
    hide Half, Odd, LowByte;
  }

  lemma SetBits(x: bv32)
    requires LowByte(x) == 0xFF
    ensures Odd(x) && Odd(x >> 1) && Odd(x >> 2) && Odd(x >> 3)
    ensures Odd(x >> 4) && Odd(x >> 5) && Odd(x >> 6) && Odd(x >> 7)
  {
  }

  lemma LowBitsAreSet(c: bv32, k: nat)
    requires LowByte(c) == 0xFF && k < 8
    ensures BitOf(c, k)
  {
    hide Half, Odd, LowByte;
    SetByte(c);
    assert Halves(c, 0) == c;
    assert Halves(c, 1) == Half(Halves(c, 0));
    assert Halves(c, 2) == Half(Halves(c, 1));
    assert Halves(c, 3) == Half(Halves(c, 2));
    assert Halves(c, 4) == Half(Halves(c, 3));
    assert Halves(c, 5) == Half(Halves(c, 4));
    assert Halves(c, 6) == Half(Halves(c, 5));
    assert Halves(c, 7) == Half(Halves(c, 6));
    assert k == 0 || k == 1 || k == 2 || k == 3 || k == 4 || k == 5 || k == 6 || k == 7;
  }

  lemma OnesAreSet(k: nat)
    requires k < 32
    ensures BitOf(ONES, k)
  {
    hide Halves, Odd;
    NoHalving(ONES);
    EightHalvings(ONES, 0);
    EightHalvings(ONES, 8);
    EightHalvings(ONES, 16);
    var j := k - k % 8;
    assert j == 0 || j == 8 || j == 16 || j == 24;
    HalvesCompose(ONES, j, k % 8);
    LowBitsAreSet(Halves(ONES, j), k % 8);
  }

  lemma StartPolynomial()
    ensures RegisterPolynomial(ONES) == ALL_ONES
  {
    hide RegisterPolynomial, BitOf;
    forall e: nat ensures e in RegisterPolynomial(ONES) <==> e in ALL_ONES {
      InRegister(ONES, e);
      if e < 32 {
        OnesAreSet(31 - e);
      }
    }
  }

  lemma EmptyDividend()
    ensures Dividend([]) == ALL_ONES
  {
    hide Plus, Shift;
    ShiftOfNothing(32);
    ShiftsCompose(ALL_ONES, 0, 0);
    SumsCancel(ALL_ONES, {});
  }

  /** The register after a message is what the division of x^32 M(x) + x^k (x^31 + ... + 1) by the
      generator leaves, k being the number of bits of M; so says section 8 of RFC 1952. */
  lemma RegisterIsRemainder(data: seq<Byte>)
    ensures IsRemainder(Dividend(data), RegisterPolynomial(Register(ONES, data)))
  {
    hide Plus, Times, RegisterPolynomial, Dividend, Register;
    var quotient := RegisterDivides(data);
    SumsCancel(Dividend(data), Times(quotient, GENERATOR));
    assert Below32(RegisterPolynomial(Register(ONES, data))) by { RegistersAreShort(Register(ONES, data)); }
  }

  lemma RegistersAreShort(c: bv32)
    ensures Below32(RegisterPolynomial(c))
  {
  }

  /** The checksum is the complement of that remainder, and nothing else is. */
  lemma ChecksumIsRemainder(data: seq<Byte>, r: Polynomial)
    ensures IsRemainder(Dividend(data), r) <==> r == Plus(RegisterPolynomial(Checksum(data)), ALL_ONES)
  {
    hide Plus, IsRemainder, RegisterPolynomial, Dividend, Register, Xor;
    var c := Register(ONES, data);
    RegisterIsRemainder(data);
    SumOfRegisters(c, ONES);
    StartPolynomial();
    SumsCancel(RegisterPolynomial(c), ALL_ONES);
    if IsRemainder(Dividend(data), r) {
      RemainderIsUnique(Dividend(data), r, RegisterPolynomial(c));
    }
  }

  // ---------------------------------------------------------------------------------
  // The customary check value
  // ---------------------------------------------------------------------------------

  /** The text "123456789". */
  const DIGITS: seq<Byte> := [49, 50, 51, 52, 53, 54, 55, 56, 57]

  lemma FirstDigits()
    ensures ByteStep(0xFFFF_FFFF, 49) == 0x7C23_1048
    ensures ByteStep(0x7C23_1048, 50) == 0xB0AC_BB32
    ensures ByteStep(0xB0AC_BB32, 51) == 0x77B7_9C2D
  {
  }

  lemma MiddleDigits()
    ensures ByteStep(0x77B7_9C2D, 52) == 0x641C_1F5C
    ensures ByteStep(0x641C_1F5C, 53) == 0x340A_C5E3
    ensures ByteStep(0x340A_C5E3, 54) == 0xF68D_2C9E
  {
  }

  lemma LastDigits()
    ensures ByteStep(0xF68D_2C9E, 55) == 0xAFFC_9660
    ensures ByteStep(0xAFFC_9660, 56) == 0x651F_2550
    ensures ByteStep(0x651F_2550, 57) == 0x340B_C6D9
  {
  }

  lemma {:induction false} AfterByte(c: bv32, data: seq<Byte>, k: nat, before: bv32)
    requires k < |data| && Register(c, data[..k]) == before
    ensures Register(c, data[..k + 1]) == ByteStep(before, data[k])
  {
    hide ByteStep;
    assert data[..k + 1][..k] == data[..k];
  }

  lemma CheckValue()
    ensures ChecksumValue(DIGITS) == 0xCBF4_3926
  {
    hide ByteStep;
    FirstDigits();
    MiddleDigits();
    LastDigits();
    assert Register(ONES, DIGITS[..0]) == ONES;
    hide Register;
    AfterByte(ONES, DIGITS, 0, 0xFFFF_FFFF);
    AfterByte(ONES, DIGITS, 1, 0x7C23_1048);
    AfterByte(ONES, DIGITS, 2, 0xB0AC_BB32);
    AfterByte(ONES, DIGITS, 3, 0x77B7_9C2D);
    AfterByte(ONES, DIGITS, 4, 0x641C_1F5C);
    AfterByte(ONES, DIGITS, 5, 0x340A_C5E3);
    AfterByte(ONES, DIGITS, 6, 0xF68D_2C9E);
    AfterByte(ONES, DIGITS, 7, 0xAFFC_9660);
    AfterByte(ONES, DIGITS, 8, 0x651F_2550);
    assert DIGITS[..9] == DIGITS;
    assert Checksum(DIGITS) == 0xCBF4_3926;
  }
}
