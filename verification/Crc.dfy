/** Bytes as numbers and as bit patterns. */
module Octets {

  lemma RoundTrip(a: int)
    requires 0 <= a < 256
    ensures (a as bv8) as int == a
  {
  }

  lemma IndexRoundTrip(w: bv8)
    ensures (w as int) as bv8 == w
  {
  }

  lemma NumbersAreDistinct(x: bv32, y: bv32)
    requires x as int == y as int
    ensures x == y
  {
    NumberRoundTrip(x);
    NumberRoundTrip(y);
  }

  lemma NumberRoundTrip(x: bv32)
    ensures (x as int) as bv32 == x
  {
  }
}

/** The payload checksum: the CRC-32 of section 8 of RFC 1952 (src/foundation.cpp). */
module Crc {
  import opened Foundation
  import Octets

  const POLYNOMIAL: bv32 := 0xEDB8_8320

  // ---------------------------------------------------------------------------------
  // Register operations
  // ---------------------------------------------------------------------------------

  function Xor(a: bv32, b: bv32): bv32 { a ^ b }

  predicate Odd(c: bv32) { c & 1 != 0 }

  function Half(c: bv32): bv32 { c >> 1 }

  function LowByte(c: bv32): bv32 { c & 0xFF }

  function HighBytes(c: bv32): bv32 { c & 0xFFFF_FF00 }

  function DropByte(c: bv32): bv32 { c >> 8 }

  function RaiseByte(c: bv32): bv32 { c << 8 }

  predicate IsByte(c: bv32) { c & 0xFF == c }

  predicate HasThreeBytes(c: bv32) { c & 0xFF_FFFF == c }

  function Word(b: Byte): bv32 { b as bv8 as bv32 }

  /** The byte a register value ends in, as a table index. */
  function IndexOf(c: bv32): Byte { (c & 0xFF) as bv8 as int }

  lemma XorAssociates(a: bv32, b: bv32, c: bv32)
    ensures Xor(a, Xor(b, c)) == Xor(Xor(a, b), c)
  {
  }

  lemma XorCommutes(a: bv32, b: bv32)
    ensures Xor(a, b) == Xor(b, a)
  {
  }

  lemma XorExchanges(a: bv32, b: bv32, c: bv32, d: bv32)
    ensures Xor(Xor(a, b), Xor(c, d)) == Xor(Xor(a, c), Xor(b, d))
  {
    hide Xor;
    XorAssociates(a, b, Xor(c, d));
    XorAssociates(b, c, d);
    XorCommutes(b, c);
    XorAssociates(c, b, d);
    XorAssociates(a, c, Xor(b, d));
  }

  lemma XorCancels(p: bv32, a: bv32, b: bv32)
    requires Xor(p, a) == Xor(p, b)
    ensures a == b
  {
  }

  lemma XorCancelsRight(p: bv32, a: bv32, b: bv32)
    requires Xor(a, p) == Xor(b, p)
    ensures a == b
  {
  }

  lemma XorWithZero(a: bv32)
    ensures Xor(a, 0) == a && Xor(0, a) == a
  {
  }

  lemma XorWithItself(a: bv32)
    ensures Xor(a, a) == 0
  {
  }

  lemma OddOfXor(x: bv32, y: bv32)
    ensures Odd(Xor(x, y)) <==> Odd(x) != Odd(y)
  {
  }

  lemma HalfOfXor(x: bv32, y: bv32)
    ensures Half(Xor(x, y)) == Xor(Half(x), Half(y))
  {
  }

  lemma HalvesDetermine(x: bv32, y: bv32)
    requires Half(x) == Half(y) && (Odd(x) <==> Odd(y))
    ensures x == y
  {
  }

  /** The polynomial has the top bit a halved register lacks. */
  lemma PolynomialShows(x: bv32, y: bv32)
    ensures Xor(POLYNOMIAL, Half(x)) != Half(y)
  {
  }

  lemma SplitByte(x: bv32)
    ensures x == Xor(LowByte(x), HighBytes(x))
    ensures LowByte(HighBytes(x)) == 0 && DropByte(HighBytes(x)) == DropByte(x)
  {
  }

  lemma ByteLeavesHighPart(c: bv32, w: bv32)
    requires IsByte(w)
    ensures DropByte(Xor(c, w)) == DropByte(c)
  {
  }

  lemma WordIsByte(b: Byte)
    ensures IsByte(Word(b))
  {
    var w: bv8 := b as bv8;
    assert (w as bv32) & 0xFF == w as bv32;
  }

  lemma IndexIsLowByte(x: bv32)
    ensures Word(IndexOf(x)) == LowByte(x)
  {
    Octets.IndexRoundTrip((x & 0xFF) as bv8);
    LowByteNarrows(x);
  }

  lemma LowByteNarrows(x: bv32)
    ensures ((x & 0xFF) as bv8) as bv32 == x & 0xFF
  {
  }

  lemma WordIsInjective(a: Byte, b: Byte)
    requires Word(a) == Word(b)
    ensures a == b
  {
    WideningIsInjective(a as bv8, b as bv8);
    Octets.RoundTrip(a);
    Octets.RoundTrip(b);
  }

  lemma WideningIsInjective(x: bv8, y: bv8)
    requires x as bv32 == y as bv32
    ensures x == y
  {
  }

  lemma ZeroBits(x: bv32)
    requires LowByte(x) == 0
    ensures !Odd(x) && !Odd(x >> 1) && !Odd(x >> 2) && !Odd(x >> 3)
    ensures !Odd(x >> 4) && !Odd(x >> 5) && !Odd(x >> 6) && !Odd(x >> 7)
  {
  }

  lemma HalvesAreShifts(x: bv32)
    ensures Half(x) == x >> 1 && Half(x >> 1) == x >> 2 && Half(x >> 2) == x >> 3 && Half(x >> 3) == x >> 4
    ensures Half(x >> 4) == x >> 5 && Half(x >> 5) == x >> 6 && Half(x >> 6) == x >> 7
    ensures Half(x >> 7) == DropByte(x)
  {
  }

  lemma EightHalves(x: bv32)
    requires LowByte(x) == 0
    ensures !Odd(x) && !Odd(Half(x)) && !Odd(Half(Half(x))) && !Odd(Half(Half(Half(x))))
    ensures var y := Half(Half(Half(Half(x))));
            && !Odd(y) && !Odd(Half(y)) && !Odd(Half(Half(y))) && !Odd(Half(Half(Half(y))))
            && Half(Half(Half(Half(y)))) == DropByte(x)
  {
    ZeroBits(x);
    HalvesAreShifts(x);
    hide Half, Odd, LowByte, DropByte;
  }

  lemma RaisedBytes(p: bv32)
    ensures LowByte(RaiseByte(p)) == 0
    ensures HasThreeBytes(p) ==> DropByte(RaiseByte(p)) == p
  {
  }

  lemma JoinedBytes(a: bv32, p: bv32)
    requires IsByte(a)
    ensures LowByte(Xor(a, RaiseByte(p))) == a && DropByte(Xor(a, RaiseByte(p))) == DropByte(RaiseByte(p))
  {
  }

  // ---------------------------------------------------------------------------------
  // Bit by bit
  // ---------------------------------------------------------------------------------

  /** What a bit leaving the register feeds back into it. */
  function Tap(c: bv32): bv32 {
    if Odd(c) then POLYNOMIAL else 0
  }

  /** Divides one bit out of the register. */
  function BitStep(c: bv32): bv32 {
    Xor(Tap(c), Half(c))
  }

  function Bits(c: bv32, n: nat): bv32
    decreases n
  {
    if n == 0 then c else Bits(BitStep(c), n - 1)
  }

  /** The bit-serial register after one byte. */
  function ByteStep(c: bv32, b: Byte): bv32 {
    Bits(Xor(c, Word(b)), 8)
  }

  function Register(c: bv32, data: seq<Byte>): bv32 {
    if data == [] then c else ByteStep(Register(c, data[..|data| - 1]), data[|data| - 1])
  }

  const ONES: bv32 := 0xFFFF_FFFF

  /** The bit-serial checksum. */
  function Checksum(data: seq<Byte>): bv32 {
    Xor(Register(ONES, data), ONES)
  }

  // ---------------------------------------------------------------------------------
  // One step is linear and loses nothing
  // ---------------------------------------------------------------------------------

  lemma TapIsLinear(x: bv32, y: bv32)
    ensures Tap(Xor(x, y)) == Xor(Tap(x), Tap(y))
  {
    hide Xor, Odd;
    OddOfXor(x, y);
    XorWithZero(0);
    XorWithZero(POLYNOMIAL);
    XorWithItself(POLYNOMIAL);
  }

  lemma BitStepIsLinear(x: bv32, y: bv32)
    ensures BitStep(Xor(x, y)) == Xor(BitStep(x), BitStep(y))
  {
    hide Xor, Tap, Half;
    TapIsLinear(x, y);
    HalfOfXor(x, y);
    XorExchanges(Tap(x), Tap(y), Half(x), Half(y));
  }

  lemma BitStepIsInjective(x: bv32, y: bv32)
    requires BitStep(x) == BitStep(y)
    ensures x == y
  {
    hide Xor, Half, Odd;
    XorWithZero(Half(x));
    XorWithZero(Half(y));
    PolynomialShows(x, y);
    PolynomialShows(y, x);
    XorCancels(Tap(x), Half(x), Half(y));
    HalvesDetermine(x, y);
  }

  lemma {:induction false} BitsAreLinear(x: bv32, y: bv32, n: nat)
    ensures Bits(Xor(x, y), n) == Xor(Bits(x, n), Bits(y, n))
    decreases n
  {
    hide BitStep, Xor;
    if n > 0 {
      BitStepIsLinear(x, y);
      BitsAreLinear(BitStep(x), BitStep(y), n - 1);
    }
  }

  lemma {:induction false} BitsAreInjective(x: bv32, y: bv32, n: nat)
    requires Bits(x, n) == Bits(y, n)
    ensures x == y
    decreases n
  {
    hide BitStep;
    if n > 0 {
      BitsAreInjective(BitStep(x), BitStep(y), n - 1);
      BitStepIsInjective(x, y);
    }
  }

  lemma {:induction false} BitsCompose(c: bv32, m: nat, n: nat)
    ensures Bits(c, m + n) == Bits(Bits(c, m), n)
    decreases m
  {
    hide BitStep;
    if m > 0 {
      BitsCompose(BitStep(c), m - 1, n);
    }
  }

  // ---------------------------------------------------------------------------------
  // Eight steps at once
  // ---------------------------------------------------------------------------------

  lemma EvenBit(x: bv32, n: nat)
    requires !Odd(x) && n > 0
    ensures Bits(x, n) == Bits(Half(x), n - 1)
  {
    hide Xor, Half, Odd;
    XorWithZero(Half(x));
  }

  /** Eight zero bits are shifted out and change nothing else. */
  lemma ZeroByte(x: bv32)
    requires LowByte(x) == 0
    ensures Bits(x, 8) == DropByte(x)
  {
    hide BitStep, Half, Odd, LowByte, DropByte;
    EightHalves(x);
    var h1 := Half(x);
    var h2 := Half(h1);
    var h3 := Half(h2);
    var h4 := Half(h3);
    var h5 := Half(h4);
    var h6 := Half(h5);
    var h7 := Half(h6);
    EvenBit(x, 8);
    EvenBit(h1, 7);
    EvenBit(h2, 6);
    EvenBit(h3, 5);
    EvenBit(h4, 4);
    EvenBit(h5, 3);
    EvenBit(h6, 2);
    EvenBit(h7, 1);
  }

  /** Eight bit-serial steps are one table lookup, one shift and one exclusive or. */
  lemma TableStep(c: bv32, b: Byte)
    ensures ByteStep(c, b) == Xor(Bits(LowByte(Xor(c, Word(b))), 8), DropByte(c))
  {
    hide Bits, Word, Xor, LowByte, HighBytes, DropByte, IsByte;
    var x := Xor(c, Word(b));
    SplitByte(x);
    BitsAreLinear(LowByte(x), HighBytes(x), 8);
    ZeroByte(HighBytes(x));
    WordIsByte(b);
    ByteLeavesHighPart(c, Word(b));
  }

  // ---------------------------------------------------------------------------------
  // The table-driven computation
  // ---------------------------------------------------------------------------------

  method DivideByte(b: Byte) returns (c: bv32)
    ensures c == Bits(Word(b), 8)
  {
    hide Xor, Half, Odd, Word, BitStep;
    c := Word(b);
    for k := 0 to 8
      invariant Bits(c, 8 - k) == Bits(Word(b), 8)
    {
      FedBack(c);
      c := if Odd(c) then Xor(POLYNOMIAL, Half(c)) else Half(c);
    }
  }

  method CrcTable() returns (table: array<bv32>)
    ensures fresh(table) && table.Length == 256
    ensures forall i: nat :: i < 256 ==> table[i] == Bits(Word(i), 8)
  {
    hide Word, Bits;
    table := new bv32[256];
    for i := 0 to 256
      invariant forall j: nat :: j < i ==> table[j] == Bits(Word(j), 8)
    {
      var c := DivideByte(i);
      table[i] := c;
    }
  }

  lemma FedBack(c: bv32)
    ensures BitStep(c) == if Odd(c) then Xor(POLYNOMIAL, Half(c)) else Half(c)
  {
    hide Xor, Half, Odd;
    XorWithZero(Half(c));
  }

  /** The table-driven checksum equals the bit-serial one on every byte string. */
  method Crc32(data: seq<Byte>) returns (crc: bv32)
    ensures crc == Checksum(data)
  {
    hide Bits, Word, Xor, LowByte, DropByte, IndexOf, ByteStep;
    var table := CrcTable();
    crc := ONES;
    for i := 0 to |data|
      invariant forall k: nat :: k < 256 ==> table[k] == Bits(Word(k), 8)
      invariant crc == Register(ONES, data[..i])
    {
      assert data[..i + 1][..i] == data[..i];
      TableStep(crc, data[i]);
      var index := IndexOf(Xor(crc, Word(data[i])));
      IndexIsLowByte(Xor(crc, Word(data[i])));
      crc := Xor(table[index], DropByte(crc));
    }
    assert data[..|data|] == data;
    crc := Xor(crc, ONES);
  }

  // ---------------------------------------------------------------------------------
  // Error detection
  // ---------------------------------------------------------------------------------

  lemma {:induction false} RegisterIsInjective(c: bv32, d: bv32, data: seq<Byte>)
    requires Register(c, data) == Register(d, data)
    ensures c == d
  {
    hide Bits, Xor, Word;
    if data != [] {
      var n := |data| - 1;
      var x, y := Register(c, data[..n]), Register(d, data[..n]);
      BitsAreInjective(Xor(x, Word(data[n])), Xor(y, Word(data[n])), 8);
      XorCancelsRight(Word(data[n]), x, y);
      RegisterIsInjective(c, d, data[..n]);
    }
  }

  lemma {:induction false} RegisterSplits(c: bv32, a: seq<Byte>, b: seq<Byte>)
    ensures Register(c, a + b) == Register(Register(c, a), b)
  {
    hide ByteStep;
    if b == [] {
      assert a + b == a;
    } else {
      var n := |b| - 1;
      assert (a + b)[..|a| + n] == a + b[..n];
      RegisterSplits(c, a, b[..n]);
    }
  }

  /** Up to four bytes in the order the register absorbs them. */
  function Pack(window: seq<Byte>): bv32
  {
    if window == [] then 0 else Xor(Word(window[0]), RaiseByte(Pack(window[1..])))
  }

  lemma {:induction false} PackFits(window: seq<Byte>)
    requires |window| <= 3
    ensures HasThreeBytes(Pack(window))
  {
    hide Word, Xor, RaiseByte, HasThreeBytes, IsByte;
    if window == [] {
      NestedBytes(0, 0, 0);
    } else {
      WordIsByte(window[0]);
      var second: bv32 := 0;
      var third: bv32 := 0;
      NestedBytes(0, 0, 0);
      assert IsByte(0) by { ZeroIsByte(); }
      if |window| == 1 {
        assert Pack(window[1..]) == 0;
        NestedBytes(Word(window[0]), 0, 0);
      } else if |window| == 2 {
        WordIsByte(window[1]);
        assert Pack(window[2..]) == 0;
        assert window[1..][1..] == window[2..];
        NestedBytes(Word(window[0]), Word(window[1]), 0);
      } else {
        WordIsByte(window[1]);
        WordIsByte(window[2]);
        assert Pack(window[3..]) == 0;
        assert window[1..][1..] == window[2..] && window[2..][1..] == window[3..];
        NestedBytes(Word(window[0]), Word(window[1]), Word(window[2]));
      }
    }
  }

  lemma ZeroIsByte()
    ensures IsByte(0)
  {
  }

  lemma NestedBytes(a: bv32, b: bv32, c: bv32)
    ensures HasThreeBytes(0)
    ensures IsByte(a) ==> HasThreeBytes(Xor(a, RaiseByte(0)))
    ensures IsByte(a) && IsByte(b) ==> HasThreeBytes(Xor(a, RaiseByte(Xor(b, RaiseByte(0)))))
    ensures IsByte(a) && IsByte(b) && IsByte(c) ==> HasThreeBytes(Xor(a, RaiseByte(Xor(b, RaiseByte(Xor(c, RaiseByte(0)))))))
  {
  }

  /** Absorbing a window byte by byte is absorbing it as one word. */
  lemma {:induction false} WindowStep(c: bv32, window: seq<Byte>)
    requires |window| <= 4
    ensures Register(c, window) == Bits(Xor(c, Pack(window)), 8 * |window|)
    decreases |window|
  {
    hide Word, Xor, RaiseByte, HasThreeBytes, LowByte, DropByte, BitStep;
    if window == [] {
      XorWithZero(c);
    } else {
      var rest := window[1..];
      var p := Pack(rest);
      var first := Xor(c, Word(window[0]));
      PackFits(rest);
      RaisedBytes(p);
      XorAssociates(c, Word(window[0]), RaiseByte(p));
      assert Bits(Xor(c, Pack(window)), 8) == Xor(ByteStep(c, window[0]), p) by {
        BitsAreLinear(first, RaiseByte(p), 8);
        ZeroByte(RaiseByte(p));
      }
      BitsCompose(Xor(c, Pack(window)), 8, 8 * |rest|);
      WindowStep(ByteStep(c, window[0]), rest);
      RegisterSplits(c, [window[0]], rest);
      assert [window[0]] + rest == window;
      OneByte(c, window[0]);
    }
  }

  lemma OneByte(c: bv32, b: Byte)
    ensures Register(c, [b]) == ByteStep(c, b)
  {
    hide ByteStep;
    assert [b][..0] == [];
  }

  lemma {:induction false} PackIsInjective(a: seq<Byte>, b: seq<Byte>)
    requires |a| == |b| <= 4 && Pack(a) == Pack(b)
    ensures a == b
  {
    hide Word, Xor, RaiseByte, HasThreeBytes, LowByte, DropByte, IsByte;
    if a != [] {
      WordIsByte(a[0]);
      WordIsByte(b[0]);
      JoinedBytes(Word(a[0]), Pack(a[1..]));
      JoinedBytes(Word(b[0]), Pack(b[1..]));
      PackFits(a[1..]);
      PackFits(b[1..]);
      RaisedBytes(Pack(a[1..]));
      RaisedBytes(Pack(b[1..]));
      WordIsInjective(a[0], b[0]);
      PackIsInjective(a[1..], b[1..]);
    }
  }

  /** A change confined to at most four consecutive bytes always changes the checksum. */
  lemma BurstsAreDetected(before: seq<Byte>, a: seq<Byte>, b: seq<Byte>, after: seq<Byte>)
    requires |a| == |b| <= 4 && a != b
    ensures Checksum(before + a + after) != Checksum(before + b + after)
  {
    hide Register, Bits, Pack, Xor;
    var c := Register(ONES, before);
    RegisterSplits(ONES, before + a, after);
    RegisterSplits(ONES, before + b, after);
    RegisterSplits(ONES, before, a);
    RegisterSplits(ONES, before, b);
    if Checksum(before + a + after) == Checksum(before + b + after) {
      XorCancelsRight(ONES, Register(ONES, before + a + after), Register(ONES, before + b + after));
      RegisterIsInjective(Register(c, a), Register(c, b), after);
      WindowStep(c, a);
      WindowStep(c, b);
      BitsAreInjective(Xor(c, Pack(a)), Xor(c, Pack(b)), 8 * |a|);
      XorCancels(c, Pack(a), Pack(b));
      PackIsInjective(a, b);
    }
  }

  /** The checksum as the number a frame header carries. */
  function ChecksumValue(data: seq<Byte>): (value: nat)
    ensures value < 0x1_0000_0000
  {
    Checksum(data) as int
  }

  lemma BurstsChangeTheValue(before: seq<Byte>, a: seq<Byte>, b: seq<Byte>, after: seq<Byte>)
    requires |a| == |b| <= 4 && a != b
    ensures ChecksumValue(before + a + after) != ChecksumValue(before + b + after)
  {
    hide Checksum;
    BurstsAreDetected(before, a, b, after);
    if ChecksumValue(before + a + after) == ChecksumValue(before + b + after) {
      Octets.NumbersAreDistinct(Checksum(before + a + after), Checksum(before + b + after));
    }
  }
}
