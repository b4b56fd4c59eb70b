/** Fixed-width little-endian integers (src/foundation.cpp, src/protocol.cpp). */
module LittleEndian {
  import opened Foundation

  function Pow256(n: nat): (p: nat)
    ensures p > 0
  {
    if n == 0 then 1 else 256 * Pow256(n - 1)
  }

  /** The low `width` bytes of a number, least significant first. */
  function Le(value: nat, width: nat): (bytes: seq<Byte>)
    ensures |bytes| == width
    decreases width
  {
    if width == 0 then [] else [value % 256] + Le(value / 256, width - 1)
  }

  function FromLe(bytes: seq<Byte>): nat {
    if bytes == [] then 0 else bytes[0] + 256 * FromLe(bytes[1..])
  }

  lemma {:induction false} FromLeIsBounded(bytes: seq<Byte>)
    ensures FromLe(bytes) < Pow256(|bytes|)
  {
    if bytes != [] {
      FromLeIsBounded(bytes[1..]);
    }
  }

  /** Writing and reading back returns every number the width can hold. */
  lemma {:induction false} ReadsBack(value: nat, width: nat)
    requires value < Pow256(width)
    ensures FromLe(Le(value, width)) == value
    decreases width
  {
    if width > 0 {
      assert value / 256 < Pow256(width - 1);
      ReadsBack(value / 256, width - 1);
    }
  }

  /** Reading and writing back returns every byte string. */
  lemma {:induction false} WritesBack(bytes: seq<Byte>)
    ensures Le(FromLe(bytes), |bytes|) == bytes
  {
    if bytes != [] {
      WritesBack(bytes[1..]);
      var v := FromLe(bytes);
      assert v % 256 == bytes[0] && v / 256 == FromLe(bytes[1..]);
      assert bytes == [bytes[0]] + bytes[1..];
    }
  }

  lemma Widths()
    ensures Pow256(1) == 0x100 && Pow256(2) == 0x1_0000 && Pow256(4) == 0x1_0000_0000
    ensures Pow256(8) == U64_MAX + 1
  {
    assert Pow256(3) == 0x100_0000;
    assert Pow256(5) == 0x100_0000_0000;
    assert Pow256(6) == 0x1_0000_0000_0000;
    assert Pow256(7) == 0x100_0000_0000_0000;
  }

  /** Stores a number into a buffer byte by byte. */
  method Write(image: array<Byte>, at: nat, value: nat, width: nat)
    requires at + width <= image.Length
    modifies image
    ensures image[..at + width] == old(image[..at]) + Le(value, width)
    ensures forall k :: at + width <= k < image.Length ==> image[k] == old(image[k])
  {
    var rest := value;
    for i := 0 to width
      invariant image[at..at + i] + Le(rest, width - i) == Le(value, width)
      invariant image[..at] == old(image[..at]) && image[at + i..] == old(image[at + i..])
    {
      ghost var written := image[at..at + i];
      image[at + i] := rest % 256;
      assert image[at..at + i + 1] == written + [rest % 256];
      rest := rest / 256;
    }
    assert image[..at + width] == image[..at] + image[at..at + width];
  }

  /** Assembles a number from the bytes of a buffer. */
  method Read(bytes: seq<Byte>, at: nat, width: nat) returns (value: nat)
    requires at + width <= |bytes|
    ensures value == FromLe(bytes[at..at + width])
  {
    value := 0;
    var i := width;
    while i > 0
      invariant 0 <= i <= width
      invariant value == FromLe(bytes[at + i..at + width])
    {
      i := i - 1;
      assert bytes[at + i..at + width] == [bytes[at + i]] + bytes[at + i + 1..at + width];
      value := bytes[at + i] + 256 * value;
    }
  }
}
