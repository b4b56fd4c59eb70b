/** What travels, byte for byte: one sample of each format, with values that tell its fields apart
    (src/protocol.cpp, src/foundation.cpp). */
module WireSamples {
  import opened Foundation
  import opened LittleEndian
  import opened Model
  import opened Codec
  import opened Frames
  import Crc
  import Polynomials

  // ---------------------------------------------------------------------------------
  // Numbers
  // ---------------------------------------------------------------------------------

  lemma LowestFirst(low: Byte, high: nat, width: nat)
    requires width > 0
    ensures Le(256 * high + low, width) == [low] + Le(high, width - 1)
  {
    LowestByte(low, high);
  }

  lemma LowestByte(low: Byte, high: nat)
    ensures (256 * high + low) % 256 == low && (256 * high + low) / 256 == high
  {
  }

  lemma NoBytes(value: nat)
    ensures Le(value, 0) == []
  {
  }

  lemma Bytes(a: Byte)
    ensures Le(a, 1) == [a] && Le(a, 2) == [a, 0] && Le(a, 4) == [a, 0, 0, 0] && Le(a, 8) == [a, 0, 0, 0, 0, 0, 0, 0]
  {
    Zeros();
    hide Le;
    NoBytes(0);
    LowestFirst(a, 0, 1);
    LowestFirst(a, 0, 2);
    LowestFirst(a, 0, 4);
    LowestFirst(a, 0, 8);
  }

  lemma Zeros()
    ensures Le(0, 1) == [0] && Le(0, 3) == [0, 0, 0] && Le(0, 6) == [0, 0, 0, 0, 0, 0] && Le(0, 7) == [0, 0, 0, 0, 0, 0, 0]
  {
    hide Le;
    NoBytes(0);
    LowestFirst(0, 0, 1);
    LowestFirst(0, 0, 2);
    LowestFirst(0, 0, 3);
    LowestFirst(0, 0, 4);
    LowestFirst(0, 0, 5);
    LowestFirst(0, 0, 6);
    LowestFirst(0, 0, 7);
  }

  lemma MinusFive()
    ensures Le(ToUnsigned(-5), 8) == [251, 255, 255, 255, 255, 255, 255, 255]
  {
    hide Le;
    NoBytes(0);
    LowestFirst(0xFF, 0, 1);
    LowestFirst(0xFF, 0xFF, 2);
    LowestFirst(0xFF, 0xFFFF, 3);
    LowestFirst(0xFF, 0xFFFFFF, 4);
    LowestFirst(0xFF, 0xFFFFFFFF, 5);
    LowestFirst(0xFF, 0xFFFFFFFFFF, 6);
    LowestFirst(0xFF, 0xFFFFFFFFFFFF, 7);
    LowestFirst(251, 0xFFFFFFFFFFFFFF, 8);
  }

  lemma TwoHundredAndFiftyEight()
    ensures Le(258, 8) == [2, 1, 0, 0, 0, 0, 0, 0]
  {
    Zeros();
    hide Le;
    LowestFirst(2, 1, 8);
    LowestFirst(1, 0, 7);
  }

  // ---------------------------------------------------------------------------------
  // Payloads
  // ---------------------------------------------------------------------------------

  /** Publisher "a", boot 1, epoch 2, federation "b", generation 3, sequence 4, observed at -5, ranks 6, 3
      and 8, evidence generation 9. */
  lemma SampleContext(rest: seq<Byte>)
    ensures PutContext(Context([97], 1, 2, [98], 3, 4, -5, 6, 3, 8, 9), rest) ==
      [1, 0, 0, 0] + ([97] + ([1, 0, 0, 0, 0, 0, 0, 0] + ([2, 0, 0, 0, 0, 0, 0, 0]
      + ([1, 0, 0, 0] + ([98] + ([3, 0, 0, 0, 0, 0, 0, 0] + ([4, 0, 0, 0, 0, 0, 0, 0]
      + ([251, 255, 255, 255, 255, 255, 255, 255] + ([6] + ([3] + ([8] + ([9, 0, 0, 0, 0, 0, 0, 0] + rest))))))))))))
  {
    hide Le, ToUnsigned;
    Bytes(1);
    Bytes(2);
    Bytes(3);
    Bytes(4);
    Bytes(6);
    Bytes(8);
    Bytes(9);
    MinusFive();
    var federation: Text := [98];
    var publisher: Text := [97];
    assert |federation| == |publisher| == 1;
  }

  /** Disposition 2, code 7, detail "d", watermark 258, gap 5. */
  lemma SampleAck(rest: seq<Byte>)
    ensures PutAck(WireAck(2, 7, [100], 258, 5), rest) ==
      [2] + ([7] + ([1, 0, 0, 0] + ([100] + ([2, 1, 0, 0, 0, 0, 0, 0] + ([5, 0, 0, 0, 0, 0, 0, 0] + rest)))))
  {
    hide Le;
    Bytes(2);
    Bytes(7);
    Bytes(1);
    Bytes(5);
    TwoHundredAndFiftyEight();
    var detail: Text := [100];
    assert |detail| == 1;
  }

  /** Code 4, message "m", detail "dd", digest "g", text "t", and one row with the one field "n", "v". */
  lemma SampleReply(rest: seq<Byte>)
    ensures PutReply(WireReply(4, [109], [100, 100], [103], [116], [[WireField([110], [118])]]), rest) ==
      [4] + ([1, 0, 0, 0] + ([109] + ([2, 0, 0, 0] + ([100, 100] + ([1, 0, 0, 0] + ([103] + ([1, 0, 0, 0] + ([116]
      + ([1, 0, 0, 0] + ([1, 0, 0, 0] + ([1, 0, 0, 0] + ([110] + ([1, 0, 0, 0] + ([118] + rest))))))))))))))
  {
    hide Le;
    Bytes(4);
    Bytes(1);
    Bytes(2);
    var row := [WireField([110], [118])];
    var rows := [row];
    SampleRows(rest);
    hide PutRows;
    var message: Text, detail: Text, digest: Text, text: Text := [109], [100, 100], [103], [116];
    assert |message| == |digest| == |text| == |rows| == 1 && |detail| == 2;
  }

  lemma SampleRows(rest: seq<Byte>)
    ensures PutRows([[WireField([110], [118])]], rest) ==
      [1, 0, 0, 0] + ([1, 0, 0, 0] + ([110] + ([1, 0, 0, 0] + ([118] + rest))))
  {
    hide Le;
    Bytes(1);
    var name: Text, value: Text := [110], [118];
    var row := [WireField(name, value)];
    var rows := [row];
    assert |name| == |value| == |row| == 1 && row[1..] == [] && rows[1..] == [];
    assert PutFields(row, rest) == PutText(name, PutText(value, PutFields([], rest)));
    assert PutRows(rows, rest) == PutRow(row, PutRows([], rest));
  }

  // ---------------------------------------------------------------------------------
  // Frames
  // ---------------------------------------------------------------------------------

  lemma RequestNumber()
    ensures Le(0x0102_0304_0506_0708, 8) == [8, 7, 6, 5, 4, 3, 2, 1]
    ensures Le(0xCBF4_3926, 4) == [0x26, 0x39, 0xF4, 0xCB]
  {
    hide Le;
    NoBytes(0);
    LowestFirst(1, 0, 1);
    LowestFirst(2, 0x01, 2);
    LowestFirst(3, 0x0102, 3);
    LowestFirst(4, 0x010203, 4);
    LowestFirst(5, 0x01020304, 5);
    LowestFirst(6, 0x0102030405, 6);
    LowestFirst(7, 0x010203040506, 7);
    LowestFirst(8, 0x01020304050607, 8);
    LowestFirst(0xCB, 0, 1);
    LowestFirst(0xF4, 0xCB, 2);
    LowestFirst(0x39, 0xCBF4, 3);
    LowestFirst(0x26, 0xCB_F439, 4);
  }

  /** Message type 5, flags 6, and the payload "123456789". */
  lemma SampleFrame()
    ensures Encode(Frame(5, 6, 0x0102_0304_0506_0708, Polynomials.DIGITS), 9) ==
      Ok([70, 79, 66, 83] + [1, 0] + [5, 0] + [6, 0, 0, 0] + [8, 7, 6, 5, 4, 3, 2, 1] + [9, 0, 0, 0]
         + [0x26, 0x39, 0xF4, 0xCB] + [49, 50, 51, 52, 53, 54, 55, 56, 57])
  {
    hide Le, Crc.ChecksumValue;
    Bytes(1);
    Bytes(5);
    Bytes(9);
    RequestNumber();
    Polynomials.CheckValue();
    assert |Polynomials.DIGITS| == 9;
  }
}
