/** Bounded binary fields and the payloads built from them (src/foundation.cpp,
    src/protocol.cpp). A decoder answers with the value and what follows it. */
module Codec {
  import opened Foundation
  import opened LittleEndian
  import opened Capability
  import opened Model

  const MAX_BLOCK := 0x10_0000
  const MAX_ROWS := 65536
  const MAX_FIELDS := 64
  const MAX_DISPOSITION := 3
  const MAX_CODE := 24

  type Parsed<T> = Result<(T, seq<Byte>)>

  // ---------------------------------------------------------------------------------
  // Fields
  // ---------------------------------------------------------------------------------

  function GetNumber(s: seq<Byte>, width: nat): Parsed<nat> {
    if width > |s| then Err(ProtocolViolation) else Ok((FromLe(s[..width]), s[width..]))
  }

  /** A byte that must be one of the enumerators 0 to `last`. */
  function GetEnum(s: seq<Byte>, last: nat): Parsed<nat> {
    var v :- GetNumber(s, 1);
    if v.0 > last then Err(ProtocolViolation) else Ok(v)
  }

  function GetWord(s: seq<Byte>): (r: Parsed<nat>)
    ensures r.Ok? ==> r.value.0 <= U64_MAX
  {
    var v :- GetNumber(s, 8);
    FromLeIsBounded(s[..8]);
    Widths();
    Ok(v)
  }

  /** A signed word travels as its two's complement. */
  function ToUnsigned(v: I64): U64 {
    if v < 0 then v + U64_MAX + 1 else v
  }

  function ToSigned(v: U64): I64 {
    if v > I64_MAX then v - U64_MAX - 1 else v
  }

  /** A length-prefixed text, refused when it is longer than `limit`. */
  function PutText(t: Text, rest: seq<Byte>): seq<Byte> {
    Le(|t|, 4) + (t + rest)
  }

  function GetText(s: seq<Byte>, limit: nat, tooLong: ErrorCode): Parsed<Text> {
    var n :- GetNumber(s, 4);
    if n.0 > limit then Err(tooLong)
    else if n.0 > |n.1| then Err(ProtocolViolation)
    else Ok((n.1[..n.0], n.1[n.0..]))
  }

  function GetString(s: seq<Byte>): Parsed<Text> { GetText(s, MAX_FIELD, BoundExceeded) }

  function GetBlock(s: seq<Byte>): Parsed<Text> { GetText(s, MAX_BLOCK, OversizedPayload) }

  lemma NumberRoundTrip(v: nat, width: nat, rest: seq<Byte>)
    requires v < Pow256(width)
    ensures GetNumber(Le(v, width) + rest, width) == Ok((v, rest))
  {
    ReadsBack(v, width);
    assert (Le(v, width) + rest)[..width] == Le(v, width);
  }

  lemma NumberIsCanonical(s: seq<Byte>, width: nat)
    requires GetNumber(s, width).Ok?
    ensures s == Le(GetNumber(s, width).value.0, width) + GetNumber(s, width).value.1
    ensures GetNumber(s, width).value.0 < Pow256(width)
  {
    WritesBack(s[..width]);
    FromLeIsBounded(s[..width]);
  }

  lemma SignedRoundTrip(v: I64)
    ensures ToSigned(ToUnsigned(v)) == v
  {
  }

  lemma UnsignedRoundTrip(v: U64)
    ensures ToUnsigned(ToSigned(v)) == v
  {
  }

  lemma TextRoundTrip(t: Text, rest: seq<Byte>, limit: nat, tooLong: ErrorCode)
    requires |t| <= limit <= MAX_BLOCK
    ensures GetText(PutText(t, rest), limit, tooLong) == Ok((t, rest))
  {
    hide FromLe, Le, GetNumber;
    Widths();
    NumberRoundTrip(|t|, 4, t + rest);
  }

  lemma TextIsCanonical(s: seq<Byte>, limit: nat, tooLong: ErrorCode)
    requires GetText(s, limit, tooLong).Ok?
    ensures s == PutText(GetText(s, limit, tooLong).value.0, GetText(s, limit, tooLong).value.1)
    ensures |GetText(s, limit, tooLong).value.0| <= limit
  {
    hide FromLe, Le, GetNumber;
    NumberIsCanonical(s, 4);
  }

  // ---------------------------------------------------------------------------------
  // Publication contexts
  // ---------------------------------------------------------------------------------

  function PutContext(c: Context, rest: seq<Byte>): seq<Byte> {
    PutText(c.publisher, Le(c.boot, 8) + (Le(c.epoch, 8) + PutText(c.federation,
      Le(c.federationGeneration, 8) + (Le(c.sequence, 8) + (Le(ToUnsigned(c.observedAt), 8)
        + (Le(c.precision, 1) + (Le(c.evidenceClass, 1) + (Le(c.provenance, 1)
          + (Le(c.evidenceGeneration, 8) + rest)))))))))
  }

  function GetContext(s: seq<Byte>): Parsed<Context> {
    var publisher :- GetString(s);
    if publisher.0 != [] && !IsValidIdentifier(publisher.0) then Err(ProtocolViolation)
    else
      var boot :- GetWord(publisher.1);
      var epoch :- GetWord(boot.1);
      var federation :- GetString(epoch.1);
      if federation.0 != [] && !IsValidIdentifier(federation.0) then Err(ProtocolViolation)
      else
        var federationGeneration :- GetWord(federation.1);
        var sequence :- GetWord(federationGeneration.1);
        var observedAt :- GetWord(sequence.1);
        var precision :- GetEnum(observedAt.1, 6);
        var evidenceClass :- GetEnum(precision.1, 3);
        var provenance :- GetEnum(evidenceClass.1, 16);
        var evidenceGeneration :- GetWord(provenance.1);
        var c := Context(publisher.0, boot.0, epoch.0, federation.0, federationGeneration.0, sequence.0,
                         ToSigned(observedAt.0), precision.0, evidenceClass.0, provenance.0, evidenceGeneration.0);
        if c.Valid() then Ok((c, evidenceGeneration.1)) else Err(ProtocolViolation)
  }

  lemma WordRoundTrip(v: U64, rest: seq<Byte>)
    ensures GetWord(Le(v, 8) + rest) == Ok((v, rest))
  {
    Widths();
    NumberRoundTrip(v, 8, rest);
  }

  lemma EnumRoundTrip(v: nat, last: nat, rest: seq<Byte>)
    requires v <= last < 256
    ensures GetEnum(Le(v, 1) + rest, last) == Ok((v, rest))
  {
    Widths();
    NumberRoundTrip(v, 1, rest);
  }

  lemma WordIsCanonical(s: seq<Byte>)
    requires GetWord(s).Ok?
    ensures s == Le(GetWord(s).value.0, 8) + GetWord(s).value.1
  {
    NumberIsCanonical(s, 8);
  }

  lemma EnumIsCanonical(s: seq<Byte>, last: nat)
    requires GetEnum(s, last).Ok?
    ensures s == Le(GetEnum(s, last).value.0, 1) + GetEnum(s, last).value.1 && GetEnum(s, last).value.0 <= last
  {
    NumberIsCanonical(s, 1);
  }

  lemma StringRoundTrip(t: Text, rest: seq<Byte>)
    requires |t| <= MAX_FIELD
    ensures GetString(PutText(t, rest)) == Ok((t, rest))
  {
    TextRoundTrip(t, rest, MAX_FIELD, BoundExceeded);
  }

  lemma StringIsCanonical(s: seq<Byte>)
    requires GetString(s).Ok?
    ensures s == PutText(GetString(s).value.0, GetString(s).value.1) && |GetString(s).value.0| <= MAX_FIELD
  {
    TextIsCanonical(s, MAX_FIELD, BoundExceeded);
  }

  /** A valid context decodes to itself and leaves exactly what followed it. */
  lemma ContextRoundTrip(c: Context, rest: seq<Byte>)
    requires c.Valid()
    ensures GetContext(PutContext(c, rest)) == Ok((c, rest))
  {
    hide GetString, GetWord, GetEnum, PutText, Le, IsIdentifierChar, ToUnsigned, ToSigned;
    var s10 := Le(c.evidenceGeneration, 8) + rest;
    var s9 := Le(c.provenance, 1) + s10;
    var s8 := Le(c.evidenceClass, 1) + s9;
    var s7 := Le(c.precision, 1) + s8;
    var s6 := Le(ToUnsigned(c.observedAt), 8) + s7;
    var s5 := Le(c.sequence, 8) + s6;
    var s4 := Le(c.federationGeneration, 8) + s5;
    var s3 := PutText(c.federation, s4);
    var s2 := Le(c.epoch, 8) + s3;
    var s1 := Le(c.boot, 8) + s2;
    StringRoundTrip(c.publisher, s1);
    WordRoundTrip(c.boot, s2);
    WordRoundTrip(c.epoch, s3);
    StringRoundTrip(c.federation, s4);
    WordRoundTrip(c.federationGeneration, s5);
    WordRoundTrip(c.sequence, s6);
    WordRoundTrip(ToUnsigned(c.observedAt), s7);
    SignedRoundTrip(c.observedAt);
    EnumRoundTrip(c.precision, 6, s8);
    EnumRoundTrip(c.evidenceClass, 3, s9);
    EnumRoundTrip(c.provenance, 16, s10);
    WordRoundTrip(c.evidenceGeneration, rest);
  }

  /** Whatever decodes as a context is valid and is the encoding of what it decodes to. */
  lemma ContextIsCanonical(s: seq<Byte>)
    requires GetContext(s).Ok?
    ensures GetContext(s).value.0.Valid()
    ensures s == PutContext(GetContext(s).value.0, GetContext(s).value.1)
  {
    hide GetString, GetWord, GetEnum, PutText, Le, IsIdentifierChar, ToUnsigned, ToSigned;
    var publisher := GetString(s).value;
    var boot := GetWord(publisher.1).value;
    var epoch := GetWord(boot.1).value;
    var federation := GetString(epoch.1).value;
    var federationGeneration := GetWord(federation.1).value;
    var sequence := GetWord(federationGeneration.1).value;
    var observedAt := GetWord(sequence.1).value;
    var precision := GetEnum(observedAt.1, 6).value;
    var evidenceClass := GetEnum(precision.1, 3).value;
    var provenance := GetEnum(evidenceClass.1, 16).value;
    StringIsCanonical(s);
    WordIsCanonical(publisher.1);
    WordIsCanonical(boot.1);
    StringIsCanonical(epoch.1);
    WordIsCanonical(federation.1);
    WordIsCanonical(federationGeneration.1);
    WordIsCanonical(sequence.1);
    UnsignedRoundTrip(observedAt.0);
    EnumIsCanonical(observedAt.1, 6);
    EnumIsCanonical(precision.1, 3);
    EnumIsCanonical(evidenceClass.1, 16);
    WordIsCanonical(provenance.1);
  }

  // ---------------------------------------------------------------------------------
  // Acknowledgements
  // ---------------------------------------------------------------------------------

  /** Disposition and code travel as enumerator values. */
  datatype WireAck = WireAck(disposition: nat, code: nat, detail: Text, watermark: U64, gap: U64) {
    predicate Fits() { disposition <= MAX_DISPOSITION && code <= MAX_CODE && |detail| <= MAX_FIELD }
  }

  function PutAck(a: WireAck, rest: seq<Byte>): seq<Byte> {
    Le(a.disposition, 1) + (Le(a.code, 1) + PutText(a.detail, Le(a.watermark, 8) + (Le(a.gap, 8) + rest)))
  }

  function GetAck(s: seq<Byte>): Parsed<WireAck> {
    var disposition :- GetEnum(s, MAX_DISPOSITION);
    var code :- GetEnum(disposition.1, MAX_CODE);
    var detail :- GetString(code.1);
    var watermark :- GetWord(detail.1);
    var gap :- GetWord(watermark.1);
    Ok((WireAck(disposition.0, code.0, detail.0, watermark.0, gap.0), gap.1))
  }

  lemma AckRoundTrip(a: WireAck, rest: seq<Byte>)
    requires a.Fits()
    ensures GetAck(PutAck(a, rest)) == Ok((a, rest))
  {
    hide GetString, GetWord, GetEnum, PutText, Le;
    var s3 := Le(a.gap, 8) + rest;
    var s2 := Le(a.watermark, 8) + s3;
    var s1 := PutText(a.detail, s2);
    EnumRoundTrip(a.disposition, MAX_DISPOSITION, Le(a.code, 1) + s1);
    EnumRoundTrip(a.code, MAX_CODE, s1);
    StringRoundTrip(a.detail, s2);
    WordRoundTrip(a.watermark, s3);
    WordRoundTrip(a.gap, rest);
  }

  lemma AckIsCanonical(s: seq<Byte>)
    requires GetAck(s).Ok?
    ensures GetAck(s).value.0.Fits()
    ensures s == PutAck(GetAck(s).value.0, GetAck(s).value.1)
  {
    hide GetString, GetWord, GetEnum, PutText, Le;
    var disposition := GetEnum(s, MAX_DISPOSITION).value;
    var code := GetEnum(disposition.1, MAX_CODE).value;
    var detail := GetString(code.1).value;
    var watermark := GetWord(detail.1).value;
    EnumIsCanonical(s, MAX_DISPOSITION);
    EnumIsCanonical(disposition.1, MAX_CODE);
    StringIsCanonical(code.1);
    WordIsCanonical(detail.1);
    WordIsCanonical(watermark.1);
  }

  // ---------------------------------------------------------------------------------
  // Replies: rows of fields
  // ---------------------------------------------------------------------------------

  datatype WireField = WireField(name: Text, value: Text) {
    predicate Fits() { |name| <= MAX_FIELD && |value| <= MAX_FIELD }
  }

  ghost predicate RowFits(row: seq<WireField>) {
    |row| <= MAX_FIELDS && forall i :: 0 <= i < |row| ==> row[i].Fits()
  }

  ghost predicate RowsFit(rows: seq<seq<WireField>>) {
    forall i :: 0 <= i < |rows| ==> RowFits(rows[i])
  }

  function PutFields(row: seq<WireField>, rest: seq<Byte>): seq<Byte> {
    if row == [] then rest else PutText(row[0].name, PutText(row[0].value, PutFields(row[1..], rest)))
  }

  function GetFields(s: seq<Byte>, count: nat): Parsed<seq<WireField>>
    decreases count
  {
    if count == 0 then Ok(([], s))
    else
      var name :- GetString(s);
      var value :- GetString(name.1);
      var more :- GetFields(value.1, count - 1);
      Ok(([WireField(name.0, value.0)] + more.0, more.1))
  }

  function PutRow(row: seq<WireField>, rest: seq<Byte>): seq<Byte> {
    Le(|row|, 4) + PutFields(row, rest)
  }

  function GetRow(s: seq<Byte>): Parsed<seq<WireField>> {
    var count :- GetNumber(s, 4);
    if count.0 > MAX_FIELDS then Err(BoundExceeded) else GetFields(count.1, count.0)
  }

  function PutRows(rows: seq<seq<WireField>>, rest: seq<Byte>): seq<Byte> {
    if rows == [] then rest else PutRow(rows[0], PutRows(rows[1..], rest))
  }

  function GetRows(s: seq<Byte>, count: nat): Parsed<seq<seq<WireField>>>
    decreases count
  {
    if count == 0 then Ok(([], s))
    else
      var row :- GetRow(s);
      var more :- GetRows(row.1, count - 1);
      Ok(([row.0] + more.0, more.1))
  }

  lemma {:induction false} FieldsRoundTrip(row: seq<WireField>, rest: seq<Byte>)
    requires forall i :: 0 <= i < |row| ==> row[i].Fits()
    ensures GetFields(PutFields(row, rest), |row|) == Ok((row, rest))
    decreases |row|
  {
    hide GetString, PutText;
    if row != [] {
      var tail := PutFields(row[1..], rest);
      assert row[0].Fits();
      StringRoundTrip(row[0].name, PutText(row[0].value, tail));
      StringRoundTrip(row[0].value, tail);
      FieldsRoundTrip(row[1..], rest);
      assert row == [WireField(row[0].name, row[0].value)] + row[1..];
    }
  }

  lemma {:induction false} FieldsAreCanonical(s: seq<Byte>, count: nat)
    requires GetFields(s, count).Ok?
    ensures var (row, rest) := GetFields(s, count).value;
            |row| == count && s == PutFields(row, rest) && forall i :: 0 <= i < |row| ==> row[i].Fits()
    decreases count
  {
    hide GetString, PutText;
    if count > 0 {
      var name := GetString(s).value;
      var value := GetString(name.1).value;
      var more := GetFields(value.1, count - 1).value;
      StringIsCanonical(s);
      StringIsCanonical(name.1);
      FieldsAreCanonical(value.1, count - 1);
      assert ([WireField(name.0, value.0)] + more.0)[1..] == more.0;
    }
  }

  lemma RowRoundTrip(row: seq<WireField>, rest: seq<Byte>)
    requires RowFits(row)
    ensures GetRow(PutRow(row, rest)) == Ok((row, rest))
  {
    hide GetNumber, Le, GetFields, PutFields;
    Widths();
    NumberRoundTrip(|row|, 4, PutFields(row, rest));
    FieldsRoundTrip(row, rest);
  }

  lemma RowIsCanonical(s: seq<Byte>)
    requires GetRow(s).Ok?
    ensures RowFits(GetRow(s).value.0) && s == PutRow(GetRow(s).value.0, GetRow(s).value.1)
  {
    hide GetNumber, Le, GetFields, PutFields;
    var count := GetNumber(s, 4).value;
    NumberIsCanonical(s, 4);
    FieldsAreCanonical(count.1, count.0);
  }

  lemma {:induction false} RowsRoundTrip(rows: seq<seq<WireField>>, rest: seq<Byte>)
    requires RowsFit(rows)
    ensures GetRows(PutRows(rows, rest), |rows|) == Ok((rows, rest))
    decreases |rows|
  {
    hide GetRow, PutRow, RowFits;
    if rows != [] {
      RowRoundTrip(rows[0], PutRows(rows[1..], rest));
      RowsRoundTrip(rows[1..], rest);
      assert rows == [rows[0]] + rows[1..];
    }
  }

  lemma {:induction false} RowsAreCanonical(s: seq<Byte>, count: nat)
    requires GetRows(s, count).Ok?
    ensures var (rows, rest) := GetRows(s, count).value;
            |rows| == count && RowsFit(rows) && s == PutRows(rows, rest)
    decreases count
  {
    hide GetRow, PutRow, RowFits;
    if count > 0 {
      var row := GetRow(s).value;
      var more := GetRows(row.1, count - 1).value;
      RowIsCanonical(s);
      RowsAreCanonical(row.1, count - 1);
      assert ([row.0] + more.0)[1..] == more.0;
    }
  }

  datatype WireReply = WireReply(
    code: nat, message: Text, detail: Text, digest: Text, text: Text, rows: seq<seq<WireField>>)
  {
    ghost predicate Fits() {
      && code <= MAX_CODE && |message| <= MAX_FIELD && |detail| <= MAX_BLOCK && |digest| <= MAX_FIELD
      && |text| <= MAX_BLOCK && |rows| <= MAX_ROWS && RowsFit(rows)
    }
  }

  function PutReply(r: WireReply, rest: seq<Byte>): seq<Byte> {
    Le(r.code, 1) + PutText(r.message, PutText(r.detail, PutText(r.digest, PutText(r.text,
      Le(|r.rows|, 4) + PutRows(r.rows, rest)))))
  }

  function GetReply(s: seq<Byte>): Parsed<WireReply> {
    var code :- GetEnum(s, MAX_CODE);
    var message :- GetString(code.1);
    var detail :- GetBlock(message.1);
    var digest :- GetString(detail.1);
    var text :- GetBlock(digest.1);
    var count :- GetNumber(text.1, 4);
    if count.0 > MAX_ROWS then Err(BoundExceeded)
    else
      var rows :- GetRows(count.1, count.0);
      Ok((WireReply(code.0, message.0, detail.0, digest.0, text.0, rows.0), rows.1))
  }

  /** A reply within its bounds decodes to itself and leaves exactly what followed it. */
  lemma ReplyRoundTrip(r: WireReply, rest: seq<Byte>)
    requires r.Fits()
    ensures GetReply(PutReply(r, rest)) == Ok((r, rest))
  {
    hide GetString, GetBlock, GetNumber, GetEnum, PutText, Le, GetRows, PutRows, RowsFit;
    var s5 := PutRows(r.rows, rest);
    var s4 := Le(|r.rows|, 4) + s5;
    var s3 := PutText(r.text, s4);
    var s2 := PutText(r.digest, s3);
    var s1 := PutText(r.detail, s2);
    EnumRoundTrip(r.code, MAX_CODE, PutText(r.message, s1));
    StringRoundTrip(r.message, s1);
    BlockRoundTrip(r.detail, s2);
    StringRoundTrip(r.digest, s3);
    BlockRoundTrip(r.text, s4);
    Widths();
    NumberRoundTrip(|r.rows|, 4, s5);
    RowsRoundTrip(r.rows, rest);
  }

  /** Whatever decodes as a reply is within its bounds and is the encoding of what it decodes to. */
  lemma ReplyIsCanonical(s: seq<Byte>)
    requires GetReply(s).Ok?
    ensures GetReply(s).value.0.Fits() && s == PutReply(GetReply(s).value.0, GetReply(s).value.1)
  {
    hide GetString, GetBlock, GetNumber, GetEnum, PutText, Le, GetRows, PutRows, RowsFit;
    var code := GetEnum(s, MAX_CODE).value;
    var message := GetString(code.1).value;
    var detail := GetBlock(message.1).value;
    var digest := GetString(detail.1).value;
    var text := GetBlock(digest.1).value;
    var count := GetNumber(text.1, 4).value;
    EnumIsCanonical(s, MAX_CODE);
    StringIsCanonical(code.1);
    BlockIsCanonical(message.1);
    StringIsCanonical(detail.1);
    BlockIsCanonical(digest.1);
    NumberIsCanonical(text.1, 4);
    RowsAreCanonical(count.1, count.0);
  }

  lemma BlockRoundTrip(t: Text, rest: seq<Byte>)
    requires |t| <= MAX_BLOCK
    ensures GetBlock(PutText(t, rest)) == Ok((t, rest))
  {
    TextRoundTrip(t, rest, MAX_BLOCK, OversizedPayload);
  }

  lemma BlockIsCanonical(s: seq<Byte>)
    requires GetBlock(s).Ok?
    ensures s == PutText(GetBlock(s).value.0, GetBlock(s).value.1) && |GetBlock(s).value.0| <= MAX_BLOCK
  {
    TextIsCanonical(s, MAX_BLOCK, OversizedPayload);
  }

  // ---------------------------------------------------------------------------------
  // Exactly what survives the wire
  // ---------------------------------------------------------------------------------

  /** Encoders do not look at validity or counts; what is out of bounds is lost on the wire. */
  lemma ContextSurvivesExactly(c: Context, rest: seq<Byte>)
    ensures GetContext(PutContext(c, rest)) == Ok((c, rest)) <==> c.Valid()
  {
    hide GetContext, PutContext;
    if c.Valid() {
      ContextRoundTrip(c, rest);
    } else if GetContext(PutContext(c, rest)).Ok? {
      ContextIsCanonical(PutContext(c, rest));
    }
  }

  lemma AckSurvivesExactly(a: WireAck, rest: seq<Byte>)
    ensures GetAck(PutAck(a, rest)) == Ok((a, rest)) <==> a.Fits()
  {
    hide GetAck, PutAck;
    if a.Fits() {
      AckRoundTrip(a, rest);
    } else if GetAck(PutAck(a, rest)).Ok? {
      AckIsCanonical(PutAck(a, rest));
    }
  }

  lemma ReplySurvivesExactly(r: WireReply, rest: seq<Byte>)
    ensures GetReply(PutReply(r, rest)) == Ok((r, rest)) <==> r.Fits()
  {
    hide GetReply, PutReply;
    if r.Fits() {
      ReplyRoundTrip(r, rest);
    } else if GetReply(PutReply(r, rest)).Ok? {
      ReplyIsCanonical(PutReply(r, rest));
    }
  }

  // ---------------------------------------------------------------------------------
  // The growing buffer and the moving cursor
  // ---------------------------------------------------------------------------------

  class Encoder {
    var buffer: seq<Byte>
    var failure: Option<ErrorCode>

    constructor ()
      ensures buffer == [] && failure == None
    {
      buffer, failure := [], None;
    }

    method Number(value: nat, width: nat)
      modifies this`buffer
      ensures buffer == old(buffer) + Le(value, width)
    {
      hide Le;
      var rest := value;
      for i := 0 to width
        invariant buffer + Le(rest, width - i) == old(buffer) + Le(value, width)
      {
        LowByteFirst(rest, width - i);
        assert buffer + Le(rest, width - i) == (buffer + [rest % 256]) + Le(rest / 256, width - i - 1);
        buffer := buffer + [rest % 256];
        rest := rest / 256;
      }
      NoBytes(rest);
    }

    /** A text over its limit fails the encoder, and a failed encoder takes no more texts. */
    method WriteText(t: Text, limit: nat, tooLong: ErrorCode)
      modifies this
      ensures failure == if old(failure).Some? then old(failure) else if |t| > limit then Some(tooLong) else None
      ensures buffer == if failure.Some? then old(buffer) else old(buffer) + PutText(t, [])
    {
      hide Le;
      if failure.Some? {
        return;
      }
      if |t| > limit {
        failure := Some(tooLong);
        return;
      }
      Number(|t|, 4);
      buffer := buffer + t;
      assert t + [] == t;
    }

    method WriteIdentity(c: Context)
      requires failure == None
      modifies this
      ensures failure.Some? <==> |c.publisher| > MAX_FIELD || |c.federation| > MAX_FIELD
      ensures failure == None ==>
                buffer == old(buffer) + PutText(c.publisher, []) + Le(c.boot, 8) + Le(c.epoch, 8) + PutText(c.federation, [])
    {
      hide PutText, Le;
      WriteText(c.publisher, MAX_FIELD, BoundExceeded);
      Number(c.boot, 8);
      Number(c.epoch, 8);
      WriteText(c.federation, MAX_FIELD, BoundExceeded);
    }

    method WriteObservation(c: Context)
      modifies this`buffer
      ensures buffer == old(buffer) + Le(c.federationGeneration, 8) + Le(c.sequence, 8) + Le(ToUnsigned(c.observedAt), 8)
                        + Le(c.precision, 1) + Le(c.evidenceClass, 1) + Le(c.provenance, 1) + Le(c.evidenceGeneration, 8)
    {
      hide Le;
      Number(c.federationGeneration, 8);
      Number(c.sequence, 8);
      Number(ToUnsigned(c.observedAt), 8);
      Number(c.precision, 1);
      Number(c.evidenceClass, 1);
      Number(c.provenance, 1);
      Number(c.evidenceGeneration, 8);
    }

    /** Writes the context field by field; only its two identifiers can fail. */
    method WriteContext(c: Context)
      requires failure == None
      modifies this
      ensures failure.Some? <==> |c.publisher| > MAX_FIELD || |c.federation| > MAX_FIELD
      ensures failure == None ==> buffer == old(buffer) + PutContext(c, [])
    {
      hide PutText, Le, PutContext;
      WriteIdentity(c);
      WriteObservation(c);
      ContextInPieces(old(buffer), c);
    }
  }

  lemma LowByteFirst(value: nat, width: nat)
    requires width > 0
    ensures Le(value, width) == [value % 256] + Le(value / 256, width - 1)
  {
  }

  lemma NoBytes(value: nat)
    ensures Le(value, 0) == []
  {
  }

  lemma TextInPieces(t: Text, rest: seq<Byte>)
    ensures PutText(t, rest) == PutText(t, []) + rest
  {
    hide Le;
    assert t + [] == t;
  }

  /** The nested form of an encoded context is its fields one after the other. */
  lemma ContextInPieces(before: seq<Byte>, c: Context)
    ensures before + PutContext(c, []) ==
            before + PutText(c.publisher, []) + Le(c.boot, 8) + Le(c.epoch, 8) + PutText(c.federation, [])
            + Le(c.federationGeneration, 8) + Le(c.sequence, 8) + Le(ToUnsigned(c.observedAt), 8) + Le(c.precision, 1)
            + Le(c.evidenceClass, 1) + Le(c.provenance, 1) + Le(c.evidenceGeneration, 8)
  {
    hide PutText, Le;
    var s4 := Le(c.federationGeneration, 8) + (Le(c.sequence, 8) + (Le(ToUnsigned(c.observedAt), 8)
        + (Le(c.precision, 1) + (Le(c.evidenceClass, 1) + (Le(c.provenance, 1) + (Le(c.evidenceGeneration, 8) + []))))));
    TextInPieces(c.federation, s4);
    TextInPieces(c.publisher, Le(c.boot, 8) + (Le(c.epoch, 8) + PutText(c.federation, s4)));
  }

  class Decoder {
    const data: seq<Byte>
    const overBudget: bool
    var offset: nat

    ghost predicate Valid() reads this { offset <= |data| }

    ghost function Remaining(): seq<Byte>
      requires Valid()
      reads this
    {
      data[offset..]
    }

    constructor (data: seq<Byte>, maxBytes: nat)
      ensures Valid() && overBudget == (|data| > maxBytes)
      ensures !overBudget ==> Remaining() == data
    {
      this.data := if |data| > maxBytes then data[..maxBytes] else data;
      overBudget, offset := |data| > maxBytes, 0;
    }

    method Number(width: nat) returns (r: Result<nat>)
      requires Valid()
      modifies this`offset
      ensures Valid()
      ensures if overBudget then r == Err(OversizedPayload)
              else match GetNumber(old(Remaining()), width)
                   case Ok(v) => r == Ok(v.0) && Remaining() == v.1
                   case Err(code) => r == Err(code)
    {
      if overBudget {
        return Err(OversizedPayload);
      }
      if width > |data| - offset {
        return Err(ProtocolViolation);
      }
      var value := Read(data, offset, width);
      assert data[offset..][..width] == data[offset..offset + width];
      offset := offset + width;
      return Ok(value);
    }

    method Enum(last: nat) returns (r: Result<nat>)
      requires Valid()
      modifies this`offset
      ensures Valid()
      ensures if overBudget then r == Err(OversizedPayload)
              else match GetEnum(old(Remaining()), last)
                   case Ok(v) => r == Ok(v.0) && Remaining() == v.1
                   case Err(code) => r == Err(code)
    {
      hide FromLe, GetNumber;
      var v :- Number(1);
      return if v > last then Err(ProtocolViolation) else Ok(v);
    }

    method ReadText(limit: nat, tooLong: ErrorCode) returns (r: Result<Text>)
      requires Valid()
      modifies this`offset
      ensures Valid()
      ensures if overBudget then r == Err(OversizedPayload)
              else match GetText(old(Remaining()), limit, tooLong)
                   case Ok(v) => r == Ok(v.0) && Remaining() == v.1
                   case Err(code) => r == Err(code)
    {
      hide FromLe, GetNumber;
      var n :- Number(4);
      if n > limit {
        return Err(tooLong);
      }
      if n > |data| - offset {
        return Err(ProtocolViolation);
      }
      var value := data[offset..offset + n];
      assert value == data[offset..][..n];
      offset := offset + n;
      return Ok(value);
    }

    method ReadRow() returns (r: Result<seq<WireField>>)
      requires Valid() && !overBudget
      modifies this`offset
      ensures Valid()
      ensures match GetRow(old(Remaining()))
              case Ok(v) => r == Ok(v.0) && Remaining() == v.1
              case Err(code) => r == Err(code)
    {
      hide GetNumber, GetText;
      var count :- Number(4);
      if count > MAX_FIELDS {
        return Err(BoundExceeded);
      }
      ghost var start := Remaining();
      var row: seq<WireField> := [];
      ResumedFromStart(GetFields(start, count));
      for i := 0 to count
        invariant Valid() && |row| == i
        invariant GetFields(start, count) == Resumed(row, GetFields(Remaining(), count - i))
      {
        NextField(row, Remaining(), count - i);
        var name :- ReadText(MAX_FIELD, BoundExceeded);
        var value :- ReadText(MAX_FIELD, BoundExceeded);
        row := row + [WireField(name, value)];
      }
      assert row + [] == row;
      return Ok(row);
    }

    /** Rows are pushed one by one; the first that fails fails the reply. */
    method ReadRows(count: nat) returns (r: Result<seq<seq<WireField>>>)
      requires Valid() && !overBudget
      modifies this`offset
      ensures Valid()
      ensures match GetRows(old(Remaining()), count)
              case Ok(v) => r == Ok(v.0) && Remaining() == v.1
              case Err(code) => r == Err(code)
    {
      hide GetRow;
      var rows: seq<seq<WireField>> := [];
      ResumedFromStart(GetRows(Remaining(), count));
      for i := 0 to count
        invariant Valid() && |rows| == i
        invariant GetRows(old(Remaining()), count) == Resumed(rows, GetRows(Remaining(), count - i))
      {
        NextRow(rows, Remaining(), count - i);
        var row :- ReadRow();
        rows := rows + [row];
      }
      assert rows + [] == rows;
      return Ok(rows);
    }
  }

  /** A list read in two parts. */
  function Resumed<T>(first: seq<T>, more: Parsed<seq<T>>): Parsed<seq<T>> {
    match more
    case Err(code) => Err(code)
    case Ok((items, rest)) => Ok((first + items, rest))
  }

  lemma ResumedFromStart<T>(all: Parsed<seq<T>>)
    ensures Resumed([], all) == all
  {
    if all.Ok? {
      assert [] + all.value.0 == all.value.0;
    }
  }

  lemma NextField(row: seq<WireField>, s: seq<Byte>, count: nat)
    requires count > 0
    ensures match GetString(s)
            case Err(code) => Resumed(row, GetFields(s, count)) == Err(code)
            case Ok(name) =>
              match GetString(name.1)
              case Err(code) => Resumed(row, GetFields(s, count)) == Err(code)
              case Ok(value) =>
                Resumed(row, GetFields(s, count)) ==
                Resumed(row + [WireField(name.0, value.0)], GetFields(value.1, count - 1))
  {
    hide GetString;
    if GetFields(s, count).Ok? {
      var name := GetString(s).value;
      var value := GetString(name.1).value;
      var more := GetFields(value.1, count - 1).value;
      assert row + ([WireField(name.0, value.0)] + more.0) == row + [WireField(name.0, value.0)] + more.0;
    }
  }

  lemma NextRow(rows: seq<seq<WireField>>, s: seq<Byte>, count: nat)
    requires count > 0
    ensures match GetRow(s)
            case Err(code) => Resumed(rows, GetRows(s, count)) == Err(code)
            case Ok(row) => Resumed(rows, GetRows(s, count)) == Resumed(rows + [row.0], GetRows(row.1, count - 1))
  {
    hide GetRow;
    if GetRows(s, count).Ok? {
      var row := GetRow(s).value;
      var more := GetRows(row.1, count - 1).value;
      assert rows + ([row.0] + more.0) == rows + [row.0] + more.0;
    }
  }
}
