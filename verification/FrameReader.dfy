/** Reassembling frames from a byte stream that arrives in arbitrary pieces (src/protocol.cpp). */
module FrameReader {
  import opened Foundation
  import opened LittleEndian
  import opened Frames

  /** The receiving end of a connection. `incoming` is what the peer has sent and nobody has
      read; each read finds at most the next of `offers` bytes ready, 0 being a timeout, and
      the connection is closed when the offers are used up. */
  class Socket {
    var incoming: seq<Byte>
    var offers: seq<nat>
    ghost var emptyReads: nat

    constructor (incoming: seq<Byte>, offers: seq<nat>)
      ensures this.incoming == incoming && this.offers == offers
    {
      this.incoming, this.offers := incoming, offers;
    }

    method ReadSome(length: nat) returns (r: Result<seq<Byte>>)
      modifies this
      ensures r.Ok? <==> old(offers) != []
      ensures r.Err? ==> r.code == ConnectionClosed && incoming == old(incoming) && offers == [] && emptyReads == old(emptyReads)
      ensures r.Ok? ==> |r.value| <= length && old(incoming) == r.value + incoming && |offers| < |old(offers)|
      ensures r.Ok? ==> emptyReads == old(emptyReads) + if r.value == [] then 1 else 0
    {
      if offers == [] {
        return Err(ConnectionClosed);
      }
      var count := offers[0];
      if count > length {
        count := length;
      }
      if count > |incoming| {
        count := |incoming|;
      }
      r := Ok(incoming[..count]);
      incoming := incoming[count..];
      offers := offers[1..];
      emptyReads := emptyReads + if count == 0 then 1 else 0;
    }
  }

  // ---------------------------------------------------------------------------------
  // What the start of a stream says
  // ---------------------------------------------------------------------------------

  /** The payload length declared by a header. */
  function Declared(data: seq<Byte>): nat
    requires |data| >= HEADER
  {
    FromLe(data[20..24])
  }

  function Total(data: seq<Byte>): nat
    requires |data| >= HEADER
  {
    HEADER + Declared(data)
  }

  lemma DeclaredByPrefix(data: seq<Byte>, more: seq<Byte>)
    requires |data| >= HEADER
    ensures Declared(data + more) == Declared(data)
  {
    assert (data + more)[20..24] == data[20..24];
  }

  /** What one call may do to the bytes not yet delivered: nothing at all (the connection is
      closed, nothing arrived, or the declared payload is too large), or decode exactly the
      first frame and leave exactly the rest. */
  predicate Outcome(before: seq<Byte>, r: Result<Frame>, after: seq<Byte>, limit: FrameLimit) {
    || (after == before && (r == Err(ConnectionClosed) || r == Ok(EMPTY_FRAME)))
    || (after == before && r == Err(OversizedPayload) && |before| >= HEADER && Declared(before) > limit)
    || (&& |before| >= HEADER && Declared(before) <= limit && Total(before) <= |before|
        && r == Decode(before[..Total(before)], limit) && after == before[Total(before)..])
  }

  class Reader {
    const socket: Socket
    const limit: FrameLimit
    var buffer: seq<Byte>
    var buffered: nat

    /** The buffer never holds bytes past the frame being assembled. */
    predicate Valid()
      reads this
    {
      && buffered <= |buffer|
      && (buffered >= HEADER ==> Declared(buffer) > limit || buffered < Total(buffer))
    }

    /** Everything not yet delivered. */
    ghost function Pending(): seq<Byte>
      requires buffered <= |buffer|
      reads this, socket
    {
      buffer[..buffered] + socket.incoming
    }

    constructor (socket: Socket, limit: FrameLimit)
      ensures Valid() && this.socket == socket && this.limit == limit && Pending() == socket.incoming
    {
      this.socket, this.limit, buffer, buffered := socket, limit, [], 0;
    }

    /** Reads until `goal` bytes are buffered. `done` is false when the call has to return. */
    method Fill(goal: nat) returns (done: bool, r: Result<Frame>)
      requires buffered <= goal <= |buffer|
      modifies this`buffer, this`buffered, socket
      ensures buffered <= goal <= |buffer| == old(|buffer|)
      ensures old(buffered) <= buffered && buffer[..old(buffered)] == old(buffer[..buffered])
      ensures old(buffered) >= HEADER ==> buffer[20..24] == old(buffer[20..24])
      ensures Pending() == old(Pending())
      ensures done <==> buffered == goal
      ensures !done ==> r == Err(ConnectionClosed) || r == Ok(EMPTY_FRAME)
      ensures socket.emptyReads == old(socket.emptyReads) + if !done && r.Ok? then 1 else 0
      ensures |socket.offers| <= |old(socket.offers)|
      ensures old(buffered) < goal && (done || r.Ok?) ==> |socket.offers| < |old(socket.offers)|
      ensures !done && r.Err? ==> socket.offers == []
    {
      while buffered < goal
        invariant buffered <= goal <= |buffer| == old(|buffer|)
        invariant old(buffered) <= buffered && buffer[..old(buffered)] == old(buffer[..buffered])
        invariant old(buffered) >= HEADER ==> buffer[20..24] == old(buffer[20..24])
        invariant Pending() == old(Pending())
        invariant socket.emptyReads == old(socket.emptyReads)
        invariant |socket.offers| <= |old(socket.offers)|
        invariant buffered > old(buffered) ==> |socket.offers| < |old(socket.offers)|
        decreases goal - buffered
      {
        var read := socket.ReadSome(goal - buffered);
        if read.Err? {
          return false, Err(read.code);
        }
        if read.value == [] {
          return false, Ok(EMPTY_FRAME);
        }
        ghost var held := buffer[..buffered];
        buffer := buffer[..buffered] + read.value + buffer[buffered + |read.value|..];
        buffered := buffered + |read.value|;
        assert buffer[..buffered] == held + read.value;
      }
      return true, Ok(EMPTY_FRAME);
    }

    method Grow(size: nat)
      requires buffered <= |buffer|
      modifies this`buffer
      ensures |buffer| >= size && |buffer| >= old(|buffer|)
      ensures buffer[..buffered] == old(buffer[..buffered])
      ensures buffered >= HEADER ==> buffer[20..24] == old(buffer[20..24])
    {
      if |buffer| < size {
        buffer := buffer + seq(size - |buffer|, i => 0);
      }
    }

    method Next() returns (r: Result<Frame>)
      requires Valid()
      modifies this`buffer, this`buffered, socket
      ensures Valid()
      ensures Outcome(old(Pending()), r, Pending(), limit)
      ensures r == Err(ConnectionClosed) ==> socket.offers == []
      ensures r.Ok? ==> |socket.offers| < |old(socket.offers)|
      ensures socket.emptyReads == old(socket.emptyReads) + if r == Ok(EMPTY_FRAME) then 1 else 0
    {
      hide FromLe, Decode;
      Grow(HEADER);
      assert Valid();
      if buffered < HEADER {
        var done;
        done, r := Fill(HEADER);
        if !done {
          return;
        }
      }
      ghost var pending := Pending();
      assert pending == old(Pending());
      ghost var declared := Declared(buffer);
      assert pending[20..24] == buffer[20..24];
      var length := Read(buffer, 20, 4);
      if length > limit {
        return Err(OversizedPayload);
      }
      var total := HEADER + length;
      assert buffered < total || (buffered == total == HEADER && |socket.offers| < |old(socket.offers)|);
      Grow(total);
      assert Declared(buffer) == declared;
      var done;
      done, r := Fill(total);
      if !done {
        assert Declared(buffer) == declared;
        return;
      }
      assert pending == buffer[..total] + socket.incoming;
      r := DecodeFrame(buffer[..total], limit);
      NeverEmpty(buffer[..total], limit);
      buffered := 0;
    }
  }

  lemma NeverEmpty(data: seq<Byte>, limit: FrameLimit)
    ensures Decode(data, limit) != Ok(EMPTY_FRAME) && Decode(data, limit) != Err(ConnectionClosed)
  {
  }

  // ---------------------------------------------------------------------------------
  // Streams of frames
  // ---------------------------------------------------------------------------------

  ghost predicate AllEncodable(frames: seq<Frame>, limit: FrameLimit) {
    forall i :: 0 <= i < |frames| ==> Encodable(frames[i], limit)
  }

  /** What the peer sends for a list of frames. */
  function Stream(frames: seq<Frame>): seq<Byte> {
    if frames == [] then [] else Image(frames[0]) + Stream(frames[1..])
  }

  /** A stream starts with exactly its first frame, whatever follows. */
  lemma FirstFrame(f: Frame, rest: seq<Byte>, limit: FrameLimit)
    requires Encodable(f, limit)
    ensures var data := Image(f) + rest;
            && |data| >= HEADER && Declared(data) == |f.payload| <= limit && Total(data) == |Image(f)|
            && data[..Total(data)] == Image(f) && Decode(data[..Total(data)], limit) == Ok(f)
            && data[Total(data)..] == rest
  {
    hide Image, Decode, FromLe, Pow256, Le;
    ImageFields(f);
    DecodeInvertsEncode(f, limit);
    DeclaredByPrefix(Image(f), rest);
    Widths();
    ReadsBack(|f.payload|, 4);
  }

  /** No stream is the stream of two different lists of frames. */
  lemma {:induction false} StreamsAreUniquelyDecodable(a: seq<Frame>, b: seq<Frame>, limit: FrameLimit)
    requires AllEncodable(a, limit) && AllEncodable(b, limit) && Stream(a) == Stream(b)
    ensures a == b
  {
    hide Image, Decode, Declared;
    if a != [] {
      FirstFrame(a[0], Stream(a[1..]), limit);
    }
    if b != [] {
      FirstFrame(b[0], Stream(b[1..]), limit);
    }
    if a != [] && b != [] {
      StreamsAreUniquelyDecodable(a[1..], b[1..], limit);
      assert a == [a[0]] + a[1..] && b == [b[0]] + b[1..];
    }
  }

  /** Any possible answer on a stream of frames is the first of them, or nothing yet. */
  lemma AnswersOnStream(frames: seq<Frame>, r: Result<Frame>, after: seq<Byte>, limit: FrameLimit)
    requires AllEncodable(frames, limit) && Outcome(Stream(frames), r, after, limit)
    ensures || (after == Stream(frames) && (r == Err(ConnectionClosed) || r == Ok(EMPTY_FRAME)))
            || (frames != [] && r == Ok(frames[0]) && r != Ok(EMPTY_FRAME) && after == Stream(frames[1..]))
  {
    hide Image, Decode, Declared;
    if frames != [] {
      FirstFrame(frames[0], Stream(frames[1..]), limit);
    }
  }

  /** A buffer that holds a whole stream holds its first frame completely. */
  lemma WholeStreamHasWholeFrame(frames: seq<Frame>, buffer: seq<Byte>, buffered: nat, limit: FrameLimit)
    requires frames != [] && AllEncodable(frames, limit) && buffered <= |buffer| && buffer[..buffered] == Stream(frames)
    ensures buffered >= HEADER && Declared(buffer) <= limit && buffered >= Total(buffer)
  {
    hide Image, Decode, FromLe;
    FirstFrame(frames[0], Stream(frames[1..]), limit);
    assert buffer[..buffered][20..24] == buffer[20..24];
  }

  /** Repeats Next until the connection closes. For every list of frames and every way their
      bytes arrive, timeouts included, the frames come out in order, none lost, repeated or
      merged; and once all bytes have arrived, all frames have come out. */
  method ReceiveAll(reader: Reader, ghost frames: seq<Frame>) returns (received: seq<Frame>)
    requires reader.Valid() && AllEncodable(frames, reader.limit) && reader.Pending() == Stream(frames)
    modifies reader, reader.socket
    ensures received <= frames
    ensures reader.Valid() && reader.Pending() == Stream(frames[|received|..])
    ensures reader.socket.incoming == [] ==> received == frames
  {
    hide Image, Encodable, Outcome, Declared, Stream;
    received := [];
    ghost var rest := frames;
    while true
      invariant reader.Valid() && AllEncodable(rest, reader.limit) && reader.Pending() == Stream(rest)
      invariant received + rest == frames
      decreases |reader.socket.offers|
    {
      var r := reader.Next();
      AnswersOnStream(rest, r, reader.Pending(), reader.limit);
      if r.Err? {
        break;
      }
      if r.value != EMPTY_FRAME {
        received := received + [r.value];
        rest := rest[1..];
      }
    }
    assert frames[|received|..] == rest;
    if reader.socket.incoming == [] && rest != [] {
      WholeStreamHasWholeFrame(rest, reader.buffer, reader.buffered, reader.limit);
    }
  }
}
