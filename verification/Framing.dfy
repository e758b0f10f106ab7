/**
 Stream reassembly: read_exact and receive_message over a byte stream that
 delivers arbitrary positive chunks.
 */
module Framing {
  import opened Bytes

  const PROTOCOL_VERSION: Byte := 1
  const HEADER := 6
  const MAX_MESSAGE := 10 * 1024 * 1024

  datatype Frame = Frame(msgType: Byte, payload: seq<Byte>) {
    predicate IsValid() { HEADER + |payload| <= MAX_MESSAGE }

    /** [4 length] [1 version] [1 type] [payload], the length counting every byte. */
    function Bytes(): seq<Byte>
      requires IsValid()
    {
      WriteUInt32(HEADER + |payload|) + [PROTOCOL_VERSION, msgType] + payload
    }
  }

  // ---------------------------------------------------------------------
  // What one receive means
  // ---------------------------------------------------------------------

  datatype Received = Got(frame: Frame, rest: seq<Byte>) | Refused | Incomplete

  /** receive_message as a function of the bytes still to come. */
  function Receive(incoming: seq<Byte>): Received {
    if |incoming| < HEADER then Incomplete
    else
      var length := ReadUInt32(incoming, 0);
      if incoming[4] != PROTOCOL_VERSION || length < HEADER || length > MAX_MESSAGE then Refused
      else if |incoming| < length then Incomplete
      else Got(Frame(incoming[5], incoming[HEADER..length]), incoming[length..])
  }

  lemma ReceivesFirst(f: Frame, rest: seq<Byte>)
    requires f.IsValid()
    ensures Receive(f.Bytes() + rest) == Got(f, rest)
  {
    var stream := f.Bytes() + rest;
    assert stream[0..4] == WriteUInt32(HEADER + |f.payload|);
    UInt32RoundTrip(HEADER + |f.payload|, stream, 0);
    assert stream[HEADER..HEADER + |f.payload|] == f.payload;
    assert stream[HEADER + |f.payload|..] == rest;
  }

  /** Only the bytes of a valid frame are ever taken for one. */
  lemma ReceivedFrameIsPrefix(incoming: seq<Byte>)
    requires Receive(incoming).Got?
    ensures var r := Receive(incoming); r.frame.IsValid() && incoming == r.frame.Bytes() + r.rest
  {
    var r := Receive(incoming);
    var length := ReadUInt32(incoming, 0);
    assert |r.frame.payload| + HEADER == length;
    WritesWhatItRead(incoming);
    assert incoming == incoming[..4] + incoming[4..HEADER] + incoming[HEADER..length] + incoming[length..];
    assert incoming[4..HEADER] == [PROTOCOL_VERSION, r.frame.msgType];
  }

  lemma WritesWhatItRead(data: seq<Byte>)
    requires |data| >= 4
    ensures WriteUInt32(ReadUInt32(data, 0)) == data[..4]
  {
    var b0: int, b1: int, b2: int, b3: int := data[0], data[1], data[2], data[3];
    var v := ReadUInt32(data, 0);
    assert v / 0x100 == b0 * 0x1_0000 + b1 * 0x100 + b2;
    assert v / 0x1_0000 == b0 * 0x100 + b1;
    assert v / 0x100_0000 == b0;
  }

  // ---------------------------------------------------------------------
  // The socket
  // ---------------------------------------------------------------------

  /** What the peer has sent and not yet been read; a failed read sticks. */
  class Socket {
    var incoming: seq<Byte>
    var failed: bool

    constructor (incoming: seq<Byte>)
      ensures this.incoming == incoming && !failed
    {
      this.incoming, failed := incoming, false;
    }

    /** CActiveSocket::Receive: some positive number of bytes up to `n`, or a failure. */
    method ReceiveChunk(n: nat) returns (received: int, data: seq<Byte>)
      requires n > 0
      modifies this
      ensures received > 0 ==>
        && received == |data| <= n && data == old(incoming)[..min(received, |old(incoming)|)]
        && received <= |old(incoming)|
        && incoming == old(incoming)[received..] && failed == old(failed)
      ensures received <= 0 ==> failed && incoming == old(incoming)
    {
      var most := min(n, |incoming|);
      received :| 0 <= received <= most;
      if received == 0 {
        data := [];
        failed := true;
      } else {
        data := incoming[..received];
        incoming := incoming[received..];
      }
    }

    /** read_exact: fills the first `n` bytes of `buffer`, however the bytes arrive. */
    method ReadExact(buffer: array<Byte>, n: nat) returns (ok: bool)
      requires n <= buffer.Length
      modifies this, buffer
      ensures ok ==> n <= |old(incoming)| && buffer[..n] == old(incoming)[..n] && incoming == old(incoming)[n..]
      ensures ok <==> !failed
    {
      if failed {
        return false;
      }
      var totalRead := 0;
      while totalRead < n
        invariant totalRead <= n && totalRead <= |old(incoming)| && !failed
        invariant buffer[..totalRead] == old(incoming)[..totalRead]
        invariant incoming == old(incoming)[totalRead..]
      {
        var received, data := ReceiveChunk(n - totalRead);
        if received <= 0 {
          return false;
        }
        forall i | 0 <= i < received {
          buffer[totalRead + i] := data[i];
        }
        assert buffer[..totalRead + received] == buffer[..totalRead] + data;
        totalRead := totalRead + received;
      }
      ok := true;
    }

    /** receive_message */
    method ReceiveMessage() returns (ok: bool, frame: Frame)
      modifies this
      ensures ok ==> Receive(old(incoming)) == Got(frame, incoming)
      ensures !failed ==> (ok <==> Receive(old(incoming)).Got?)
      ensures ok ==> !failed
    {
      frame := Frame(0, []);
      ghost var stream := incoming;
      var header := new Byte[HEADER];
      var read := ReadExact(header, HEADER);
      if !read {
        return false, frame;
      }
      assert header[..HEADER] == stream[..HEADER];
      HeaderFields(stream, header[..]);
      var length := ReadUInt32(header[..], 0);
      var version, msgType := header[4], header[5];
      if version != PROTOCOL_VERSION || length < HEADER || length > MAX_MESSAGE {
        return false, frame;
      }
      var payloadSize := length - HEADER;
      var payload := new Byte[payloadSize];
      if payloadSize > 0 {
        read := ReadExact(payload, payloadSize);
        if !read {
          return false, frame;
        }
        assert payload[..payloadSize] == stream[HEADER..][..payloadSize];
      }
      assert payload[..] == payload[..payloadSize];
      assert stream[HEADER..][..payloadSize] == stream[HEADER..length];
      assert stream[HEADER..][payloadSize..] == stream[length..];
      frame := Frame(msgType, payload[..]);
      ok := true;
    }
  }

  function min(a: nat, b: nat): nat { if a < b then a else b }

  lemma HeaderFields(stream: seq<Byte>, header: seq<Byte>)
    requires |header| == HEADER <= |stream| && header == stream[..HEADER]
    ensures ReadUInt32(header, 0) == ReadUInt32(stream, 0) && header[4] == stream[4] && header[5] == stream[5]
  {
  }

  // ---------------------------------------------------------------------
  // Whole streams
  // ---------------------------------------------------------------------

  predicate AllValid(frames: seq<Frame>) { forall i :: 0 <= i < |frames| ==> frames[i].IsValid() }

  function Stream(frames: seq<Frame>): seq<Byte>
    requires AllValid(frames)
  {
    if frames == [] then [] else frames[0].Bytes() + Stream(frames[1..])
  }

  lemma FirstOfStream(frames: seq<Frame>, rest: seq<Byte>)
    requires AllValid(frames) && frames != []
    ensures Stream(frames) + rest == frames[0].Bytes() + (Stream(frames[1..]) + rest)
  {
    assert frames[0].Bytes() + Stream(frames[1..]) + rest == frames[0].Bytes() + (Stream(frames[1..]) + rest);
  }

  /**
   Frames sent back to back are received exactly, whatever the chunks; and if
   every read succeeds, exactly their bytes are consumed.
   */
  method ReceiveAll(socket: Socket, ghost frames: seq<Frame>, ghost rest: seq<Byte>, count: nat)
    returns (got: seq<Frame>)
    requires AllValid(frames) && count == |frames|
    requires !socket.failed && socket.incoming == Stream(frames) + rest
    modifies socket
    ensures got <= frames
    ensures !socket.failed ==> got == frames && socket.incoming == rest
  {
    got := [];
    while |got| < count
      invariant |got| <= count && got == frames[..|got|]
      invariant !socket.failed && socket.incoming == Stream(frames[|got|..]) + rest
    {
      ghost var later := frames[|got|..];
      FirstOfStream(later, rest);
      ReceivesFirst(later[0], Stream(later[1..]) + rest);
      var ok, frame := socket.ReceiveMessage();
      if !ok {
        return;
      }
      got := got + [frame];
      assert later[1..] == frames[|got|..];
    }
    assert Stream(frames[|got|..]) + rest == rest;
  }
}
