/** The frames of the multiplexer: many byte streams over one connection, each piece of at most 255 bytes behind its
  length and a 16-bit connection id. */
module Frames {
  import opened Buffer
  import opened Seqs

  type Bytes = seq<Byte>

  const HEADER_LEN := 3
  const MAX_PACKET_LEN := 255

  datatype Frame = Frame(id: int, payload: Bytes)

  predicate Id16(id: int) { 0 <= id < 0x1_0000 }

  predicate Sendable(f: Frame) { Id16(f.id) && |f.payload| <= MAX_PACKET_LEN }

  predicate AllSendable(fs: seq<Frame>) { forall i :: 0 <= i < |fs| ==> Sendable(fs[i]) }

  // ---------------------------------------------------------------- sending

  // sendBackendPacket and sendServerPacket: the length, the low and the high byte of the id, then the bytes.
  function Encode(f: Frame): Bytes
    requires Sendable(f)
  {
    [|f.payload|, f.id % 256, f.id / 256] + f.payload
  }

  function EncodeAll(fs: seq<Frame>): Bytes
    requires AllSendable(fs)
  {
    if fs == [] then [] else Encode(fs[0]) + EncodeAll(fs[1..])
  }

  // sendBackendBuffer and onSocksMessage: full frames, then what is left, if anything.
  function Split(id: int, q: Bytes): (fs: seq<Frame>)
    requires Id16(id)
    ensures AllSendable(fs) && forall i :: 0 <= i < |fs| ==> fs[i].id == id && fs[i].payload != []
  {
    if q == [] then []
    else if |q| <= MAX_PACKET_LEN then [Frame(id, q)]
    else [Frame(id, q[..MAX_PACKET_LEN])] + Split(id, q[MAX_PACKET_LEN..])
  }

  // What the frames carry for one connection.
  function Payload(fs: seq<Frame>, id: int): Bytes {
    if fs == [] then [] else (if fs[0].id == id then fs[0].payload else []) + Payload(fs[1..], id)
  }

  lemma {:induction false} PayloadAppend(fs: seq<Frame>, gs: seq<Frame>, id: int)
    ensures Payload(fs + gs, id) == Payload(fs, id) + Payload(gs, id)
  {
    if fs == [] {
      assert fs + gs == gs;
    } else {
      PayloadAppend(fs[1..], gs, id);
      assert (fs + gs)[1..] == fs[1..] + gs && (fs + gs)[0] == fs[0];
      Assoc(if fs[0].id == id then fs[0].payload else [], Payload(fs[1..], id), Payload(gs, id));
    }
  }

  // Cutting a piece into frames keeps its bytes, under its id.
  lemma {:induction false} SplitCarries(id: int, q: Bytes, k: int)
    requires Id16(id)
    ensures Payload(Split(id, q), k) == if k == id then q else []
    decreases |q|
  {
    if |q| > MAX_PACKET_LEN {
      SplitCarries(id, q[MAX_PACKET_LEN..], k);
      var f := Frame(id, q[..MAX_PACKET_LEN]);
      assert ([f] + Split(id, q[MAX_PACKET_LEN..]))[1..] == Split(id, q[MAX_PACKET_LEN..]);
      assert q == q[..MAX_PACKET_LEN] + q[MAX_PACKET_LEN..];
    } else if q != [] {
      assert [Frame(id, q)][1..] == [] && q + [] == q;
    }
  }

  // Every frame but the last is full, and the last is not empty.
  lemma {:induction false} SplitIsFull(id: int, q: Bytes)
    requires Id16(id)
    ensures var fs := Split(id, q);
            && (forall i :: 0 <= i < |fs| - 1 ==> |fs[i].payload| == 255)
            && (q != [] ==> fs != [] && 0 < |Last(fs).payload| <= 255)
            && (q == [] ==> fs == [])
    decreases |q|
  {
    if |q| > MAX_PACKET_LEN {
      SplitIsFull(id, q[MAX_PACKET_LEN..]);
    }
  }

  // On the wire: two bytes for connection 258, and a command.
  lemma FrameOnTheWire()
    ensures Encode(Frame(258, [7, 8])) == [2, 2, 1, 7, 8] && Encode(Frame(0, [65])) == [1, 0, 0, 65]
    ensures Decode([2, 2, 1, 7, 8]) == Decoded([Frame(258, [7, 8])], [])
  {
    assert Encode(Frame(258, [7, 8])) + [] == [2, 2, 1, 7, 8];
    NothingDecodes();
    FirstDecoded(Frame(258, [7, 8]), []);
    hide Decode;
  }

  lemma {:induction false} EncodeAppend(fs: seq<Frame>, gs: seq<Frame>)
    requires AllSendable(fs) && AllSendable(gs)
    ensures AllSendable(fs + gs) && EncodeAll(fs + gs) == EncodeAll(fs) + EncodeAll(gs)
    decreases |fs|
  {
    hide Encode, Sendable;
    if fs == [] {
      assert fs + gs == gs;
    } else {
      assert (fs + gs)[0] == fs[0] && (fs + gs)[1..] == fs[1..] + gs;
      EncodeAppend(fs[1..], gs);
      Assoc(Encode(fs[0]), EncodeAll(fs[1..]), EncodeAll(gs));
    }
  }

  // ---------------------------------------------------------------- receiving

  // The length of the frame at the head, if it is whole; a header alone is never enough.
  function WholeFrame(q: Bytes): (n: int)
    ensures n >= 0 ==> n <= MAX_PACKET_LEN && |q| >= HEADER_LEN + n
  {
    if |q| > HEADER_LEN && |q| >= q[0] as int + HEADER_LEN then q[0] else -1
  }

  function HeadFrame(q: Bytes): Frame
    requires WholeFrame(q) >= 0
  {
    Frame(q[1] as int + q[2] as int * 256, q[HEADER_LEN..HEADER_LEN + WholeFrame(q)])
  }

  datatype Decoded = Decoded(frames: seq<Frame>, rest: Bytes)

  function Decode(q: Bytes): Decoded
    decreases |q|
  {
    if WholeFrame(q) < 0 then Decoded([], q)
    else
      var d := Decode(q[HEADER_LEN + WholeFrame(q)..]);
      d.(frames := [HeadFrame(q)] + d.frames)
  }

  lemma WholeStays(q: Bytes, more: Bytes)
    requires WholeFrame(q) >= 0
    ensures WholeFrame(q + more) == WholeFrame(q) && HeadFrame(q + more) == HeadFrame(q)
    ensures (q + more)[HEADER_LEN + WholeFrame(q)..] == q[HEADER_LEN + WholeFrame(q)..] + more
  {
    assert (q + more)[HEADER_LEN..HEADER_LEN + WholeFrame(q)] == q[HEADER_LEN..HEADER_LEN + WholeFrame(q)];
  }

  // Decoding more of the stream continues where decoding less of it stopped.
  lemma {:induction false} DecodeMore(q: Bytes, more: Bytes)
    ensures var d := Decode(q); var e := Decode(d.rest + more);
            Decode(q + more) == Decoded(d.frames + e.frames, e.rest)
    decreases |q|
  {
    hide WholeFrame, HeadFrame;
    if WholeFrame(q) >= 0 {
      WholeStays(q, more);
      var tail := q[HEADER_LEN + WholeFrame(q)..];
      DecodeMore(tail, more);
      Assoc([HeadFrame(q)], Decode(tail).frames, Decode(Decode(tail).rest + more).frames);
    } else {
      assert [] + Decode(q + more).frames == Decode(q + more).frames;
    }
  }

  lemma {:induction false} RestHoldsNoFrame(q: Bytes)
    ensures Decode(Decode(q).rest).frames == []
    decreases |q|
  {
    hide WholeFrame, HeadFrame;
    if WholeFrame(q) >= 0 {
      RestHoldsNoFrame(q[HEADER_LEN + WholeFrame(q)..]);
    }
  }

  // A frame is taken as soon as anything, a payload or a later byte, follows its header.
  lemma EncodedHead(f: Frame, more: Bytes)
    requires Sendable(f) && (f.payload != [] || more != [])
    ensures var q := Encode(f) + more;
            WholeFrame(q) == |f.payload| && HeadFrame(q) == f && q[HEADER_LEN + |f.payload|..] == more
  {
    var q := Encode(f) + more;
    assert q[HEADER_LEN..HEADER_LEN + |f.payload|] == f.payload;
  }

  // A stream of frames is decoded completely if and only if it does not end in an empty frame; such a frame, and only
  // it, stays in the buffer until more arrives.
  lemma {:induction false} DecodeEncoded(fs: seq<Frame>)
    requires AllSendable(fs)
    ensures var d := Decode(EncodeAll(fs));
            && (d.rest == [] <==> fs == [] || Last(fs).payload != [])
            && d == if fs == [] || Last(fs).payload != [] then Decoded(fs, []) else Decoded(Before(fs), Encode(Last(fs)))
    decreases |fs|
  {
    hide Decode, Encode, WholeFrame, HeadFrame;
    if fs == [] {
      NothingDecodes();
    } else if fs[1..] == [] && fs[0].payload == [] {
      assert fs == [fs[0]];
      assert Encode(fs[0]) + [] == Encode(fs[0]);
      LoneEmptyFrame(fs[0]);
    } else {
      assert fs == [fs[0]] + fs[1..];
      if fs[1..] != [] {
        NotEmpty(fs[1..]);
        assert Before(fs) == [fs[0]] + Before(fs[1..]);
        assert Last(fs) == Last(fs[1..]);
      }
      FirstDecoded(fs[0], EncodeAll(fs[1..]));
      DecodeEncoded(fs[1..]);
    }
  }

  lemma NothingDecodes()
    ensures Decode([]) == Decoded([], [])
  {
  }

  lemma NotEmpty(fs: seq<Frame>)
    requires fs != [] && AllSendable(fs)
    ensures EncodeAll(fs) != []
  {
  }

  lemma LoneEmptyFrame(f: Frame)
    requires Sendable(f) && f.payload == []
    ensures Decode(Encode(f)) == Decoded([], Encode(f)) && Encode(f) != []
  {
  }

  lemma FirstDecoded(f: Frame, more: Bytes)
    requires Sendable(f) && (f.payload != [] || more != [])
    ensures Decode(Encode(f) + more) == Decoded([f] + Decode(more).frames, Decode(more).rest)
  {
    EncodedHead(f, more);
    hide Encode, WholeFrame, HeadFrame;
  }

  // ---------------------------------------------------------------- on buffers

  // sendBackendBuffer and onSocksMessage: `wire` is what has been sent on the shared connection.
  method SendBuffer(id: int, buf: Buffer, wire: Bytes) returns (wire': Bytes)
    requires buf.Valid() && Id16(id)
    modifies buf`readerIndex, buf`writerIndex
    ensures buf.Valid() && buf.Contents() == [] && wire' == wire + EncodeAll(Split(id, old(buf.Contents())))
  {
    wire' := wire;
    ghost var q := buf.Contents();
    hide Encode, EncodeAll, Split;
    while buf.ReadableBytes() > MAX_PACKET_LEN
      invariant buf.Valid() && wire' + EncodeAll(Split(id, buf.Contents())) == wire + EncodeAll(Split(id, q))
      decreases buf.ReadableBytes()
    {
      ghost var c := buf.Contents();
      var packet := buf.RetrieveAsString(MAX_PACKET_LEN);
      var frame := SendPacket(id, packet);
      FirstSplit(id, c);
      Assoc(wire', frame, EncodeAll(Split(id, c[MAX_PACKET_LEN..])));
      wire' := wire' + frame;
    }
    LastSplit(id, buf.Contents());
    if buf.ReadableBytes() > 0 {
      ghost var c := buf.Contents();
      var packet := buf.RetrieveAsString(buf.ReadableBytes());
      assert packet == c;
      var frame := SendPacket(id, packet);
      wire' := wire' + frame;
    }
  }

  lemma FirstSplit(id: int, q: Bytes)
    requires Id16(id) && |q| > MAX_PACKET_LEN
    ensures EncodeAll(Split(id, q)) == Encode(Frame(id, q[..MAX_PACKET_LEN])) + EncodeAll(Split(id, q[MAX_PACKET_LEN..]))
  {
    hide Encode;
    assert Split(id, q)[1..] == Split(id, q[MAX_PACKET_LEN..]);
  }

  lemma LastSplit(id: int, q: Bytes)
    requires Id16(id) && |q| <= MAX_PACKET_LEN
    ensures EncodeAll(Split(id, q)) == if q == [] then [] else Encode(Frame(id, q))
  {
    hide Encode;
    if q != [] {
      assert [Frame(id, q)][1..] == [];
    }
  }

  // sendBackendPacket and sendServerPacket, through a packet buffer of their own.
  method SendPacket(id: int, payload: Bytes) returns (frame: Bytes)
    requires Id16(id) && |payload| <= MAX_PACKET_LEN
    ensures frame == Encode(Frame(id, payload))
  {
    var packet := new Buffer();
    packet.Append(payload);
    packet.Prepend([|payload|, id % 256, id / 256 % 256]);
    assert id / 256 % 256 == id / 256;
    frame := packet.Peek(packet.ReadableBytes());
  }

  method PeekFrame(buf: Buffer, len: nat) returns (f: Frame)
    requires buf.Valid() && WholeFrame(buf.Contents()) == len
    ensures f == HeadFrame(buf.Contents())
  {
    var packet := buf.Peek(HEADER_LEN + len);
    assert packet[HEADER_LEN..] == buf.Contents()[HEADER_LEN..HEADER_LEN + len];
    f := Frame(packet[1] as int + packet[2] as int * 256, packet[HEADER_LEN..]);
  }
}
