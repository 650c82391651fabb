/** A codec that sends each message behind its length, as four bytes in network order, and puts messages back together
  however TCP has cut the stream. */
module LengthHeaderCodec {
  import opened Buffer
  import opened Seqs

  type Message = seq<Byte>

  const HEADER_LEN := 4
  const MAX_LEN := 65536

  function Encode(m: Message): seq<Byte> { Bytes32(|m|) + m }

  function EncodeAll(ms: seq<Message>): seq<Byte> {
    if ms == [] then [] else Encode(ms[0]) + EncodeAll(ms[1..])
  }

  // What onMessage makes of a stream: the messages in it, the bytes it leaves, and whether it asked for a shutdown.
  datatype Decoded = Decoded(messages: seq<Message>, rest: seq<Byte>, invalid: bool)

  // What stands at the head of a stream.
  datatype Front = Incomplete | Invalid | Whole(len: nat)

  function FrontOf(q: seq<Byte>): (f: Front)
    ensures f.Whole? ==> f.len <= MAX_LEN && |q| >= HEADER_LEN + f.len
  {
    if |q| < HEADER_LEN then Incomplete
    else
      var len := Int32At(q);
      if len > MAX_LEN || len < 0 then Invalid
      else if |q| >= len + HEADER_LEN then Whole(len)
      else Incomplete
  }

  function Decode(q: seq<Byte>): Decoded
    decreases |q|
  {
    match FrontOf(q)
    case Incomplete => Decoded([], q, false)
    case Invalid => Decoded([], q, true)
    case Whole(len) =>
      var d := Decode(q[HEADER_LEN + len..]);
      d.(messages := [q[HEADER_LEN..HEADER_LEN + len]] + d.messages)
  }

  // Each chunk is appended to what the previous call left.
  function Feed(rest: seq<Byte>, chunks: seq<seq<Byte>>): Decoded
    decreases |chunks|
  {
    if chunks == [] then Decoded([], rest, false)
    else
      var d := Decode(rest + chunks[0]);
      var e := Feed(d.rest, chunks[1..]);
      Decoded(d.messages + e.messages, e.rest, d.invalid || e.invalid)
  }

  // More bytes do not change what is already decided.
  lemma FrontStays(q: seq<Byte>, more: seq<Byte>)
    requires !FrontOf(q).Incomplete?
    ensures FrontOf(q + more) == FrontOf(q)
  {
    assert Int32At(q + more) == Int32At(q);
    hide Int32At;
  }

  // Decoding more of the stream continues where decoding less of it stopped.
  lemma {:induction false} DecodeMore(q: seq<Byte>, more: seq<Byte>)
    ensures var d := Decode(q); var e := Decode(d.rest + more); var f := Decode(q + more);
            f.messages == d.messages + e.messages && f.rest == e.rest && f.invalid == e.invalid
    decreases |q|
  {
    hide FrontOf;
    if FrontOf(q).Whole? {
      var len := FrontOf(q).len;
      FrontStays(q, more);
      var m, tail := q[HEADER_LEN..HEADER_LEN + len], q[HEADER_LEN + len..];
      DecodeMore(tail, more);
      assert (q + more)[HEADER_LEN + len..] == tail + more && (q + more)[HEADER_LEN..HEADER_LEN + len] == m;
      assert Decode(q).rest == Decode(tail).rest && Decode(q).messages == [m] + Decode(tail).messages;
      var e := Decode(Decode(tail).rest + more);
      Assoc([m], Decode(tail).messages, e.messages);
    }
  }

  // Every way of cutting a stream delivers the same messages, leaves the same bytes and finds the same fault.
  lemma {:induction false} CuttingDoesNotMatter(rest: seq<Byte>, chunks: seq<seq<Byte>>)
    requires Decode(rest) == Decoded([], rest, false)
    ensures Feed(rest, chunks) == Decode(rest + Concat(chunks))
    decreases |chunks|
  {
    if chunks == [] {
      assert rest + Concat(chunks) == rest;
    } else {
      var q, more := rest + chunks[0], Concat(chunks[1..]);
      assert rest + Concat(chunks) == q + more;
      DecodeMore(q, more);
      RestIsStuck(q);
      var d := Decode(q);
      hide Decode;
      if d.invalid {
        StaysInvalid(d.rest, chunks[1..]);
        BadFront(d.rest, more);
      } else {
        CuttingDoesNotMatter(d.rest, chunks[1..]);
      }
    }
  }

  lemma {:induction false} RestIsStuck(q: seq<Byte>)
    ensures var d := Decode(q); Decode(d.rest) == Decoded([], d.rest, d.invalid)
    decreases |q|
  {
    hide FrontOf;
    if FrontOf(q).Whole? {
      RestIsStuck(q[HEADER_LEN + FrontOf(q).len..]);
    }
  }

  lemma BadFront(rest: seq<Byte>, more: seq<Byte>)
    requires Decode(rest) == Decoded([], rest, true)
    ensures Decode(rest + more) == Decoded([], rest + more, true)
  {
    hide FrontOf;
    assert FrontOf(rest) == Invalid;
    FrontStays(rest, more);
  }

  // After a bad length nothing more is delivered.
  lemma {:induction false} StaysInvalid(rest: seq<Byte>, chunks: seq<seq<Byte>>)
    requires Decode(rest) == Decoded([], rest, true)
    ensures Feed(rest, chunks).messages == [] && Feed(rest, chunks).rest == rest + Concat(chunks)
    decreases |chunks|
  {
    if chunks == [] {
      assert rest + Concat(chunks) == rest;
    } else {
      BadFront(rest, chunks[0]);
      StaysInvalid(rest + chunks[0], chunks[1..]);
      assert rest + Concat(chunks) == (rest + chunks[0]) + Concat(chunks[1..]);
    }
  }

  // What the header says: the cast to int32_t keeps the low 32 bits of the length.
  function Announced(m: Message): int { Signed(Word(|m|), 32) }

  lemma HeaderSays(m: Message, more: seq<Byte>)
    ensures Int32At(Encode(m) + more) == Announced(m) && Bytes32(|m|) == Bytes32(Announced(m)) && |Bytes32(|m|)| == 4
    ensures -0x8000_0000 <= Announced(m) < 0x8000_0000 && (|m| < 0x8000_0000 ==> Announced(m) == |m|)
  {
    SameWord(|m|);
    assert Encode(m) + more == Bytes32(|m|) + (m + more);
    hide Bytes32, Int32At, Signed, Word;
    Int32RoundTrip(Announced(m), m + more);
  }

  lemma SameWord(n: nat)
    ensures var x := Signed(Word(n), 32);
            Word(x) == Word(n) && -0x8000_0000 <= x < 0x8000_0000 && (n < 0x8000_0000 ==> x == n) && (n > x <==> n >= 0x8000_0000)
  {
  }

  lemma EncodedFront(m: Message, more: seq<Byte>)
    requires |m| <= MAX_LEN
    ensures var q := Encode(m) + more;
            FrontOf(q) == Whole(|m|) && q[HEADER_LEN..HEADER_LEN + |m|] == m && q[HEADER_LEN + |m|..] == more
  {
    HeaderSays(m, more);
    hide Bytes32, Int32At;
  }

  lemma {:induction false} DecodeEncoded(ms: seq<Message>)
    requires forall i :: 0 <= i < |ms| ==> |ms[i]| <= MAX_LEN
    ensures Decode(EncodeAll(ms)) == Decoded(ms, [], false)
  {
    if ms != [] {
      DecodeEncoded(ms[1..]);
      EncodedFront(ms[0], EncodeAll(ms[1..]));
      hide FrontOf, Encode;
      assert ms == [ms[0]] + ms[1..];
    }
  }

  // Any list of messages, each of at most 65536 bytes, arrives as it was sent, however the stream is cut.
  lemma MessagesArrive(ms: seq<Message>, chunks: seq<seq<Byte>>)
    requires forall i :: 0 <= i < |ms| ==> |ms[i]| <= 65536
    requires Concat(chunks) == EncodeAll(ms)
    ensures Feed([], chunks) == Decoded(ms, [], false)
  {
    DecodeEncoded(ms);
    assert [] + Concat(chunks) == Concat(chunks);
    CuttingDoesNotMatter([], chunks);
  }

  // A list of messages, sent one after the other, arrives as it was sent if and only if each has at most 65536 bytes.
  lemma ArrivesExactly(ms: seq<Message>)
    ensures Decode(EncodeAll(ms)) == Decoded(ms, [], false) <==> forall i :: 0 <= i < |ms| ==> |ms[i]| <= 65536
  {
    if forall i :: 0 <= i < |ms| ==> |ms[i]| <= MAX_LEN {
      DecodeEncoded(ms);
    } else {
      DecodedAreShort(EncodeAll(ms));
      hide Decode, EncodeAll;
    }
  }

  lemma {:induction false} DecodedAreShort(q: seq<Byte>)
    ensures forall i :: 0 <= i < |Decode(q).messages| ==> |Decode(q).messages[i]| <= MAX_LEN
    decreases |q|
  {
    hide FrontOf;
    if FrontOf(q).Whole? {
      DecodedAreShort(q[HEADER_LEN + FrontOf(q).len..]);
    }
  }

  // A longer one is refused at the other end, whatever follows, if and only if its length as an int32 does not wrap
  // around to a valid one; below 2^31 bytes it never does.
  lemma TooLongIsRefused(m: Message, more: seq<Byte>)
    requires |m| > 65536
    ensures Decode(Encode(m) + more) == Decoded([], Encode(m) + more, true) <==> !(0 <= Announced(m) <= 65536)
    ensures |m| < 0x8000_0000 ==> !(0 <= Announced(m) <= 65536)
  {
    HeaderSays(m, more);
    hide Int32At, Bytes32, Announced;
  }

  // On the wire: "hello" behind its length.
  lemma HelloOnTheWire()
    ensures Encode([104, 101, 108, 108, 111]) == [0, 0, 0, 5, 104, 101, 108, 108, 111]
    ensures Decode([0, 0, 0, 5, 104, 101, 108, 108, 111]) == Decoded([[104, 101, 108, 108, 111]], [], false)
  {
    var ms: seq<Message> := [[104, 101, 108, 108, 111]];
    DecodeEncoded(ms);
    hide Decode;
    assert ms[1..] == [] && EncodeAll(ms) == Encode(ms[0]) + [];
    assert Encode(ms[0]) + [] == [0, 0, 0, 5, 104, 101, 108, 108, 111];
  }

  // The shortest message that is refused.
  lemma OneByteTooLong()
    ensures var m: Message := seq(65537, i => 0); Decode(Encode(m)) == Decoded([], Encode(m), true)
  {
    var m: Message := seq(65537, i => 0);
    TooLongIsRefused(m, []);
    hide Decode;
    assert Encode(m) + [] == Encode(m);
  }

  // ---------------------------------------------------------------- on buffers

  // onMessage: delivers what the buffer holds and leaves the rest in it.
  method OnMessage(buf: Buffer) returns (delivered: seq<Message>, shutdown: bool)
    requires buf.Valid()
    modifies buf`readerIndex, buf`writerIndex
    ensures buf.Valid()
    ensures Decoded(delivered, buf.Contents(), shutdown) == Decode(old(buf.Contents()))
  {
    hide Continues, Int32At;
    delivered, shutdown := [], false;
    ContinuesStart(buf.Contents());
    ghost var q := buf.Contents();
    var more := true;
    while more && buf.ReadableBytes() >= HEADER_LEN
      invariant buf.Valid() && Continues(q, delivered, buf.Contents())
      invariant !more ==> FrontOf(buf.Contents()) == if shutdown then Invalid else Incomplete
      invariant more ==> !shutdown
      decreases more, buf.ReadableBytes()
    {
      var len := buf.PeekInt32();
      if len > MAX_LEN || len < 0 {
        shutdown := true;
        more := false;
      } else if buf.ReadableBytes() >= len + HEADER_LEN {
        ContinuesNext(q, delivered, buf.Contents(), len);
        var message := TakeMessage(buf, len);
        delivered := delivered + [message];
      } else {
        more := false;
      }
    }
    ContinuesEnd(q, delivered, buf.Contents());
  }

  method TakeMessage(buf: Buffer, len: nat) returns (message: Message)
    requires buf.Valid() && HEADER_LEN + len <= buf.ReadableBytes()
    modifies buf`readerIndex, buf`writerIndex
    ensures buf.Valid() && message == old(buf.Contents())[HEADER_LEN..HEADER_LEN + len]
    ensures buf.Contents() == old(buf.Contents())[HEADER_LEN + len..]
  {
    buf.Retrieve(HEADER_LEN);
    message := buf.Peek(len);
    buf.Retrieve(len);
  }

  lemma ContinuesStart(q: seq<Byte>)
    ensures Continues(q, [], q)
  {
    assert [] + Decode(q).messages == Decode(q).messages;
  }

  // `delivered` so far, with `left` still to be decoded.
  ghost predicate Continues(q: seq<Byte>, delivered: seq<Message>, left: seq<Byte>) {
    var d := Decode(left);
    Decode(q) == Decoded(delivered + d.messages, d.rest, d.invalid)
  }

  lemma ContinuesNext(q: seq<Byte>, delivered: seq<Message>, left: seq<Byte>, len: nat)
    requires Continues(q, delivered, left) && FrontOf(left) == Whole(len)
    ensures Continues(q, delivered + [left[HEADER_LEN..HEADER_LEN + len]], left[HEADER_LEN + len..])
  {
    hide FrontOf;
    Assoc(delivered, [left[HEADER_LEN..HEADER_LEN + len]], Decode(left[HEADER_LEN + len..]).messages);
  }

  lemma ContinuesEnd(q: seq<Byte>, delivered: seq<Message>, left: seq<Byte>)
    requires Continues(q, delivered, left) && !FrontOf(left).Whole?
    ensures Decode(q) == Decoded(delivered, left, FrontOf(left).Invalid?)
  {
    hide FrontOf;
    assert delivered + [] == delivered;
  }

  // send: the message, with its length as an int32 prepended into the cheap room.
  method Send(message: Message) returns (buf: Buffer)
    ensures fresh(buf) && buf.Valid() && buf.Contents() == Encode(message)
  {
    buf := new Buffer();
    buf.Append(message);
    HeaderSays(message, []);
    buf.PrependInt32(Signed(Word(|message|), 32));
  }
}
