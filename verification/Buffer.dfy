/** The byte queue between a socket and a callback: one vector, a read index and a write index, with room in front for
  prepending and compaction instead of growth where that is enough. */
module Buffer {

  type Byte = x: int | 0 <= x < 256

  const CHEAP_PREPEND := 8
  const INITIAL_SIZE := 1024

  // ---------------------------------------------------------------- integers in network order

  function Word(x: int): int { x % 0x1_0000_0000 }

  function Bytes32(x: int): seq<Byte> {
    [Word(x) / 0x100_0000, Word(x) / 0x1_0000 % 256, Word(x) / 256 % 256, Word(x) % 256]
  }

  function Signed(w: int, bits: int): int
    requires bits in {8, 16, 32}
  {
    if bits == 8 then (if w < 0x80 then w else w - 0x100)
    else if bits == 16 then (if w < 0x8000 then w else w - 0x1_0000)
    else (if w < 0x8000_0000 then w else w - 0x1_0000_0000)
  }

  function Int32At(q: seq<Byte>): int
    requires |q| >= 4
  {
    Signed(q[0] as int * 0x100_0000 + q[1] as int * 0x1_0000 + q[2] as int * 256 + q[3] as int, 32)
  }

  function Int16At(q: seq<Byte>): int
    requires |q| >= 2
  {
    Signed(q[0] as int * 256 + q[1] as int, 16)
  }

  function Int8At(q: seq<Byte>): int
    requires |q| >= 1
  {
    Signed(q[0], 8)
  }

  // Whatever is appended in network order reads back, over the whole range of int32_t.
  lemma Int32RoundTrip(x: int, rest: seq<Byte>)
    requires -0x8000_0000 <= x < 0x8000_0000
    ensures Int32At(Bytes32(x) + rest) == x && |Bytes32(x)| == 4
  {
    var w := Word(x);
    assert w == w / 0x100_0000 * 0x100_0000 + w / 0x1_0000 % 256 * 0x1_0000 + w / 256 % 256 * 256 + w % 256 by { WordDigits(w); }
    assert w == if x >= 0 then x else x + 0x1_0000_0000;
    hide Word;
  }

  // Network order, and the sign bit of each width.
  lemma NetworkOrder()
    ensures Bytes32(1) == [0, 0, 0, 1] && Bytes32(-2) == [255, 255, 255, 254] && Bytes32(0x0102_0304) == [1, 2, 3, 4]
    ensures forall rest: seq<Byte> :: Int32At([255, 255, 255, 254] + rest) == -2 && Int32At([1, 2, 3, 4] + rest) == 0x0102_0304
    ensures forall rest: seq<Byte> :: Int16At([255, 254] + rest) == -2 && Int16At([1, 2] + rest) == 258 && Int16At([127, 255] + rest) == 32767
    ensures forall rest: seq<Byte> :: Int8At([128] + rest) == -128 && Int8At([255] + rest) == -1 && Int8At([127] + rest) == 127
  {
  }

  // Over their whole ranges: a big-endian two's complement number.
  lemma TwosComplement(q: seq<Byte>)
    ensures |q| >= 2 ==> -32768 <= Int16At(q) < 32768 && (Int16At(q) - 256 * q[0] as int - q[1] as int) % 65536 == 0
    ensures |q| >= 1 ==> -128 <= Int8At(q) < 128 && (Int8At(q) - q[0] as int) % 256 == 0
  {
  }

  lemma WordDigits(w: int)
    requires 0 <= w < 0x1_0000_0000
    ensures w == w / 0x100_0000 * 0x100_0000 + w / 0x1_0000 % 256 * 0x1_0000 + w / 256 % 256 * 256 + w % 256
  {
    var a, b := w / 256, w / 0x1_0000;
    assert b == a / 256;
    assert w / 0x100_0000 == b / 256;
  }

  // ---------------------------------------------------------------- sizes

  // The three numbers that decide where bytes go: vector size, read index, write index.
  datatype Shape = Shape(size: nat, reader: nat, writer: nat)

  predicate Ordered(b: Shape) { b.reader <= b.writer <= b.size }

  function Writable(b: Shape): int { b.size - b.writer }

  function Content(b: Shape): int { b.writer - b.reader }

  // ensureWritableBytes: enough room, room by compaction, or growth.
  function Ensured(b: Shape, len: nat): Shape
    requires Ordered(b)
  {
    if Writable(b) >= len then b
    else if Writable(b) + b.reader < len + CHEAP_PREPEND then b.(size := b.writer + len)
    else Shape(b.size, CHEAP_PREPEND, CHEAP_PREPEND + Content(b))
  }

  // What the compaction branch asserts, and that both branches make room without touching the content's length.
  lemma EnsuredRoom(b: Shape, len: nat)
    requires Ordered(b)
    ensures Writable(b) < len && Writable(b) + b.reader >= len + CHEAP_PREPEND ==> CHEAP_PREPEND < b.reader
    ensures var e := Ensured(b, len); Ordered(e) && Writable(e) >= len && Content(e) == Content(b) && e.size >= b.size
  {
  }

  // Nothing moves while there is room; the vector grows, to just what is needed, only where compaction cannot make it.
  lemma EnsuredLazily(b: Shape, len: nat)
    requires Ordered(b)
    ensures var e := Ensured(b, len);
            && (len <= b.size - b.writer ==> e == b)
            && (e.size > b.size <==> len > b.size - b.writer && 8 + Content(b) + len > b.size)
            && (e.size > b.size ==> e.reader == b.reader && e.writer == b.writer && e.size == b.writer + len)
            && (e != b && e.size == b.size ==> e.reader == 8)
  {
  }

  function Bound(m: nat): nat { if 2 * m + 8 < 1032 then 1032 else 2 * m + 8 }

  // Growth is bounded by the content: while content plus room never exceeds m, the vector stays within the bound.
  lemma EnsuredBound(b: Shape, len: nat, m: nat)
    requires Ordered(b) && b.size <= Bound(m) && Content(b) + len <= m
    ensures Ensured(b, len).size <= Bound(m)
  {
  }

  datatype Op = Reserve(len: nat) // ensureWritableBytes alone
    | Grow(len: nat)             // append, or the part of readFd that spills over
    | Fill(len: nat)             // the part of readFd that fits
    | Take(len: nat)             // retrieve
    | Push(len: nat)             // prepend
    | Shrink(reserve: nat)

  predicate CanDo(b: Shape, op: Op, m: nat) {
    match op
    case Reserve(len) => Content(b) + len <= m
    case Grow(len) => Content(b) + len <= m
    case Fill(len) => len <= Writable(b)
    case Take(len) => len <= Content(b)
    case Push(len) => len <= b.reader
    case Shrink(reserve) => Content(b) + reserve <= m
  }

  function Do(b: Shape, op: Op): Shape
    requires Ordered(b)
  {
    match op
    case Reserve(len) => Ensured(b, len)
    case Grow(len) => var e := Ensured(b, len); e.(writer := e.writer + len)
    case Fill(len) => if len <= Writable(b) then b.(writer := b.writer + len) else b
    case Take(len) => if len < Content(b) then b.(reader := b.reader + len) else Shape(b.size, CHEAP_PREPEND, CHEAP_PREPEND)
    case Push(len) => if len <= b.reader then b.(reader := b.reader - len) else b
    case Shrink(reserve) =>
      var e := Ensured(Shape(CHEAP_PREPEND + INITIAL_SIZE, CHEAP_PREPEND, CHEAP_PREPEND), Content(b) + reserve);
      e.(writer := e.writer + Content(b))
  }

  ghost predicate Sizes(b: Shape, ops: seq<Op>, m: nat)
    requires Ordered(b)
    decreases |ops|
  {
    ops == [] || (CanDo(b, ops[0], m) && Ordered(Do(b, ops[0])) && Sizes(Do(b, ops[0]), ops[1..], m))
  }

  ghost function After(b: Shape, ops: seq<Op>): Shape
    requires Ordered(b)
    decreases |ops|
  {
    if ops == [] then b else if Ordered(Do(b, ops[0])) then After(Do(b, ops[0]), ops[1..]) else b
  }

  lemma OpBound(b: Shape, op: Op, m: nat)
    requires Ordered(b) && b.size <= Bound(m) && b.size >= CHEAP_PREPEND && CanDo(b, op, m)
    ensures Ordered(Do(b, op)) && Do(b, op).size <= Bound(m) && Do(b, op).size >= CHEAP_PREPEND
  {
    match op
    case Reserve(len) => EnsuredBound(b, len, m);
    case Grow(len) => EnsuredBound(b, len, m);
    case _ =>
  }

  // Over every sequence of operations.
  lemma {:induction false} StorageBound(b: Shape, ops: seq<Op>, m: nat)
    requires Ordered(b) && b.size <= Bound(m) && b.size >= CHEAP_PREPEND && Sizes(b, ops, m)
    ensures Ordered(After(b, ops)) && After(b, ops).size <= Bound(m)
    decreases |ops|
  {
    if ops != [] {
      OpBound(b, ops[0], m);
      StorageBound(Do(b, ops[0]), ops[1..], m);
    }
  }

  // ---------------------------------------------------------------- the class

  // What readv may answer.
  datatype ReadResult = Read(input: seq<Byte>) | Failed(errno: int)

  predicate CRLFAt(q: seq<Byte>, i: int) { 0 <= i < |q| - 1 && q[i] == 13 && q[i + 1] == 10 }

  class Buffer {
    var data: array<Byte>
    var readerIndex: nat
    var writerIndex: nat

    ghost predicate Valid()
      reads this
    {
      readerIndex <= writerIndex <= data.Length && CHEAP_PREPEND <= data.Length
    }

    ghost function Contents(): (q: seq<Byte>)
      requires Valid()
      reads this, data
      ensures |q| == writerIndex - readerIndex
    {
      data[readerIndex..writerIndex]
    }

    ghost function Sizing(): Shape
      reads this
    {
      Shape(data.Length, readerIndex, writerIndex)
    }

    constructor ()
      ensures Valid() && fresh(data) && Contents() == []
      ensures Sizing() == Shape(1032, 8, 8)
    {
      data := new Byte[CHEAP_PREPEND + INITIAL_SIZE](_ => 0);
      readerIndex := CHEAP_PREPEND;
      writerIndex := CHEAP_PREPEND;
    }

    function ReadableBytes(): nat
      requires Valid()
      reads this
    {
      writerIndex - readerIndex
    }

    function WritableBytes(): nat
      requires Valid()
      reads this
    {
      data.Length - writerIndex
    }

    // The position of the first CR LF at or after position `start` of the content, or -1.
    method FindCRLF(start: nat) returns (at: int)
      requires Valid() && start <= ReadableBytes()
      ensures at >= 0 ==> start <= at && CRLFAt(Contents(), at) && forall i :: start <= i < at ==> !CRLFAt(Contents(), i)
      ensures at < 0 ==> at == -1 && forall i :: start <= i ==> !CRLFAt(Contents(), i)
    {
      var i := start;
      while i + 1 < writerIndex - readerIndex
        invariant start <= i <= writerIndex - readerIndex
        invariant forall k :: start <= k < i ==> !CRLFAt(Contents(), k)
      {
        if data[readerIndex + i] == 13 && data[readerIndex + i + 1] == 10 {
          return i;
        }
        i := i + 1;
      }
      return -1;
    }

    method Retrieve(len: nat)
      requires Valid() && len <= ReadableBytes()
      modifies `readerIndex, `writerIndex
      ensures Valid() && Contents() == old(Contents())[len..]
      ensures Sizing() == Do(old(Sizing()), Take(len))
    {
      if len < ReadableBytes() {
        readerIndex := readerIndex + len;
      } else {
        RetrieveAll();
      }
    }

    method RetrieveAll()
      requires Valid()
      modifies `readerIndex, `writerIndex
      ensures Valid() && Contents() == []
      ensures Sizing() == Shape(data.Length, 8, 8)
    {
      readerIndex := CHEAP_PREPEND;
      writerIndex := CHEAP_PREPEND;
    }

    method Peek(len: nat) returns (q: seq<Byte>)
      requires Valid() && len <= ReadableBytes()
      ensures q == Contents()[..len]
    {
      q := data[readerIndex..readerIndex + len];
    }

    method RetrieveAsString(len: nat) returns (q: seq<Byte>)
      requires Valid() && len <= ReadableBytes()
      modifies `readerIndex, `writerIndex
      ensures Valid() && q == old(Contents())[..len] && Contents() == old(Contents())[len..]
      ensures Sizing() == Do(old(Sizing()), Take(len))
    {
      q := Peek(len);
      Retrieve(len);
    }

    // vector::resize to a larger size.
    method Resize(size: nat)
      requires Valid() && size >= data.Length
      modifies `data
      ensures Valid() && fresh(data) && data.Length == size && data[..old(data.Length)] == old(data[..])
    {
      var bigger := new Byte[size](_ => 0);
      var i := 0;
      while i < data.Length
        invariant data == old(data) && 0 <= i <= data.Length && bigger[..i] == data[..i] && data[..] == old(data[..])
      {
        bigger[i] := data[i];
        i := i + 1;
      }
      data := bigger;
    }

    method MakeSpace(len: nat)
      requires Valid() && WritableBytes() < len
      modifies this, data
      ensures Valid() && (data == old(data) || fresh(data)) && Contents() == old(Contents())
      ensures Sizing() == Ensured(old(Sizing()), len)
    {
      if data.Length - writerIndex + readerIndex < len + CHEAP_PREPEND {
        Resize(writerIndex + len);
        assert data[..old(data.Length)][readerIndex..writerIndex] == old(data[..])[readerIndex..writerIndex];
      } else {
        assert CHEAP_PREPEND < readerIndex;
        var readable := ReadableBytes();
        MoveDown(readable);
        readerIndex := CHEAP_PREPEND;
        writerIndex := readerIndex + readable;
      }
    }

    // std::copy of the content to the front, in place.
    method MoveDown(readable: nat)
      requires Valid() && CHEAP_PREPEND < readerIndex && readable == ReadableBytes()
      modifies data
      ensures data[CHEAP_PREPEND..CHEAP_PREPEND + readable] == old(data[readerIndex..writerIndex])
    {
      var i := 0;
      while i < readable
        invariant 0 <= i <= readable
        invariant data[CHEAP_PREPEND..CHEAP_PREPEND + i] == old(data[readerIndex..readerIndex + i])
        invariant forall k :: readerIndex + i <= k < writerIndex ==> data[k] == old(data[k])
      {
        data[CHEAP_PREPEND + i] := data[readerIndex + i];
        i := i + 1;
      }
    }

    method EnsureWritableBytes(len: nat)
      requires Valid()
      modifies this, data
      ensures Valid() && (data == old(data) || fresh(data)) && Contents() == old(Contents()) && WritableBytes() >= len
      ensures Sizing() == Do(old(Sizing()), Reserve(len))
    {
      if WritableBytes() < len {
        MakeSpace(len);
      }
    }

    method Append(q: seq<Byte>)
      requires Valid()
      modifies this, data
      ensures Valid() && (data == old(data) || fresh(data)) && Contents() == old(Contents()) + q
      ensures Sizing() == Do(old(Sizing()), Grow(|q|))
    {
      EnsureWritableBytes(|q|);
      FillRoom(q);
    }

    // std::copy of q into the vector.
    method CopyIn(at: nat, q: seq<Byte>)
      requires at + |q| <= data.Length
      modifies data
      ensures data[at..at + |q|] == q
      ensures forall k :: 0 <= k < data.Length && !(at <= k < at + |q|) ==> data[k] == old(data[k])
    {
      var i := 0;
      while i < |q|
        invariant 0 <= i <= |q| && data[at..at + i] == q[..i]
        invariant forall k :: 0 <= k < data.Length && !(at <= k < at + i) ==> data[k] == old(data[k])
      {
        data[at + i] := q[i];
        i := i + 1;
      }
    }

    method Prepend(q: seq<Byte>)
      requires Valid() && |q| <= readerIndex
      modifies `readerIndex, data
      ensures Valid() && Contents() == q + old(Contents())
      ensures Sizing() == Do(old(Sizing()), Push(|q|))
    {
      readerIndex := readerIndex - |q|;
      CopyIn(readerIndex, q);
      assert data[readerIndex..writerIndex] == data[readerIndex..readerIndex + |q|] + data[readerIndex + |q|..writerIndex];
    }

    method Shrink(reserve: nat)
      requires Valid()
      modifies this
      ensures Valid() && fresh(data) && Contents() == old(Contents())
      ensures Sizing() == Do(old(Sizing()), Op.Shrink(reserve))
    {
      var other := new Buffer();
      other.EnsureWritableBytes(ReadableBytes() + reserve);
      var text := Peek(ReadableBytes());
      other.Append(text);
      data, readerIndex, writerIndex := other.data, other.readerIndex, other.writerIndex;
    }

    // readv into the writable room and a 64 KiB spill buffer: the kernel delivers some bytes, or an error.
    method ReadFd(result: ReadResult) returns (n: int, savedErrno: int)
      requires Valid() && (result.Read? ==> |result.input| <= WritableBytes() + 65536)
      modifies this, data
      ensures Valid() && (data == old(data) || fresh(data))
      ensures result.Failed? ==> n == -1 && savedErrno == result.errno && Contents() == old(Contents()) && Sizing() == old(Sizing())
      ensures result.Read? ==> n == |result.input| && Contents() == old(Contents()) + result.input
      ensures result.Read? ==>
                Sizing() == var b, len := old(Sizing()), |result.input|;
                            if len <= Writable(b) then Do(b, Fill(len)) else Do(Do(b, Fill(Writable(b))), Grow(len - Writable(b)))
    {
      match result {
        case Failed(errno) =>
          n, savedErrno := -1, errno;
        case Read(input) =>
          n, savedErrno := |input|, 0;
          TakeInput(input);
      }
    }

    method TakeInput(input: seq<Byte>)
      requires Valid() && |input| <= WritableBytes() + 65536
      modifies this, data
      ensures Valid() && (data == old(data) || fresh(data)) && Contents() == old(Contents()) + input
      ensures Sizing() == var b := old(Sizing());
                          if |input| <= Writable(b) then Do(b, Fill(|input|)) else Do(Do(b, Fill(Writable(b))), Grow(|input| - Writable(b)))
    {
      var writable := WritableBytes();
      if |input| <= writable {
        FillRoom(input);
      } else {
        FillRoom(input[..writable]);
        Append(input[writable..]);
        assert input == input[..writable] + input[writable..];
      }
    }

    // What fits behind the content.
    method FillRoom(input: seq<Byte>)
      requires Valid() && |input| <= WritableBytes()
      modifies `writerIndex, data
      ensures Valid() && Contents() == old(Contents()) + input
      ensures Sizing() == Do(old(Sizing()), Fill(|input|))
    {
      ghost var content := Contents();
      CopyIn(writerIndex, input);
      assert data[readerIndex..writerIndex] == content;
      writerIndex := writerIndex + |input|;
      assert Contents() == data[readerIndex..writerIndex - |input|] + data[writerIndex - |input|..writerIndex];
    }

    // peekInt32, appendInt32, prependInt32
    method PeekInt32() returns (x: int)
      requires Valid() && ReadableBytes() >= 4
      ensures x == Int32At(Contents())
    {
      var q := Peek(4);
      x := Int32At(q);
    }

    method AppendInt32(x: int)
      requires Valid()
      modifies this, data
      ensures Valid() && (data == old(data) || fresh(data)) && Contents() == old(Contents()) + Bytes32(x)
    {
      Append(Bytes32(x));
    }

    method PrependInt32(x: int)
      requires Valid() && 4 <= readerIndex
      modifies `readerIndex, data
      ensures Valid() && Contents() == Bytes32(x) + old(Contents())
    {
      Prepend(Bytes32(x));
    }

    method ReadInt32() returns (x: int)
      requires Valid() && ReadableBytes() >= 4
      modifies `readerIndex, `writerIndex
      ensures Valid() && x == Int32At(old(Contents())) && Contents() == old(Contents())[4..]
    {
      x := PeekInt32();
      Retrieve(4);
    }

    method ReadInt8() returns (x: int)
      requires Valid() && ReadableBytes() >= 1
      modifies `readerIndex, `writerIndex
      ensures Valid() && x == Int8At(old(Contents())) && Contents() == old(Contents())[1..]
    {
      var q := Peek(1);
      x := Int8At(q);
      Retrieve(1);
    }
  }
}
