/** The multiplexer's side: what comes back from the demultiplexer goes to the clients, until a client is hung up. */
module Multiplexer {
  import opened Buffer
  import opened Seqs
  import opened Frames
  import opened Commands

  // A client's connection: whether it still takes bytes, and what it has been sent.
  datatype Client = Client(open: bool, sent: Bytes)

  type Clients = map<int, Client>

  // One round of sendToClient's loop; frames of unknown ids are dropped, and so are commands other than DISCONNECT.
  function Forward(cs: Clients, f: Frame): Clients {
    var id := if f.id == 0 then HangupOf(f.payload) else f.id;
    if id !in cs then cs
    else if f.id == 0 then cs[id := cs[id].(open := false)]
    else if cs[id].open then cs[id := cs[id].(sent := cs[id].sent + f.payload)]
    else cs
  }

  function ForwardAll(cs: Clients, fs: seq<Frame>): Clients
    decreases |fs|
  {
    if fs == [] then cs else ForwardAll(Forward(cs, fs[0]), fs[1..])
  }

  datatype State = State(clients: Clients, rest: Bytes)

  function Receive(s: State, chunk: Bytes): State {
    var d := Decode(s.rest + chunk);
    State(ForwardAll(s.clients, d.frames), d.rest)
  }

  function ReceiveAll(s: State, chunks: seq<Bytes>): State
    decreases |chunks|
  {
    if chunks == [] then s else ReceiveAll(Receive(s, chunks[0]), chunks[1..])
  }

  predicate HangsUp(f: Frame, id: int) { f.id == 0 && HangupOf(f.payload) == id }

  // What the frames carry for a client before they hang it up.
  function Heard(fs: seq<Frame>, id: int): Bytes {
    if fs == [] || HangsUp(fs[0], id) then []
    else (if fs[0].id == id then fs[0].payload else []) + Heard(fs[1..], id)
  }

  predicate HungUp(fs: seq<Frame>, id: int) { exists i :: 0 <= i < |fs| && HangsUp(fs[i], id) }

  lemma {:induction false} ForwardAllAppend(cs: Clients, fs: seq<Frame>, gs: seq<Frame>)
    ensures ForwardAll(cs, fs + gs) == ForwardAll(ForwardAll(cs, fs), gs)
    decreases |fs|
  {
    hide Forward;
    if fs == [] {
      assert fs + gs == gs;
    } else {
      assert (fs + gs)[0] == fs[0] && (fs + gs)[1..] == fs[1..] + gs;
      ForwardAllAppend(Forward(cs, fs[0]), fs[1..], gs);
    }
  }

  // However the connection cuts the stream, the clients get what the whole stream gives them.
  lemma {:induction false} CuttingDoesNotMatter(s: State, chunks: seq<Bytes>)
    requires Decode(s.rest).frames == []
    ensures ReceiveAll(s, chunks) == Receive(s, Concat(chunks))
    decreases |chunks|
  {
    hide Forward, WholeFrame, HeadFrame;
    if chunks == [] {
      assert s.rest + Concat(chunks) == s.rest;
    } else {
      var q, more := s.rest + chunks[0], Concat(chunks[1..]);
      hide Decode, ForwardAll;
      DecodeMore(q, more);
      RestHoldsNoFrame(q);
      CuttingDoesNotMatter(Receive(s, chunks[0]), chunks[1..]);
      Assoc(s.rest, chunks[0], more);
      var d := Decode(q);
      ForwardAllAppend(s.clients, d.frames, Decode(d.rest + more).frames);
    }
  }

  // Each client is sent exactly its part, up to the frame that hangs it up, and nothing after that.
  lemma {:induction false} ForwardAllIs(cs: Clients, fs: seq<Frame>, id: int)
    requires id in cs && id != 0
    ensures var c := ForwardAll(cs, fs);
            && id in c && c[id].sent == cs[id].sent + (if cs[id].open then Heard(fs, id) else [])
            && (c[id].open <==> cs[id].open && !HungUp(fs, id))
    decreases |fs|
  {
    hide HangupOf;
    if fs == [] {
      assert cs[id].sent + [] == cs[id].sent;
    } else {
      var f, rest := fs[0], fs[1..];
      var mid := Forward(cs, f);
      assert id in mid;
      assert HungUp(fs, id) <==> HangsUp(f, id) || HungUp(rest, id) by { FirstOrRest(fs, id); }
      ForwardAllIs(mid, rest, id);
      hide HungUp;
      Assoc(cs[id].sent, if f.id == id then f.payload else [], Heard(rest, id));
      assert cs[id].sent + [] == cs[id].sent && [] + Heard(rest, id) == Heard(rest, id);
    }
  }

  lemma FirstOrRest(fs: seq<Frame>, id: int)
    requires fs != []
    ensures HungUp(fs, id) <==> HangsUp(fs[0], id) || HungUp(fs[1..], id)
  {
    hide HangsUp;
    var rest := fs[1..];
    if i :| 0 <= i < |rest| && HangsUp(rest[i], id) {
      assert fs[i + 1] == rest[i];
    }
    if i :| 0 <= i < |fs| && HangsUp(fs[i], id) {
      assert i == 0 || rest[i - 1] == fs[i];
    }
  }

  // ---------------------------------------------------------------- what the demultiplexer sends

  datatype Reply = Answer(id: int, data: Bytes) | Hangup(id: int)

  predicate Wellformed(r: Reply) { Id16(r.id) && r.id != 0 }

  predicate AllWellformed(rs: seq<Reply>) { forall i :: 0 <= i < |rs| ==> Wellformed(rs[i]) }

  function FramesFor(r: Reply): (fs: seq<Frame>)
    requires Wellformed(r)
    ensures AllSendable(fs) && forall i :: 0 <= i < |fs| ==> fs[i].payload != []
  {
    match r
    case Answer(id, data) => Split(id, data)
    case Hangup(id) => TextsFit(id, []); [Frame(0, DisconnectText(id))]
  }

  function FramesOf(rs: seq<Reply>): (fs: seq<Frame>)
    requires AllWellformed(rs)
    ensures AllSendable(fs) && forall i :: 0 <= i < |fs| ==> fs[i].payload != []
  {
    if rs == [] then [] else FramesFor(rs[0]) + FramesOf(rs[1..])
  }

  // A client's answers up to its hang-up.
  function AnswersTo(rs: seq<Reply>, id: int): Bytes {
    if rs == [] || rs[0] == Hangup(id) then []
    else (if rs[0].Answer? && rs[0].id == id then rs[0].data else []) + AnswersTo(rs[1..], id)
  }

  lemma {:induction false} HeardData(fs: seq<Frame>, gs: seq<Frame>, id: int)
    requires id != 0 && forall i :: 0 <= i < |fs| ==> fs[i].id != 0
    ensures Heard(fs + gs, id) == Payload(fs, id) + Heard(gs, id)
    decreases |fs|
  {
    if fs == [] {
      assert fs + gs == gs;
    } else {
      assert (fs + gs)[0] == fs[0] && (fs + gs)[1..] == fs[1..] + gs;
      HeardData(fs[1..], gs, id);
      Assoc(if fs[0].id == id then fs[0].payload else [], Payload(fs[1..], id), Heard(gs, id));
    }
  }

  lemma {:induction false} HeardIsAnswers(rs: seq<Reply>, id: int)
    requires AllWellformed(rs) && id != 0
    ensures Heard(FramesOf(rs), id) == AnswersTo(rs, id)
    decreases |rs|
  {
    hide HangupOf, DisconnectText;
    if rs != [] {
      HeardIsAnswers(rs[1..], id);
      match rs[0] {
        case Answer(k, data) =>
          HeardData(Split(k, data), FramesOf(rs[1..]), id);
          SplitCarries(k, data, id);
        case Hangup(k) =>
          HangupRead(k);
          var f := FramesFor(rs[0])[0];
          assert (FramesFor(rs[0]) + FramesOf(rs[1..]))[1..] == FramesOf(rs[1..]);
      }
    }
  }

  // Interleaved answers, framed and cut in any way, reach every client byte for byte, up to its hang-up.
  lemma AnswersArrive(cs: Clients, rs: seq<Reply>, chunks: seq<Bytes>)
    requires (forall id :: id in cs ==> id != 0 && cs[id] == Client(true, [])) && AllWellformed(rs)
    requires Concat(chunks) == EncodeAll(FramesOf(rs))
    ensures var s := ReceiveAll(State(cs, []), chunks);
            s.rest == [] && forall id :: id in cs ==> id in s.clients && s.clients[id].sent == AnswersTo(rs, id)
  {
    hide Decode, ForwardAll, Heard, FramesOf, EncodeAll, AnswersTo, HungUp;
    DecodeEncoded([]);
    assert EncodeAll([]) == [] by { NothingEncodes(); }
    CuttingDoesNotMatter(State(cs, []), chunks);
    assert [] + Concat(chunks) == Concat(chunks);
    var fs := FramesOf(rs);
    DecodeEncoded(fs);
    forall id | id in cs
      ensures id in ForwardAll(cs, fs) && ForwardAll(cs, fs)[id].sent == AnswersTo(rs, id)
    {
      ForwardAllIs(cs, fs, id);
      HeardIsAnswers(rs, id);
      assert [] + Heard(fs, id) == Heard(fs, id);
    }
  }

  lemma NothingEncodes()
    ensures EncodeAll([]) == []
  {
  }

  // ---------------------------------------------------------------- the class

  class MultiplexServer {
    var clientConns: Clients

    constructor (ids: set<int>)
      ensures clientConns.Keys == ids && forall id :: id in clientConns ==> clientConns[id] == Client(true, [])
    {
      clientConns := map id | id in ids :: Client(true, []);
    }

    method SendToClient(buf: Buffer)
      requires buf.Valid()
      modifies this, buf`readerIndex, buf`writerIndex
      ensures buf.Valid()
      ensures State(clientConns, buf.Contents()) == Receive(State(old(clientConns), old(buf.Contents())), [])
    {
      hide Forward, Ahead, HeadFrame, Decode, ForwardAll;
      ghost var q, cs := buf.Contents(), clientConns;
      AheadStart(cs, q);
      var more := true;
      while more && buf.ReadableBytes() > HEADER_LEN
        invariant buf.Valid() && Ahead(clientConns, buf.Contents(), cs, q)
        invariant !more ==> WholeFrame(buf.Contents()) < 0
        decreases more, buf.ReadableBytes()
      {
        var header := buf.Peek(HEADER_LEN);
        var len: int := header[0];
        if buf.ReadableBytes() < len + HEADER_LEN {
          more := false;
        } else {
          AheadNext(clientConns, buf.Contents(), cs, q);
          var frame := PeekFrame(buf, len);
          ForwardFrame(frame);
          buf.Retrieve(len + HEADER_LEN);
        }
      }
      AheadEnd(clientConns, buf.Contents(), cs, q);
    }

    method ForwardFrame(f: Frame)
      modifies this
      ensures clientConns == Forward(old(clientConns), f)
    {
      if f.id != 0 {
        if f.id in clientConns && clientConns[f.id].open {
          clientConns := clientConns[f.id := clientConns[f.id].(sent := clientConns[f.id].sent + f.payload)];
        }
      } else {
        DoCommand(f.payload);
      }
    }

    method DoCommand(cmd: Bytes)
      modifies this
      ensures var c := old(clientConns); var id := HangupOf(cmd);
              clientConns == if id in c then c[id := c[id].(open := false)] else c
    {
      hide HangupOf;
      var connId := HangupOf(cmd);
      if connId in clientConns {
        clientConns := clientConns[connId := clientConns[connId].(open := false)];
      }
    }
  }

  // The loop of sendToClient: what is still in the buffer, forwarded from where the loop stands, is all of it.
  ghost predicate Ahead(now: Clients, left: Bytes, cs: Clients, q: Bytes) {
    ForwardAll(now, Decode(left).frames) == ForwardAll(cs, Decode(q).frames) && Decode(left).rest == Decode(q).rest
  }

  lemma AheadStart(cs: Clients, q: Bytes)
    ensures Ahead(cs, q, cs, q) && q + [] == q
  {
  }

  lemma AheadNext(now: Clients, left: Bytes, cs: Clients, q: Bytes)
    requires Ahead(now, left, cs, q) && WholeFrame(left) >= 0
    ensures Ahead(Forward(now, HeadFrame(left)), left[HEADER_LEN + WholeFrame(left)..], cs, q)
  {
    hide Forward, HeadFrame, WholeFrame;
    var d := Decode(left[HEADER_LEN + WholeFrame(left)..]);
    assert ([HeadFrame(left)] + d.frames)[1..] == d.frames;
  }

  lemma AheadEnd(now: Clients, left: Bytes, cs: Clients, q: Bytes)
    requires Ahead(now, left, cs, q) && WholeFrame(left) < 0
    ensures now == ForwardAll(cs, Decode(q).frames) && left == Decode(q).rest
  {
  }
}
