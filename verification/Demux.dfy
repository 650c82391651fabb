/** The demultiplexer: it opens a socket for every connection that the multiplexer announces, parks what arrives for a
  socket that is not up yet, and carries the shutdowns of both sides. */
module Demux {
  import opened Buffer
  import opened Seqs
  import opened Frames
  import opened Commands

  // A client's socket: whether onSocksConnection has set it, whether it has been told to shut down, whether its other
  // end is gone, what it has been sent, and what is parked for it.
  datatype Entry = Entry(connected: bool, shut: bool, lost: bool, sent: Bytes, pending: Bytes)

  // `reply` is what has been sent back on the shared connection; `sound` says whether every assertion so far held.
  datatype State = State(entries: map<int, Entry>, reply: Bytes, sound: bool, rest: Bytes)

  const START := State(map[], [], true, [])

  // A send on a connection that is not kConnected any more does nothing.
  function SendOn(e: Entry, q: Bytes): Entry {
    if e.shut || e.lost then e else e.(sent := e.sent + q)
  }

  // doCommand
  function Carry(s: State, note: Note): State {
    match note
    case Up(id) => s.(sound := s.sound && id !in s.entries, entries := s.entries[id := Entry(false, false, false, [], [])])
    case Down(id) =>
      if id !in s.entries then s.(sound := false)
      else if s.entries[id].connected then s.(entries := s.entries[id := s.entries[id].(shut := true)])
      else s.(entries := s.entries - {id})
  }

  // One round of onServerMessage's loop.
  function Deliver(s: State, f: Frame): State {
    if f.id == 0 then Carry(s, NoteOf(f.payload))
    else if f.id !in s.entries then s.(sound := false)
    else
      var e := s.entries[f.id];
      if e.connected then s.(sound := s.sound && e.pending == [], entries := s.entries[f.id := SendOn(e, f.payload)])
      else s.(entries := s.entries[f.id := e.(pending := e.pending + f.payload)])
  }

  function DeliverAll(s: State, fs: seq<Frame>): State
    decreases |fs|
  {
    if fs == [] then s else DeliverAll(Deliver(s, fs[0]), fs[1..])
  }

  datatype Event = Arrive(chunk: Bytes) | SocksUp(id: int) | SocksLost(id: int)

  predicate Enabled(s: State, ev: Event) {
    match ev
    case Arrive(_) => true
    case SocksUp(id) => id in s.entries && !s.entries[id].connected
    case SocksLost(id) => Id16(id) && id in s.entries && s.entries[id].connected
  }

  // onServerMessage on what the connection's buffer holds, and the two branches of onSocksConnection while the shared
  // connection is up.
  function Step(s: State, ev: Event): State
    requires Enabled(s, ev)
  {
    match ev
    case Arrive(chunk) =>
      var d := Decode(s.rest + chunk);
      DeliverAll(s, d.frames).(rest := d.rest)
    case SocksUp(id) =>
      var e := s.entries[id];
      s.(entries := s.entries[id := e.(connected := true, sent := e.sent + e.pending, pending := [])])
    case SocksLost(id) =>
      TextsFit(id, []);
      s.(entries := s.entries[id := s.entries[id].(lost := true)], reply := s.reply + Encode(Frame(0, DisconnectText(id))))
  }

  predicate Runs(s: State, evs: seq<Event>)
    decreases |evs|
  {
    evs == [] || (Enabled(s, evs[0]) && Runs(Step(s, evs[0]), evs[1..]))
  }

  function Run(s: State, evs: seq<Event>): State
    requires Runs(s, evs)
    decreases |evs|
  {
    if evs == [] then s else Run(Step(s, evs[0]), evs[1..])
  }

  function Arrived(evs: seq<Event>): Bytes {
    if evs == [] then [] else (if evs[0].Arrive? then evs[0].chunk else []) + Arrived(evs[1..])
  }

  // ---------------------------------------------------------------- what the frames so far say

  // A connection id as the frames tell it: never announced; announced, with the bytes since; taken back.
  datatype Life = Never | Open(bytes: Bytes) | Closed(bytes: Bytes)

  function LifeStep(l: Life, f: Frame, id: int): Life {
    if f.id != 0 then (if f.id == id && l.Open? then Open(l.bytes + f.payload) else l)
    else match NoteOf(f.payload)
      case Up(k) => if k == id then Open([]) else l
      case Down(k) => if k == id && l.Open? then Closed(l.bytes) else l
  }

  function LifeAfter(l: Life, fs: seq<Frame>, id: int): Life
    decreases |fs|
  {
    if fs == [] then l else LifeAfter(LifeStep(l, fs[0], id), fs[1..], id)
  }

  function LifeOf(fs: seq<Frame>, id: int): Life { LifeAfter(Never, fs, id) }

  lemma {:induction false} LifeAppend(l: Life, fs: seq<Frame>, gs: seq<Frame>, id: int)
    ensures LifeAfter(l, fs + gs, id) == LifeAfter(LifeAfter(l, fs, id), gs, id)
    decreases |fs|
  {
    hide LifeStep;
    if fs == [] {
      assert fs + gs == gs;
    } else {
      assert (fs + gs)[0] == fs[0] && (fs + gs)[1..] == fs[1..] + gs;
      LifeAppend(LifeStep(l, fs[0], id), fs[1..], gs, id);
    }
  }

  lemma LifeMore(fs: seq<Frame>, f: Frame, id: int)
    ensures LifeOf(fs + [f], id) == LifeStep(LifeOf(fs, id), f, id)
  {
    hide LifeStep;
    LifeAppend(Never, fs, [f], id);
    assert [f][1..] == [];
  }

  predicate Says(f: Frame, note: Note) { f.id == 0 && NoteOf(f.payload) == note }

  // A frame that the multiplexer may send after fs: it announces only an id that is not in use, and uses only one
  // that is.
  predicate Fits(fs: seq<Frame>, f: Frame) {
    if f.id != 0 then LifeOf(fs, f.id).Open?
    else match NoteOf(f.payload)
      case Up(id) => id != 0 && !LifeOf(fs, id).Open?
      case Down(id) => LifeOf(fs, id).Open?
  }

  predicate Orderly(fs: seq<Frame>, gs: seq<Frame>)
    decreases |gs|
  {
    gs == [] || (Fits(fs, gs[0]) && Orderly(fs + [gs[0]], gs[1..]))
  }

  lemma {:induction false} OrderlyParts(fs: seq<Frame>, gs: seq<Frame>, hs: seq<Frame>)
    ensures Orderly(fs, gs + hs) <==> Orderly(fs, gs) && Orderly(fs + gs, hs)
    decreases |gs|
  {
    hide Fits;
    if gs == [] {
      assert gs + hs == hs && fs + gs == fs;
    } else {
      assert (gs + hs)[0] == gs[0] && (gs + hs)[1..] == gs[1..] + hs;
      OrderlyParts(fs + [gs[0]], gs[1..], hs);
      assert fs + [gs[0]] + gs[1..] == fs + gs;
    }
  }

  // ---------------------------------------------------------------- what every step keeps

  // A socket's entry against what has arrived for it since its id was announced last: up, it has been sent all of it,
  // unless its other end was gone; not up yet, all of it is parked.
  predicate Holds(e: Entry, p: Bytes, closed: bool) {
    && (e.connected ==> e.pending == [])
    && (!e.connected ==> e.sent == [] && !closed && !e.lost)
    && (e.shut <==> e.connected && closed)
    && e.sent + e.pending <= p && (!e.lost ==> e.sent + e.pending == p)
  }

  // An id in use has an entry; one taken back has one exactly if its socket had come up, and then for ever. `came` are
  // the ids whose socket has ever come up.
  predicate Agrees(s: State, l: Life, came: set<int>, id: int) {
    && (id in s.entries ==> id != 0 && !l.Never? && Holds(s.entries[id], l.bytes, l.Closed?))
    && (l.Open? ==> id in s.entries)
    && (id in came <==> id in s.entries && s.entries[id].connected)
  }

  ghost predicate Inv(s: State, fs: seq<Frame>, came: set<int>) {
    s.sound && forall id :: Agrees(s, LifeOf(fs, id), came, id)
  }

  // The frame announces an id whose socket has come up before.
  predicate Repeats(f: Frame, came: set<int>) {
    f.id == 0 && NoteOf(f.payload).Up? && NoteOf(f.payload).id in came
  }

  // The step of one frame: the assertions hold exactly if it does not repeat such an id.
  lemma FrameKeeps(s: State, fs: seq<Frame>, came: set<int>, f: Frame)
    requires Inv(s, fs, came) && Fits(fs, f)
    ensures Deliver(s, f).sound <==> !Repeats(f, came)
    ensures Deliver(s, f).sound ==> Inv(Deliver(s, f), fs + [f], came)
  {
    hide LifeOf, NoteOf;
    var k := if f.id != 0 then f.id else NoteOf(f.payload).id;
    assert Agrees(s, LifeOf(fs, k), came, k);
    if Deliver(s, f).sound {
      forall id
        ensures Agrees(Deliver(s, f), LifeOf(fs + [f], id), came, id)
      {
        assert Agrees(s, LifeOf(fs, id), came, id);
        LifeMore(fs, f, id);
      }
    }
  }

  predicate RepeatsAny(fs: seq<Frame>, came: set<int>) {
    fs != [] && (Repeats(fs[0], came) || RepeatsAny(fs[1..], came))
  }

  // Once an assertion has failed, it has failed.
  lemma {:induction false} UnsoundStays(s: State, fs: seq<Frame>)
    requires !s.sound
    ensures !DeliverAll(s, fs).sound
    decreases |fs|
  {
    if fs != [] {
      UnsoundStays(Deliver(s, fs[0]), fs[1..]);
    }
  }

  lemma {:induction false} DeliverKeeps(s: State, fs: seq<Frame>, came: set<int>, gs: seq<Frame>)
    requires Inv(s, fs, came) && Orderly(fs, gs)
    ensures DeliverAll(s, gs).sound <==> !RepeatsAny(gs, came)
    ensures DeliverAll(s, gs).sound ==> Inv(DeliverAll(s, gs), fs + gs, came)
    decreases |gs|
  {
    hide Deliver, Fits, Repeats;
    if gs == [] {
      InvSound(s, fs, came);
      assert fs + gs == fs;
    } else {
      FrameKeeps(s, fs, came, gs[0]);
      hide Inv;
      if Repeats(gs[0], came) {
        UnsoundStays(Deliver(s, gs[0]), gs[1..]);
      } else {
        DeliverKeeps(Deliver(s, gs[0]), fs + [gs[0]], came, gs[1..]);
        assert fs + [gs[0]] + gs[1..] == fs + gs;
      }
    }
  }

  lemma InvSound(s: State, fs: seq<Frame>, came: set<int>)
    requires Inv(s, fs, came)
    ensures s.sound
  {
  }

  lemma RestKeeps(s: State, fs: seq<Frame>, came: set<int>, rest: Bytes)
    requires Inv(s, fs, came)
    ensures Inv(s.(rest := rest), fs, came)
  {
    hide LifeOf;
    forall id
      ensures Agrees(s.(rest := rest), LifeOf(fs, id), came, id)
    {
      assert Agrees(s, LifeOf(fs, id), came, id);
    }
  }

  function Coming(came: set<int>, ev: Event): set<int> { if ev.SocksUp? then came + {ev.id} else came }

  lemma SocksKeeps(s: State, fs: seq<Frame>, came: set<int>, ev: Event)
    requires Inv(s, fs, came) && Enabled(s, ev) && !ev.Arrive?
    ensures Inv(Step(s, ev), fs, Coming(came, ev)) && Step(s, ev).rest == s.rest
  {
    hide LifeOf, Encode, DisconnectText;
    forall id
      ensures Agrees(Step(s, ev), LifeOf(fs, id), Coming(came, ev), id)
    {
      assert Agrees(s, LifeOf(fs, id), came, id);
    }
  }

  // Over the run: some frame announces an id whose socket has come up before it.
  predicate Clashes(came: set<int>, rest: Bytes, evs: seq<Event>)
    decreases |evs|
  {
    evs != [] &&
    match evs[0]
    case Arrive(chunk) =>
      var d := Decode(rest + chunk);
      RepeatsAny(d.frames, came) || Clashes(came, d.rest, evs[1..])
    case _ => Clashes(Coming(came, evs[0]), rest, evs[1..])
  }

  // The ids whose sockets come up.
  function CameIn(came: set<int>, evs: seq<Event>): set<int>
    decreases |evs|
  {
    if evs == [] then came else CameIn(Coming(came, evs[0]), evs[1..])
  }

  // A chunk arrives, and `more` is still to come.
  lemma ArriveKeeps(s: State, fs: seq<Frame>, came: set<int>, chunk: Bytes, more: Bytes)
    requires Inv(s, fs, came) && Orderly(fs, Decode(s.rest + (chunk + more)).frames)
    ensures var t, d := Step(s, Arrive(chunk)), Decode(s.rest + chunk);
            var e, f := Decode(t.rest + more), Decode(s.rest + (chunk + more));
            && (t.sound <==> !RepeatsAny(d.frames, came)) && (t.sound ==> Inv(t, fs + d.frames, came)) && t.rest == d.rest
            && Orderly(fs + d.frames, e.frames) && Decode(t.rest).frames == []
            && f == Decoded(d.frames + e.frames, e.rest)
  {
    hide Decode, Orderly, Inv, DeliverAll;
    Assoc(s.rest, chunk, more);
    DecodeMore(s.rest + chunk, more);
    RestHoldsNoFrame(s.rest + chunk);
    var d := Decode(s.rest + chunk);
    OrderlyParts(fs, d.frames, Decode(d.rest + more).frames);
    DeliverKeeps(s, fs, came, d.frames);
    if DeliverAll(s, d.frames).sound {
      RestKeeps(DeliverAll(s, d.frames), fs + d.frames, came, d.rest);
    }
  }

  lemma {:induction false} UnsoundRun(s: State, evs: seq<Event>)
    requires !s.sound && Runs(s, evs)
    ensures !Run(s, evs).sound
    decreases |evs|
  {
    hide Encode, DisconnectText, Decode;
    if evs != [] {
      match evs[0] {
        case Arrive(chunk) => UnsoundStays(s, Decode(s.rest + chunk).frames);
        case _ =>
      }
      UnsoundRun(Step(s, evs[0]), evs[1..]);
    }
  }

  // Over every run of arrivals and of sockets coming up and going away: every assertion of the code has held exactly if
  // no id was announced again after its socket had come up; and then each entry agrees with the frames that arrived.
  lemma {:induction false} RunKeeps(s: State, fs: seq<Frame>, came: set<int>, evs: seq<Event>)
    requires Inv(s, fs, came) && Runs(s, evs) && Decode(s.rest).frames == [] && Orderly(fs, Decode(s.rest + Arrived(evs)).frames)
    ensures var d := Decode(s.rest + Arrived(evs));
            && (Run(s, evs).sound <==> !Clashes(came, s.rest, evs))
            && (Run(s, evs).sound ==> Inv(Run(s, evs), fs + d.frames, CameIn(came, evs)) && Run(s, evs).rest == d.rest)
    decreases |evs|
  {
    hide Decode, Orderly, Inv, Enabled, Step, RepeatsAny;
    if evs == [] {
      InvSound(s, fs, came);
      assert s.rest + Arrived(evs) == s.rest && fs + [] == fs;
      RestOfNoFrame(s.rest);
    } else {
      var mid, more := Step(s, evs[0]), Arrived(evs[1..]);
      match evs[0] {
        case Arrive(chunk) =>
          ArriveKeeps(s, fs, came, chunk, more);
          if mid.sound {
            var d := Decode(s.rest + chunk);
            RunKeeps(mid, fs + d.frames, came, evs[1..]);
            Assoc(fs, d.frames, Decode(mid.rest + more).frames);
          } else {
            UnsoundRun(mid, evs[1..]);
          }
        case _ =>
          SocksKeeps(s, fs, came, evs[0]);
          assert [] + more == more;
          RunKeeps(mid, fs, Coming(came, evs[0]), evs[1..]);
      }
    }
  }

  lemma RestOfNoFrame(q: Bytes)
    requires Decode(q).frames == []
    ensures Decode(q).rest == q
  {
  }

  // ---------------------------------------------------------------- what the multiplexer sends

  datatype Sent = Hello(id: int, peer: Bytes) | Data(id: int, data: Bytes) | Bye(id: int, peer: Bytes)

  predicate Wellformed(p: Sent) { Id16(p.id) && p.id != 0 && (p.Data? || Peer(p.peer)) }

  predicate Next(live: set<int>, p: Sent) {
    Wellformed(p) && if p.Hello? then p.id !in live else p.id in live
  }

  function Living(live: set<int>, p: Sent): set<int> {
    match p
    case Hello(id, _) => live + {id}
    case Data(_, _) => live
    case Bye(id, _) => live - {id}
  }

  // Each client is announced under an id that is not in use, before its data, and its id may be used again once it has
  // been taken back.
  predicate Proper(live: set<int>, ps: seq<Sent>)
    decreases |ps|
  {
    ps == [] || (Next(live, ps[0]) && Proper(Living(live, ps[0]), ps[1..]))
  }

  predicate AllSent(ps: seq<Sent>) { forall i :: 0 <= i < |ps| ==> Wellformed(ps[i]) }

  function FramesFor(p: Sent): (fs: seq<Frame>)
    requires Wellformed(p)
    ensures AllSendable(fs) && forall i :: 0 <= i < |fs| ==> fs[i].payload != []
  {
    match p
    case Hello(id, peer) => TextsFit(id, peer); [Frame(0, UpText(id, peer))]
    case Data(id, data) => Split(id, data)
    case Bye(id, peer) => TextsFit(id, peer); [Frame(0, DownText(id, peer))]
  }

  function FramesOf(ps: seq<Sent>): (fs: seq<Frame>)
    requires AllSent(ps)
    ensures AllSendable(fs) && forall i :: 0 <= i < |fs| ==> fs[i].payload != []
  {
    if ps == [] then [] else FramesFor(ps[0]) + FramesOf(ps[1..])
  }

  // An id as the log of what was sent tells it: its latest client's stream, and whether that client is still there.
  function SentStep(l: Life, p: Sent, id: int): Life {
    if p.id != id then l
    else match p
      case Hello(_, _) => Open([])
      case Data(_, data) => if l.Open? then Open(l.bytes + data) else l
      case Bye(_, _) => if l.Open? then Closed(l.bytes) else l
  }

  function SentAfter(l: Life, ps: seq<Sent>, id: int): Life
    decreases |ps|
  {
    if ps == [] then l else SentAfter(SentStep(l, ps[0], id), ps[1..], id)
  }

  function LatestClient(ps: seq<Sent>, id: int): Life { SentAfter(Never, ps, id) }

  lemma {:induction false} ProperIsSent(live: set<int>, ps: seq<Sent>)
    requires Proper(live, ps)
    ensures AllSent(ps)
    decreases |ps|
  {
    hide Wellformed;
    if ps != [] {
      ProperIsSent(Living(live, ps[0]), ps[1..]);
    }
  }

  lemma {:induction false} DataLife(l: Life, fs: seq<Frame>, k: int, id: int)
    requires k != 0 && forall i :: 0 <= i < |fs| ==> fs[i].id == k
    ensures LifeAfter(l, fs, id) == if k == id && l.Open? then Open(l.bytes + Payload(fs, k)) else l
    decreases |fs|
  {
    hide NoteOf;
    if fs == [] {
      assert l.Open? ==> l.bytes + [] == l.bytes;
    } else {
      DataLife(LifeStep(l, fs[0], id), fs[1..], k, id);
      if l.Open? {
        Assoc(l.bytes, fs[0].payload, Payload(fs[1..], k));
      }
    }
  }

  // The frames of an item tell the same as the item.
  lemma ItemLife(l: Life, p: Sent, id: int)
    requires Wellformed(p)
    ensures LifeAfter(l, FramesFor(p), id) == SentStep(l, p, id)
  {
    hide NoteOf, UpText, DownText, Split;
    match p {
      case Hello(k, peer) =>
        UpRead(k, peer);
        assert FramesFor(p)[1..] == [];
      case Data(k, data) =>
        DataLife(l, FramesFor(p), k, id);
        SplitCarries(k, data, k);
      case Bye(k, peer) =>
        DownRead(k, peer);
        assert FramesFor(p)[1..] == [];
    }
  }

  lemma {:induction false} SentLife(l: Life, ps: seq<Sent>, id: int)
    requires AllSent(ps)
    ensures LifeAfter(l, FramesOf(ps), id) == SentAfter(l, ps, id)
    decreases |ps|
  {
    hide FramesFor, SentStep, Wellformed;
    if ps != [] {
      ItemLife(l, ps[0], id);
      LifeAppend(l, FramesFor(ps[0]), FramesOf(ps[1..]), id);
      SentLife(SentStep(l, ps[0], id), ps[1..], id);
    }
  }

  // The ids in use after the frames.
  ghost predicate Knows(fs: seq<Frame>, live: set<int>) {
    forall id :: LifeOf(fs, id).Open? <==> id in live
  }

  lemma {:induction false} DataFits(fs: seq<Frame>, gs: seq<Frame>, id: int)
    requires id != 0 && LifeOf(fs, id).Open? && forall i :: 0 <= i < |gs| ==> gs[i].id == id
    ensures Orderly(fs, gs)
    decreases |gs|
  {
    hide LifeOf, NoteOf;
    if gs != [] {
      LifeMore(fs, gs[0], id);
      DataFits(fs + [gs[0]], gs[1..], id);
    }
  }

  lemma OneFits(fs: seq<Frame>, live: set<int>, p: Sent)
    requires Knows(fs, live) && Next(live, p)
    ensures Orderly(fs, FramesFor(p)) && Knows(fs + FramesFor(p), Living(live, p))
  {
    hide LifeAfter, NoteOf, UpText, DownText, Split;
    assert LifeOf(fs, p.id).Open? <==> p.id in live;
    forall id
      ensures LifeOf(fs + FramesFor(p), id) == SentStep(LifeOf(fs, id), p, id)
    {
      LifeAppend(Never, fs, FramesFor(p), id);
      ItemLife(LifeOf(fs, id), p, id);
    }
    hide LifeOf;
    match p {
      case Hello(id, peer) =>
        UpRead(id, peer);
        LoneFits(fs, FramesFor(p)[0]);
      case Data(id, data) => DataFits(fs, FramesFor(p), id);
      case Bye(id, peer) =>
        DownRead(id, peer);
        LoneFits(fs, FramesFor(p)[0]);
    }
  }

  lemma LoneFits(fs: seq<Frame>, f: Frame)
    requires Fits(fs, f)
    ensures Orderly(fs, [f])
  {
    hide Fits;
    assert [f][1..] == [];
    assert Orderly(fs + [f], []);
  }

  lemma {:induction false} SentFits(fs: seq<Frame>, live: set<int>, ps: seq<Sent>)
    requires Knows(fs, live) && Proper(live, ps)
    ensures AllSent(ps) && Orderly(fs, FramesOf(ps))
    decreases |ps|
  {
    hide Wellformed, FramesFor, Fits, Knows, Orderly;
    ProperIsSent(live, ps);
    if ps == [] {
      NothingFits(fs);
    } else {
      OneFits(fs, live, ps[0]);
      SentFits(fs + FramesFor(ps[0]), Living(live, ps[0]), ps[1..]);
      OrderlyParts(fs, FramesFor(ps[0]), FramesOf(ps[1..]));
    }
  }

  lemma NothingFits(fs: seq<Frame>)
    ensures Orderly(fs, [])
  {
  }

  // ---------------------------------------------------------------- the main results

  lemma StartAgrees()
    ensures Inv(START, [], {}) && Decode(START.rest).frames == [] && Knows([], {})
  {
  }

  lemma SentDecodes(ps: seq<Sent>)
    requires AllSent(ps)
    ensures Decode(EncodeAll(FramesOf(ps))) == Decoded(FramesOf(ps), [])
  {
    hide Decode, EncodeAll;
    DecodeEncoded(FramesOf(ps));
  }

  // At every moment of every run, with `more` of what was sent still under way: every assertion of the code has held
  // (data finds its entry, a socket that is up has nothing parked, an announced id is new) if and only if no id was
  // announced again after its socket had come up for an earlier client.
  lemma AssertionsHold(ps: seq<Sent>, evs: seq<Event>, more: Bytes)
    requires Proper({}, ps) && AllSent(ps) && Runs(START, evs) && Arrived(evs) + more == EncodeAll(FramesOf(ps))
    ensures Run(START, evs).sound <==> !Clashes({}, [], evs)
  {
    hide Decode, Orderly, Run, Runs, FramesOf, EncodeAll, Proper, Inv, Knows, Clashes;
    StartAgrees();
    SentFits([], {}, ps);
    SentDecodes(ps);
    assert [] + Arrived(evs) == Arrived(evs);
    DecodeMore(Arrived(evs), more);
    var d := Decode(Arrived(evs));
    OrderlyParts([], d.frames, Decode(d.rest + more).frames);
    RunKeeps(START, [], {}, evs);
  }

  // Whatever clients sent, in whatever interleaving, and however the connection cut the frames: once everything has
  // arrived, and unless such an id came up, each client that is still there has an entry, and each entry has been sent,
  // or has parked, exactly its latest client's stream, of which a socket whose other end went away has got a prefix.
  lemma StreamsArrive(ps: seq<Sent>, evs: seq<Event>)
    requires Proper({}, ps) && AllSent(ps) && Runs(START, evs) && Arrived(evs) == EncodeAll(FramesOf(ps))
    ensures var s := Run(START, evs);
            && (s.sound <==> !Clashes({}, [], evs))
            && (s.sound ==>
                  && s.rest == []
                  && (forall id :: LatestClient(ps, id).Open? ==> id in s.entries)
                  && (forall id :: id in s.entries ==>
                        var l := LatestClient(ps, id); !l.Never? && Holds(s.entries[id], l.bytes, l.Closed?)))
  {
    hide Decode, Orderly, Run, Runs, FramesOf, EncodeAll, Proper, Holds, LifeAfter, SentAfter, Clashes, CameIn;
    var fs, s := FramesOf(ps), Run(START, evs);
    StartAgrees();
    SentFits([], {}, ps);
    SentDecodes(ps);
    assert [] + Arrived(evs) == Arrived(evs) && [] + fs == fs;
    RunKeeps(START, [], {}, evs);
    if s.sound {
      forall id
        ensures LatestClient(ps, id).Open? ==> id in s.entries
        ensures id in s.entries ==> !LatestClient(ps, id).Never? && Holds(s.entries[id], LatestClient(ps, id).bytes, LatestClient(ps, id).Closed?)
      {
        assert Agrees(s, LifeOf(fs, id), CameIn({}, evs), id);
        SentLife(Never, ps, id);
      }
    }
  }

  // ---------------------------------------------------------------- ids used once

  // No frame of gs announces an id a second time.
  predicate FreshUps(fs: seq<Frame>, gs: seq<Frame>)
    decreases |gs|
  {
    gs == [] || (Fresh(fs, gs[0]) && FreshUps(fs + [gs[0]], gs[1..]))
  }

  predicate Fresh(fs: seq<Frame>, f: Frame) {
    f.id == 0 && NoteOf(f.payload).Up? ==> LifeOf(fs, NoteOf(f.payload).id).Never?
  }

  lemma {:induction false} FreshParts(fs: seq<Frame>, gs: seq<Frame>, hs: seq<Frame>)
    ensures FreshUps(fs, gs + hs) <==> FreshUps(fs, gs) && FreshUps(fs + gs, hs)
    decreases |gs|
  {
    hide Fresh;
    if gs == [] {
      assert gs + hs == hs && fs + gs == fs;
    } else {
      assert (gs + hs)[0] == gs[0] && (gs + hs)[1..] == gs[1..] + hs;
      FreshParts(fs + [gs[0]], gs[1..], hs);
      assert fs + [gs[0]] + gs[1..] == fs + gs;
    }
  }

  lemma FreshIsNoRepeat(s: State, fs: seq<Frame>, came: set<int>, f: Frame)
    requires Inv(s, fs, came) && Fresh(fs, f)
    ensures !Repeats(f, came)
  {
    hide NoteOf, LifeOf;
    if f.id == 0 && NoteOf(f.payload).Up? {
      assert Agrees(s, LifeOf(fs, NoteOf(f.payload).id), came, NoteOf(f.payload).id);
    }
  }

  lemma {:induction false} DeliverFresh(s: State, fs: seq<Frame>, came: set<int>, gs: seq<Frame>)
    requires Inv(s, fs, came) && Orderly(fs, gs) && FreshUps(fs, gs)
    ensures !RepeatsAny(gs, came)
    decreases |gs|
  {
    hide Deliver, Fits, Repeats, Fresh, Inv;
    if gs != [] {
      FreshIsNoRepeat(s, fs, came, gs[0]);
      FrameKeeps(s, fs, came, gs[0]);
      DeliverFresh(Deliver(s, gs[0]), fs + [gs[0]], came, gs[1..]);
    }
  }

  lemma {:induction false} RunFresh(s: State, fs: seq<Frame>, came: set<int>, evs: seq<Event>)
    requires Inv(s, fs, came) && Runs(s, evs) && Decode(s.rest).frames == []
    requires Orderly(fs, Decode(s.rest + Arrived(evs)).frames) && FreshUps(fs, Decode(s.rest + Arrived(evs)).frames)
    ensures !Clashes(came, s.rest, evs)
    decreases |evs|
  {
    hide Decode, Orderly, Inv, Enabled, Step, RepeatsAny, FreshUps;
    if evs != [] {
      var mid, more := Step(s, evs[0]), Arrived(evs[1..]);
      match evs[0] {
        case Arrive(chunk) =>
          ArriveKeeps(s, fs, came, chunk, more);
          var d := Decode(s.rest + chunk);
          FreshParts(fs, d.frames, Decode(mid.rest + more).frames);
          OrderlyParts(fs, d.frames, Decode(mid.rest + more).frames);
          DeliverFresh(s, fs, came, d.frames);
          RunFresh(mid, fs + d.frames, came, evs[1..]);
        case _ =>
          SocksKeeps(s, fs, came, evs[0]);
          assert [] + more == more;
          RunFresh(mid, fs, Coming(came, evs[0]), evs[1..]);
      }
    }
  }

  // Every id is announced once.
  predicate Once(met: set<int>, ps: seq<Sent>)
    decreases |ps|
  {
    ps == [] || ((ps[0].Hello? ==> ps[0].id !in met) && Once(Meeting(met, ps[0]), ps[1..]))
  }

  function Meeting(met: set<int>, p: Sent): set<int> { if p.Hello? then met + {p.id} else met }

  ghost predicate HasMet(fs: seq<Frame>, met: set<int>) {
    forall id :: !LifeOf(fs, id).Never? <==> id in met
  }

  lemma {:induction false} DataFresh(fs: seq<Frame>, gs: seq<Frame>)
    requires forall i :: 0 <= i < |gs| ==> gs[i].id != 0
    ensures FreshUps(fs, gs)
    decreases |gs|
  {
    hide NoteOf, LifeOf;
    if gs != [] {
      DataFresh(fs + [gs[0]], gs[1..]);
    }
  }

  lemma OneFresh(fs: seq<Frame>, met: set<int>, p: Sent)
    requires HasMet(fs, met) && Wellformed(p) && (p.Hello? ==> p.id !in met)
    ensures FreshUps(fs, FramesFor(p)) && HasMet(fs + FramesFor(p), Meeting(met, p))
  {
    hide LifeAfter, NoteOf, UpText, DownText, Split;
    assert !LifeOf(fs, p.id).Never? <==> p.id in met;
    forall id
      ensures LifeOf(fs + FramesFor(p), id) == SentStep(LifeOf(fs, id), p, id)
    {
      LifeAppend(Never, fs, FramesFor(p), id);
      ItemLife(LifeOf(fs, id), p, id);
    }
    hide LifeOf;
    match p {
      case Hello(id, peer) =>
        UpRead(id, peer);
        LoneFresh(fs, FramesFor(p)[0]);
      case Data(id, data) => DataFresh(fs, FramesFor(p));
      case Bye(id, peer) =>
        DownRead(id, peer);
        LoneFresh(fs, FramesFor(p)[0]);
    }
  }

  lemma LoneFresh(fs: seq<Frame>, f: Frame)
    requires Fresh(fs, f)
    ensures FreshUps(fs, [f])
  {
    hide Fresh;
    assert [f][1..] == [];
    assert FreshUps(fs + [f], []);
  }

  lemma {:induction false} SentFresh(fs: seq<Frame>, met: set<int>, ps: seq<Sent>)
    requires HasMet(fs, met) && AllSent(ps) && Once(met, ps)
    ensures FreshUps(fs, FramesOf(ps))
    decreases |ps|
  {
    hide Wellformed, FramesFor, HasMet, FreshUps;
    if ps == [] {
      NothingFresh(fs);
    } else {
      OneFresh(fs, met, ps[0]);
      SentFresh(fs + FramesFor(ps[0]), Meeting(met, ps[0]), ps[1..]);
      FreshParts(fs, FramesFor(ps[0]), FramesOf(ps[1..]));
    }
  }

  lemma NothingFresh(fs: seq<Frame>)
    ensures FreshUps(fs, [])
  {
  }

  lemma NobodyMet()
    ensures HasMet([], {})
  {
  }

  // While every id is announced only once, as long as the pool of ids lasts, every assertion holds in every run.
  lemma OnceNeverClashes(ps: seq<Sent>, evs: seq<Event>, more: Bytes)
    requires Proper({}, ps) && AllSent(ps) && Once({}, ps) && Runs(START, evs) && Arrived(evs) + more == EncodeAll(FramesOf(ps))
    ensures !Clashes({}, [], evs) && Run(START, evs).sound
  {
    hide Decode, Orderly, Run, Runs, FramesOf, EncodeAll, Proper, Inv, Knows, Clashes, Once, HasMet, FreshUps;
    StartAgrees();
    NobodyMet();
    SentFits([], {}, ps);
    SentFresh([], {}, ps);
    SentDecodes(ps);
    assert [] + Arrived(evs) == Arrived(evs);
    DecodeMore(Arrived(evs), more);
    var d := Decode(Arrived(evs));
    OrderlyParts([], d.frames, Decode(d.rest + more).frames);
    FreshParts([], d.frames, Decode(d.rest + more).frames);
    RunFresh(START, [], {}, evs);
    AssertionsHold(ps, evs, more);
  }

  // The smallest run in which an assertion fails: a client is announced, its socket comes up, the client leaves, and
  // its id is handed to the next client.
  lemma AnnouncedAgainFails()
    ensures Sendable(Frame(0, UpText(1, []))) && Sendable(Frame(0, DownText(1, [])))
    ensures var up, down := Encode(Frame(0, UpText(1, []))), Encode(Frame(0, DownText(1, [])));
            var evs := [Arrive(up), SocksUp(1), Arrive(down + up)];
            Runs(START, evs) && !Run(START, evs).sound
  {
    TextsFit(1, []);
    UpRead(1, []);
    DownRead(1, []);
    var f, g := Frame(0, UpText(1, [])), Frame(0, DownText(1, []));
    hide NoteOf, UpText, DownText, Encode, Decode, DeliverAll;
    var up, down := Encode(f), Encode(g);
    TwoDecoded(f, g);
    var evs := [Arrive(up), SocksUp(1), Arrive(down + up)];
    var s1 := Carry(START, Up(1));
    TwoDelivered(START, f, g);
    assert START.rest + up == up;
    assert Step(START, evs[0]) == s1;
    var s2 := Step(s1, SocksUp(1));
    TwoDelivered(s2, f, g);
    assert s2.rest + (down + up) == down + up;
    Then(s2, evs[2]);
    assert !Step(s2, evs[2]).sound;
    assert evs[1..] == [evs[1], evs[2]] && evs[1..][1..] == [evs[2]];
  }

  lemma Then(s: State, ev: Event)
    requires Enabled(s, ev)
    ensures Runs(s, [ev]) && Run(s, [ev]) == Step(s, ev)
  {
    hide Step;
    assert [ev][1..] == [];
    assert Runs(Step(s, ev), []);
  }

  lemma TwoDelivered(s: State, f: Frame, g: Frame)
    ensures DeliverAll(s, [f]) == Deliver(s, f) && DeliverAll(s, [g, f]) == Deliver(Deliver(s, g), f)
  {
    hide Deliver;
    assert [f][1..] == [] && [g, f][1..] == [f] && [g, f][0] == g;
    assert DeliverAll(Deliver(s, f), []) == Deliver(s, f);
    assert DeliverAll(Deliver(s, g), [f]) == DeliverAll(Deliver(Deliver(s, g), f), []);
  }

  lemma TwoDecoded(f: Frame, g: Frame)
    requires Sendable(f) && Sendable(g) && f.payload != [] && g.payload != []
    ensures Decode(Encode(f)) == Decoded([f], []) && Decode(Encode(g) + Encode(f)) == Decoded([g, f], [])
  {
    hide Encode, Decode;
    NothingDecodes();
    FirstDecoded(f, []);
    assert Encode(f) + [] == Encode(f);
    FirstDecoded(g, Encode(f));
  }

  // ---------------------------------------------------------------- sockets that go away

  // The ids of the sockets whose other end has gone, in order.
  function LostIn(evs: seq<Event>): seq<int> {
    if evs == [] then [] else (if evs[0].SocksLost? then [evs[0].id] else []) + LostIn(evs[1..])
  }

  predicate AllId16(ids: seq<int>) { forall i :: 0 <= i < |ids| ==> Id16(ids[i]) }

  function Hangups(ids: seq<int>): (fs: seq<Frame>)
    requires AllId16(ids)
    ensures AllSendable(fs) && |fs| == |ids|
    ensures forall i :: 0 <= i < |ids| ==> fs[i].id == 0 && fs[i].payload == DisconnectText(ids[i]) && fs[i].payload != []
  {
    if ids == [] then [] else TextsFit(ids[0], []); [Frame(0, DisconnectText(ids[0]))] + Hangups(ids[1..])
  }

  lemma DeliverReplies(s: State, f: Frame)
    ensures Deliver(s, f).reply == s.reply
  {
    hide NoteOf;
  }

  lemma {:induction false} DeliverAllReplies(s: State, fs: seq<Frame>)
    ensures DeliverAll(s, fs).reply == s.reply
    decreases |fs|
  {
    if fs != [] {
      DeliverReplies(s, fs[0]);
      hide Deliver;
      DeliverAllReplies(Deliver(s, fs[0]), fs[1..]);
    }
  }

  // Over every run, what goes back is one DISCONNECT frame for each socket that has gone away, in that order.
  lemma {:induction false} RepliesAre(s: State, evs: seq<Event>)
    requires Runs(s, evs)
    ensures AllId16(LostIn(evs)) && Run(s, evs).reply == s.reply + EncodeAll(Hangups(LostIn(evs)))
    decreases |evs|
  {
    hide Encode, DisconnectText, Decode, Deliver;
    if evs == [] {
      assert s.reply + [] == s.reply;
    } else {
      RepliesAre(Step(s, evs[0]), evs[1..]);
      match evs[0] {
        case Arrive(chunk) =>
          DeliverAllReplies(s, Decode(s.rest + chunk).frames);
          assert LostIn(evs) == LostIn(evs[1..]);
        case SocksUp(_) => assert LostIn(evs) == LostIn(evs[1..]);
        case SocksLost(id) =>
          var f, fs := Frame(0, DisconnectText(id)), Hangups(LostIn(evs[1..]));
          TextsFit(id, []);
          assert LostIn(evs)[0] == id && LostIn(evs)[1..] == LostIn(evs[1..]);
          assert Hangups(LostIn(evs)) == [f] + fs && ([f] + fs)[1..] == fs;
          Assoc(s.reply, Encode(f), EncodeAll(fs));
      }
    }
  }

  // So the multiplexer reads from it exactly those hang-ups.
  lemma HangupsArrive(evs: seq<Event>)
    requires Runs(START, evs)
    ensures var d, ids := Decode(Run(START, evs).reply), LostIn(evs);
            && d.rest == [] && |d.frames| == |ids|
            && forall i :: 0 <= i < |ids| ==> d.frames[i].id == 0 && HangupOf(d.frames[i].payload) == ids[i]
  {
    hide Run, Decode, HangupOf, DisconnectText, EncodeAll;
    RepliesAre(START, evs);
    var ids := LostIn(evs);
    assert [] + EncodeAll(Hangups(ids)) == EncodeAll(Hangups(ids));
    DecodeEncoded(Hangups(ids));
    forall i | 0 <= i < |ids|
      ensures HangupOf(Hangups(ids)[i].payload) == ids[i]
    {
      HangupRead(ids[i]);
    }
  }

  // A socket that is up, whose other end is gone, and that has been sent q.
  predicate LostWith(s: State, id: int, q: Bytes) {
    id in s.entries && s.entries[id].connected && s.entries[id].lost && s.entries[id].sent == q
  }

  lemma DeliverSkipsLost(s: State, f: Frame, id: int, q: Bytes)
    requires LostWith(s, id, q) && Deliver(s, f).sound
    ensures LostWith(Deliver(s, f), id, q)
  {
    hide NoteOf;
  }

  lemma {:induction false} DeliverAllSkipsLost(s: State, fs: seq<Frame>, id: int, q: Bytes)
    requires LostWith(s, id, q) && DeliverAll(s, fs).sound
    ensures LostWith(DeliverAll(s, fs), id, q)
    decreases |fs|
  {
    if fs != [] {
      var t := Deliver(s, fs[0]);
      if t.sound {
        DeliverSkipsLost(s, fs[0], id, q);
        hide Deliver, LostWith;
        DeliverAllSkipsLost(t, fs[1..], id, q);
      } else {
        UnsoundStays(t, fs[1..]);
      }
    }
  }

  // Such a socket is sent nothing more.
  lemma {:induction false} LostStays(s: State, evs: seq<Event>, id: int, q: Bytes)
    requires LostWith(s, id, q) && Runs(s, evs) && Run(s, evs).sound
    ensures LostWith(Run(s, evs), id, q)
    decreases |evs|
  {
    hide Encode, DisconnectText, Decode, DeliverAll;
    if evs != [] {
      var t := Step(s, evs[0]);
      if t.sound {
        assert LostWith(t, id, q) by {
          match evs[0] {
            case Arrive(chunk) => DeliverAllSkipsLost(s, Decode(s.rest + chunk).frames, id, q);
            case _ =>
          }
        }
        LostStays(t, evs[1..], id, q);
      } else {
        UnsoundRun(t, evs[1..]);
      }
    }
  }

  predicate Marked(s: State, id: int) { id in s.entries && s.entries[id].lost }

  lemma {:induction false} DeliverAllMarks(s: State, fs: seq<Frame>, id: int)
    ensures Marked(DeliverAll(s, fs), id) ==> Marked(s, id)
    decreases |fs|
  {
    hide NoteOf;
    if fs != [] {
      assert Marked(Deliver(s, fs[0]), id) ==> Marked(s, id);
      hide Deliver, Marked;
      DeliverAllMarks(Deliver(s, fs[0]), fs[1..], id);
    }
  }

  lemma {:induction false} MarkedWasLost(s: State, evs: seq<Event>, id: int)
    requires Runs(s, evs) && Marked(Run(s, evs), id)
    ensures Marked(s, id) || SocksLost(id) in evs
    decreases |evs|
  {
    hide Encode, DisconnectText, Decode, DeliverAll;
    if evs != [] {
      MarkedWasLost(Step(s, evs[0]), evs[1..], id);
      match evs[0] {
        case Arrive(chunk) => DeliverAllMarks(s, Decode(s.rest + chunk).frames, id);
        case _ =>
      }
    }
  }

  // A socket whose other end goes away has been sent exactly what had arrived for it until then, and gets nothing more
  // in any continuation in which the assertions hold.
  lemma LostGotWhatHadCome(ps: seq<Sent>, evs: seq<Event>, more: Bytes, id: int, later: seq<Event>)
    requires Proper({}, ps) && AllSent(ps) && Runs(START, evs) && Arrived(evs) + more == EncodeAll(FramesOf(ps))
    requires SocksLost(id) !in evs && Enabled(Run(START, evs), SocksLost(id))
    requires var t := Step(Run(START, evs), SocksLost(id)); Runs(t, later) && Run(t, later).sound
    ensures var t := Run(Step(Run(START, evs), SocksLost(id)), later); var l := LifeOf(Decode(Arrived(evs)).frames, id);
            id in t.entries && !l.Never? && t.entries[id].sent == l.bytes
  {
    hide Decode, Orderly, FramesOf, EncodeAll, Proper, Knows, Clashes, LifeOf, Encode, DisconnectText, CameIn;
    StartAgrees();
    SentFits([], {}, ps);
    SentDecodes(ps);
    assert [] + Arrived(evs) == Arrived(evs);
    DecodeMore(Arrived(evs), more);
    var d, s := Decode(Arrived(evs)), Run(START, evs);
    OrderlyParts([], d.frames, Decode(d.rest + more).frames);
    RunKeeps(START, [], {}, evs);
    var t := Step(s, SocksLost(id));
    if !s.sound {
      UnsoundRun(t, later);
    }
    hide Run, Runs;
    assert [] + d.frames == d.frames;
    assert Agrees(s, LifeOf(d.frames, id), CameIn({}, evs), id);
    if Marked(s, id) {
      MarkedWasLost(START, evs, id);
    }
    assert s.entries[id].sent + [] == s.entries[id].sent;
    LostStays(t, later, id, s.entries[id].sent);
  }

  lemma {:induction false} CameInIs(came: set<int>, evs: seq<Event>, id: int)
    ensures id in CameIn(came, evs) <==> id in came || SocksUp(id) in evs
    decreases |evs|
  {
    if evs != [] {
      CameInIs(Coming(came, evs[0]), evs[1..], id);
    }
  }

  // What the socket callbacks say: while the assertions hold, an entry is connected exactly if its socket has come up,
  // and lost exactly if its other end has gone.
  lemma EntriesFollowTheirSockets(ps: seq<Sent>, evs: seq<Event>, more: Bytes, id: int)
    requires Proper({}, ps) && AllSent(ps) && Runs(START, evs) && Arrived(evs) + more == EncodeAll(FramesOf(ps))
    requires Run(START, evs).sound
    ensures var s := Run(START, evs);
            && (id in s.entries && s.entries[id].connected <==> SocksUp(id) in evs)
            && (id in s.entries && s.entries[id].lost <==> SocksLost(id) in evs)
  {
    hide Decode, Orderly, Run, Runs, FramesOf, EncodeAll, Proper, Knows, Clashes, LifeOf, CameIn;
    StartAgrees();
    SentFits([], {}, ps);
    SentDecodes(ps);
    assert [] + Arrived(evs) == Arrived(evs);
    DecodeMore(Arrived(evs), more);
    var d := Decode(Arrived(evs));
    OrderlyParts([], d.frames, Decode(d.rest + more).frames);
    RunKeeps(START, [], {}, evs);
    assert [] + d.frames == d.frames;
    assert Agrees(Run(START, evs), LifeOf(d.frames, id), CameIn({}, evs), id);
    CameInIs({}, evs, id);
    hide Inv, Agrees;
    if Marked(Run(START, evs), id) {
      MarkedWasLost(START, evs, id);
    }
    if SocksLost(id) in evs {
      LostIsMarked(START, evs, id);
    }
  }

  lemma {:induction false} LostIsMarked(s: State, evs: seq<Event>, id: int)
    requires Runs(s, evs) && Run(s, evs).sound && SocksLost(id) in evs
    ensures Marked(Run(s, evs), id)
    decreases |evs|
  {
    hide Encode, DisconnectText, Decode, DeliverAll;
    var t := Step(s, evs[0]);
    if evs[0] == SocksLost(id) {
      LostStays(t, evs[1..], id, t.entries[id].sent);
    } else {
      LostIsMarked(t, evs[1..], id);
    }
  }

  // ---------------------------------------------------------------- the class

  class DemuxServer {
    var socksConns: map<int, Entry>
    var reply: Bytes
    ghost var sound: bool
    const buf: Buffer

    ghost function View(): State
      requires buf.Valid()
      reads this, buf, buf.data
    {
      State(socksConns, reply, sound, buf.Contents())
    }

    constructor ()
      ensures fresh(buf) && fresh(buf.data) && buf.Valid() && View() == START
    {
      socksConns, reply, sound := map[], [], true;
      buf := new Buffer();
    }

    // Bytes arrive in the connection's input buffer and onServerMessage is called.
    method OnServerMessage(chunk: Bytes)
      requires buf.Valid()
      modifies this, buf, buf.data
      ensures buf.Valid() && View() == Step(old(View()), Arrive(chunk))
      ensures buf.data == old(buf.data) || fresh(buf.data)
    {
      ghost var s := View();
      buf.Append(chunk);
      Drain(s.rest + chunk, s);
    }

    method Drain(ghost q: Bytes, ghost s: State)
      requires buf.Valid() && buf.Contents() == q && socksConns == s.entries && reply == s.reply && sound == s.sound
      modifies this, buf`readerIndex, buf`writerIndex
      ensures buf.Valid() && View() == DeliverAll(s, Decode(q).frames).(rest := Decode(q).rest)
    {
      hide Deliver, Ahead, HeadFrame, Decode, DeliverAll;
      AheadStart(q, s);
      var more := true;
      while more && buf.ReadableBytes() > HEADER_LEN
        invariant buf.Valid() && Ahead(View(), q, s)
        invariant !more ==> WholeFrame(buf.Contents()) < 0
        decreases more, buf.ReadableBytes()
      {
        var header := buf.Peek(HEADER_LEN);
        var len: int := header[0];
        if buf.ReadableBytes() < len + HEADER_LEN {
          more := false;
        } else {
          DrainOne(len, q, s);
        }
      }
      AheadEnd(View(), q, s);
    }

    // One frame of the loop.
    method DrainOne(len: nat, ghost q: Bytes, ghost s: State)
      requires buf.Valid() && Ahead(View(), q, s) && WholeFrame(buf.Contents()) == len
      modifies this, buf`readerIndex, buf`writerIndex
      ensures buf.Valid() && Ahead(View(), q, s) && buf.ReadableBytes() < old(buf.ReadableBytes())
    {
      hide Deliver, Ahead, HeadFrame, WholeFrame;
      AheadNext(View(), q, s);
      var frame := PeekFrame(buf, len);
      Dispatch(frame);
      buf.Retrieve(len + HEADER_LEN);
    }

    method Dispatch(f: Frame)
      modifies `socksConns, `sound
      ensures State(socksConns, reply, sound, []) == Deliver(State(old(socksConns), reply, old(sound), []), f)
    {
      if f.id != 0 {
        if f.id in socksConns {
          var e := socksConns[f.id];
          if e.connected {
            sound := sound && e.pending == [];
            socksConns := socksConns[f.id := if e.shut || e.lost then e else e.(sent := e.sent + f.payload)];
          } else {
            socksConns := socksConns[f.id := e.(pending := e.pending + f.payload)];
          }
        } else {
          sound := false;
        }
      } else {
        DoCommand(f.payload);
      }
    }

    method DoCommand(cmd: Bytes)
      modifies `socksConns, `sound
      ensures State(socksConns, reply, sound, []) == Carry(State(old(socksConns), reply, old(sound), []), NoteOf(cmd))
    {
      hide NoteOf;
      var note := NoteOf(cmd);
      if note.Up? {
        sound := sound && note.id !in socksConns;
        socksConns := socksConns[note.id := Entry(false, false, false, [], [])];
      } else if note.id in socksConns {
        if socksConns[note.id].connected {
          socksConns := socksConns[note.id := socksConns[note.id].(shut := true)];
        } else {
          socksConns := socksConns - {note.id};
        }
      } else {
        sound := false;
      }
    }

    method OnSocksConnection(connId: int, connected: bool)
      requires buf.Valid() && Enabled(View(), if connected then SocksUp(connId) else SocksLost(connId))
      modifies `socksConns, `reply
      ensures buf.Valid() && View() == Step(old(View()), if connected then SocksUp(connId) else SocksLost(connId))
    {
      hide Encode, DisconnectText;
      if connected {
        var e := socksConns[connId].(connected := true);
        assert e.sent + [] == e.sent;
        if |e.pending| > 0 {
          e := e.(sent := e.sent + e.pending, pending := []);
        }
        socksConns := socksConns[connId := e];
      } else {
        socksConns := socksConns[connId := socksConns[connId].(lost := true)];
        TextsFit(connId, []);
        var packet := SendPacket(0, DisconnectText(connId));
        reply := reply + packet;
      }
    }
  }

  // The loop of onServerMessage: what is still in the buffer, delivered to where the loop stands, is all of it.
  ghost predicate Ahead(v: State, q: Bytes, s: State) {
    DeliverAll(v, Decode(v.rest).frames).(rest := Decode(v.rest).rest) == DeliverAll(s, Decode(q).frames).(rest := Decode(q).rest)
  }

  lemma DeliverRest(s: State, f: Frame, r: Bytes)
    ensures Deliver(s.(rest := r), f) == Deliver(s, f).(rest := r)
  {
    hide NoteOf;
  }

  lemma {:induction false} RestIrrelevant(s: State, fs: seq<Frame>, r: Bytes)
    ensures DeliverAll(s.(rest := r), fs) == DeliverAll(s, fs).(rest := r)
    decreases |fs|
  {
    if fs != [] {
      DeliverRest(s, fs[0], r);
      hide Deliver;
      RestIrrelevant(Deliver(s, fs[0]), fs[1..], r);
    }
  }

  lemma AheadStart(q: Bytes, s: State)
    ensures Ahead(s.(rest := q), q, s)
  {
    RestIrrelevant(s, Decode(q).frames, q);
  }

  lemma AheadNext(v: State, q: Bytes, s: State)
    requires Ahead(v, q, s) && WholeFrame(v.rest) >= 0
    ensures var tail := v.rest[HEADER_LEN + WholeFrame(v.rest)..];
            Ahead(Deliver(v.(rest := []), HeadFrame(v.rest)).(rest := tail), q, s)
  {
    hide Deliver, HeadFrame, WholeFrame;
    var tail, f := v.rest[HEADER_LEN + WholeFrame(v.rest)..], HeadFrame(v.rest);
    var d := Decode(tail);
    assert ([f] + d.frames)[0] == f && ([f] + d.frames)[1..] == d.frames;
    DeliverRest(v, f, []);
    RestIrrelevant(Deliver(v, f), d.frames, tail);
  }

  lemma AheadEnd(v: State, q: Bytes, s: State)
    requires Ahead(v, q, s) && WholeFrame(v.rest) < 0
    ensures v == DeliverAll(s, Decode(q).frames).(rest := Decode(q).rest)
  {
  }
}
