/** The sending side of a TCP connection in its loop thread: direct writes, the output queue, write interest and the
  half-close.  How much a write takes, and how it fails, is up to the kernel. */
module TcpConnection {

  type Bytes = seq<int>

  datatype ConnState = Connecting | Connected | Disconnecting | Disconnected

  // What write(2) may answer for len bytes: a count, or an error.
  datatype WriteResult = Wrote(n: nat) | WouldBlock | BrokenPipe | OtherError

  predicate Possible(r: WriteResult, len: nat) { r.Wrote? ==> r.n <= len }

  // A message that send accepted, and whether it was given up because of EPIPE.
  datatype Message = Message(data: Bytes, lost: bool)

  datatype Callback = WriteComplete | HighWaterMark(size: nat)

  datatype State = State(
    state: ConnState, writing: bool, outputBuffer: Bytes,
    sent: Bytes,                   // taken by the socket so far
    messages: seq<Message>,        // accepted so far
    shutdowns: nat, sentAtShutdown: nat,
    callbacks: seq<Callback>)      // queued to the loop

  datatype Action =
    | Establish
    | Send(data: Bytes, result: WriteResult)   // the result counts only if send writes directly
    | Queued(data: Bytes, result: WriteResult) // sendInLoop as a functor that another thread's send has queued
    | HandleWrite(result: WriteResult)
    | Shutdown
    | HandleClose

  // What arrives at the peer, in order, once everything is sent.
  function Due(messages: seq<Message>): Bytes {
    if messages == [] then []
    else
      var m := messages[|messages| - 1];
      Due(messages[..|messages| - 1]) + if m.lost then [] else m.data
  }

  function ShutdownStep(s: State): State {
    if s.writing then s else s.(shutdowns := s.shutdowns + 1, sentAtShutdown := |s.sent|)
  }

  // The second half of sendInLoop: what is left goes to the output buffer.
  function Enqueued(s: State, rest: Bytes, highWaterMark: nat): State {
    if rest == [] then s
    else
      var oldLen := |s.outputBuffer|;
      var cb := if oldLen + |rest| >= highWaterMark && oldLen < highWaterMark then [HighWaterMark(oldLen + |rest|)] else [];
      s.(outputBuffer := s.outputBuffer + rest, writing := true, callbacks := s.callbacks + cb)
  }

  function SendStep(s: State, data: Bytes, result: WriteResult, highWaterMark: nat): State
    requires Possible(result, |data|)
  {
    if s.state == Disconnected then s
    else if !s.writing && s.outputBuffer == [] then
      match result
      case Wrote(n) =>
        var s1 := s.(sent := s.sent + data[..n], messages := s.messages + [Message(data, false)]);
        if n == |data| then s1.(callbacks := s.callbacks + [WriteComplete]) else Enqueued(s1, data[n..], highWaterMark)
      case BrokenPipe => s.(messages := s.messages + [Message(data, true)])
      case _ => Enqueued(s.(messages := s.messages + [Message(data, false)]), data, highWaterMark)
    else Enqueued(s.(messages := s.messages + [Message(data, false)]), data, highWaterMark)
  }

  function HandleWriteStep(s: State, result: WriteResult): State
    requires Possible(result, |s.outputBuffer|)
  {
    if s.writing && result.Wrote? && result.n > 0 then
      var s1 := s.(sent := s.sent + s.outputBuffer[..result.n], outputBuffer := s.outputBuffer[result.n..]);
      if s1.outputBuffer == [] then
        var s2 := s1.(writing := false, callbacks := s1.callbacks + [WriteComplete]);
        if s2.state == Disconnecting then ShutdownStep(s2) else s2
      else s1
    else s
  }

  // send queues its functor only on a connection that is up. When the functor runs, the state is not tested again except
  // for kDisconnected, so it may find the write side shut down: then the kernel answers EPIPE (shutdown(2), write(2)).
  predicate Enabled(s: State, a: Action) {
    match a
    case Establish => s.state == Connecting
    case Send(data, result) => Possible(result, |data|)
    case Queued(data, result) => s.state != Connecting && Possible(result, |data|) && (s.shutdowns > 0 ==> result.BrokenPipe?)
    case HandleWrite(result) => Possible(result, |s.outputBuffer|)
    case Shutdown => true
    case HandleClose => s.state == Connected || s.state == Disconnecting
  }

  function Apply(s: State, a: Action, highWaterMark: nat): State
    requires Enabled(s, a)
  {
    match a
    case Establish => s.(state := Connected)
    case Send(data, result) => if s.state == Connected then SendStep(s, data, result, highWaterMark) else s
    case Queued(data, result) => SendStep(s, data, result, highWaterMark)
    case HandleWrite(result) => HandleWriteStep(s, result)
    case Shutdown => if s.state == Connected then ShutdownStep(s.(state := Disconnecting)) else s
    case HandleClose => s.(state := Disconnected, writing := false)
  }

  const START := State(Connecting, false, [], [], [], 0, 0, [])

  ghost predicate Runs(s: State, acts: seq<Action>, mark: nat)
    decreases |acts|
  {
    acts == [] || (Enabled(s, acts[0]) && Runs(Apply(s, acts[0], mark), acts[1..], mark))
  }

  ghost function Run(s: State, acts: seq<Action>, mark: nat): State
    requires Runs(s, acts, mark)
    decreases |acts|
  {
    if acts == [] then s else Run(Apply(s, acts[0], mark), acts[1..], mark)
  }

  // Nothing is lost or reordered on the way to the socket.
  predicate Conserved(s: State) { s.sent + s.outputBuffer == Due(s.messages) }

  predicate Open(s: State) { s.state != Disconnected }

  // Until the connection is closed, write interest is on exactly while something is queued.
  predicate Interest(s: State) { Open(s) ==> (s.writing <==> s.outputBuffer != []) }

  // The write side is shut down once, when the last byte has left, and nothing is written afterwards.
  predicate HalfClosed(s: State) {
    && s.shutdowns <= 1
    && (s.shutdowns == 1 ==> s.outputBuffer == [] && !s.writing && |s.sent| == s.sentAtShutdown)
    && (s.shutdowns == 1 ==> s.state == Disconnecting || s.state == Disconnected)
    && (s.state == Disconnecting && s.outputBuffer == [] ==> s.shutdowns == 1)
    && (s.state == Connecting ==> s.messages == [] && s.outputBuffer == [] && s.shutdowns == 0)
    && (s.state == Disconnected ==> !s.writing)
  }

  predicate Inv(s: State) { Conserved(s) && Interest(s) && HalfClosed(s) }

  lemma DueAppend(ms: seq<Message>, m: Message)
    ensures Due(ms + [m]) == Due(ms) + if m.lost then [] else m.data
  {
    assert (ms + [m])[..|ms|] == ms;
  }

  lemma SendKeepsInterest(s: State, data: Bytes, result: WriteResult, mark: nat)
    requires Interest(s) && HalfClosed(s) && s.state != Connecting && Possible(result, |data|) && (s.shutdowns > 0 ==> result.BrokenPipe?)
    ensures Interest(SendStep(s, data, result, mark)) && HalfClosed(SendStep(s, data, result, mark))
  {
  }

  lemma SendConserves(s: State, data: Bytes, result: WriteResult, mark: nat)
    requires Conserved(s) && Possible(result, |data|)
    ensures Conserved(SendStep(s, data, result, mark))
  {
    DueAppend(s.messages, Message(data, false));
    DueAppend(s.messages, Message(data, true));
    hide Due;
    assert s.sent + (s.outputBuffer + data) == s.sent + s.outputBuffer + data;
    if result.Wrote? {
      assert data == data[..result.n] + data[result.n..];
      assert s.sent + data[..result.n] + data[result.n..] == s.sent + data;
    }
  }

  lemma SendKeeps(s: State, data: Bytes, result: WriteResult, mark: nat)
    requires Inv(s) && s.state != Connecting && Possible(result, |data|) && (s.shutdowns > 0 ==> result.BrokenPipe?)
    ensures Inv(SendStep(s, data, result, mark))
  {
    hide Conserved, Interest, HalfClosed, SendStep;
    SendKeepsInterest(s, data, result, mark);
    SendConserves(s, data, result, mark);
  }

  lemma HandleWriteKeeps(s: State, result: WriteResult)
    requires Inv(s) && Possible(result, |s.outputBuffer|)
    ensures Inv(HandleWriteStep(s, result))
  {
    hide Due;
    if result.Wrote? {
      assert s.outputBuffer == s.outputBuffer[..result.n] + s.outputBuffer[result.n..];
      assert s.sent + s.outputBuffer[..result.n] + s.outputBuffer[result.n..] == s.sent + s.outputBuffer;
    }
  }

  lemma StepKeeps(s: State, a: Action, mark: nat)
    requires Inv(s) && Enabled(s, a)
    ensures Inv(Apply(s, a, mark))
  {
    hide Due;
    match a
    case Send(data, result) => if s.state == Connected { SendKeeps(s, data, result, mark); }
    case Queued(data, result) => SendKeeps(s, data, result, mark);
    case HandleWrite(result) => HandleWriteKeeps(s, result);
    case _ =>
  }

  // Over every loop-thread run: what the socket took, then what is queued, is every accepted message but the ones
  // given up on EPIPE.
  lemma {:induction false} RunKeeps(s: State, acts: seq<Action>, mark: nat)
    requires Inv(s) && Runs(s, acts, mark)
    ensures Inv(Run(s, acts, mark))
    decreases |acts|
  {
    hide Inv, Apply, Enabled;
    if acts != [] {
      StepKeeps(s, acts[0], mark);
      RunKeeps(Apply(s, acts[0], mark), acts[1..], mark);
    }
  }

  lemma ConnectionKeeps(acts: seq<Action>, mark: nat)
    requires Runs(START, acts, mark)
    ensures Inv(Run(START, acts, mark))
  {
    assert Inv(START);
    RunKeeps(START, acts, mark);
  }

  // Once the write side is shut down, no continuation of the run gives the socket another byte or shuts it down again.
  lemma {:induction false} SilentAfterShutdown(s: State, acts: seq<Action>, mark: nat)
    requires Inv(s) && s.shutdowns == 1 && Runs(s, acts, mark)
    ensures Run(s, acts, mark).sent == s.sent && Run(s, acts, mark).shutdowns == 1
    decreases |acts|
  {
    if acts != [] {
      StepKeeps(s, acts[0], mark);
      assert Apply(s, acts[0], mark).sent == s.sent && Apply(s, acts[0], mark).shutdowns == 1;
      hide Inv, Apply, Enabled;
      SilentAfterShutdown(Apply(s, acts[0], mark), acts[1..], mark);
    }
  }

  // A functor that runs after the half-close gives its whole message up, without a word; one that runs before it is
  // queued, and puts the half-close off.
  lemma LateFunctor(s: State, data: Bytes, result: WriteResult, mark: nat)
    requires Inv(s) && s.state == Disconnecting && Enabled(s, Queued(data, result))
    ensures var t := Apply(s, Queued(data, result), mark);
            && (s.shutdowns == 1 ==> t == s.(messages := s.messages + [Message(data, true)]))
            && (s.shutdowns == 0 ==> t.messages == s.messages + [Message(data, false)] && t.outputBuffer == s.outputBuffer + data
                                     && t.sent == s.sent && t.writing && t.shutdowns == 0)
  {
    hide Due;
    if data == [] {
      assert s.outputBuffer + data == s.outputBuffer;
    }
  }

  // Such a run: a send that was queued before shutdown() and runs after it.
  lemma QueuedSendIsLost(mark: nat)
    ensures var acts := [Establish, Shutdown, Queued([1], BrokenPipe)];
            && Runs(START, acts, mark)
            && var s := Run(START, acts, mark); s.messages == [Message([1], true)] && s.sent == [] && s.outputBuffer == [] && s.callbacks == []
  {
    var acts := [Establish, Shutdown, Queued([1], BrokenPipe)];
    var s1 := Apply(START, acts[0], mark);
    var s2 := Apply(s1, acts[1], mark);
    var s3 := Apply(s2, acts[2], mark);
    assert acts[1..] == [acts[1], acts[2]] && acts[1..][1..] == [acts[2]] && [acts[2]][1..] == [];
    assert Runs(s3, [], mark);
    assert Runs(s2, [acts[2]], mark) && Run(s2, [acts[2]], mark) == s3;
    assert Runs(s1, acts[1..], mark) && Run(s1, acts[1..], mark) == s3;
  }

  // What a send reports: completion if the kernel took it all, the high-water mark if the queue grew across it.
  lemma SendReports(s: State, data: Bytes, result: WriteResult, mark: nat)
    requires Interest(s) && s.state != Disconnected && Possible(result, |data|)
    ensures var t := SendStep(s, data, result, mark);
            t.callbacks == s.callbacks + if s.outputBuffer == [] && result == Wrote(|data|) then [WriteComplete]
                                         else if |s.outputBuffer| < mark <= |t.outputBuffer| then [HighWaterMark(|t.outputBuffer|)]
                                         else []
  {
    assert s.callbacks + [] == s.callbacks;
  }

  // The high-water mark is reported exactly when the queue grows across it.
  lemma HighWaterMarkCrossed(s: State, data: Bytes, result: WriteResult, mark: nat)
    requires Inv(s) && Possible(result, |data|)
    ensures var t := SendStep(s, data, result, mark);
            |s.outputBuffer| < mark <= |t.outputBuffer| <==> HighWaterMark(|t.outputBuffer|) in t.callbacks[|s.callbacks|..]
  {
    var t := SendStep(s, data, result, mark);
    if s.state != Disconnected {
      assert result == Wrote(|data|) && s.outputBuffer == [] ==> t.outputBuffer == [];
      SendReports(s, data, result, mark);
    }
    hide Conserved, HalfClosed, Interest, SendStep;
  }

  // Nor does a closed connection.
  lemma {:induction false} SilentAfterClose(s: State, acts: seq<Action>, mark: nat)
    requires Inv(s) && s.state == Disconnected && Runs(s, acts, mark)
    ensures var t := Run(s, acts, mark); t.state == Disconnected && t.sent == s.sent && t.outputBuffer == s.outputBuffer && t.messages == s.messages
    decreases |acts|
  {
    if acts != [] {
      StepKeeps(s, acts[0], mark);
      var t := Apply(s, acts[0], mark);
      assert t.state == Disconnected && t.sent == s.sent && t.outputBuffer == s.outputBuffer && t.messages == s.messages;
      hide Inv, Apply, Enabled;
      SilentAfterClose(t, acts[1..], mark);
    }
  }

  // ---------------------------------------------------------------- what a run has been asked

  // The connection's state, read off the actions.
  function StateAfter(st: ConnState, acts: seq<Action>): ConnState
    decreases |acts|
  {
    if acts == [] then st
    else StateAfter(match acts[0]
                    case Establish => Connected
                    case Shutdown => if st == Connected then Disconnecting else st
                    case HandleClose => Disconnected
                    case _ => st, acts[1..])
  }

  // What it has been given to send: by send while it was up, and by functors until it was closed; with what the kernel
  // would answer to a direct write.
  datatype Given = Given(data: Bytes, result: WriteResult)

  function GivenAfter(st: ConnState, acts: seq<Action>): seq<Given>
    decreases |acts|
  {
    if acts == [] then []
    else GivenBy(st, acts[0]) + GivenAfter(StateAfter(st, [acts[0]]), acts[1..])
  }

  function GivenBy(st: ConnState, a: Action): seq<Given> {
    if (a.Send? && st == Connected) || (a.Queued? && st != Disconnected) then [Given(a.data, a.result)] else []
  }

  // Every message is one that was given, in order, and none is given up unless the kernel would answer EPIPE.
  predicate Matches(ms: seq<Message>, gs: seq<Given>) {
    |ms| == |gs| && forall i :: 0 <= i < |ms| ==> ms[i].data == gs[i].data && (ms[i].lost ==> gs[i].result.BrokenPipe?)
  }

  lemma SendFollows(s: State, data: Bytes, result: WriteResult, mark: nat)
    requires s.state != Disconnected && Possible(result, |data|)
    ensures var t := SendStep(s, data, result, mark);
            t.state == s.state && exists lost :: t.messages == s.messages + [Message(data, lost)] && (lost ==> result.BrokenPipe?)
  {
    var lost := !s.writing && s.outputBuffer == [] && result.BrokenPipe?;
    assert SendStep(s, data, result, mark).messages == s.messages + [Message(data, lost)];
  }

  lemma StepFollows(s: State, a: Action, mark: nat)
    requires Enabled(s, a)
    ensures var t := Apply(s, a, mark);
            && t.state == StateAfter(s.state, [a])
            && |t.messages| >= |s.messages| && t.messages[..|s.messages|] == s.messages
            && Matches(t.messages[|s.messages|..], GivenBy(s.state, a))
  {
    assert [a][1..] == [];
    var t := Apply(s, a, mark);
    if (a.Send? && s.state == Connected) || (a.Queued? && s.state != Disconnected) {
      SendFollows(s, a.data, a.result, mark);
      hide SendStep;
      var lost :| t.messages == s.messages + [Message(a.data, lost)] && (lost ==> a.result.BrokenPipe?);
      assert t.messages[|s.messages|..] == [Message(a.data, lost)];
    } else {
      assert t.messages == s.messages;
      assert s.messages[|s.messages|..] == [];
    }
  }

  lemma MatchesJoin(ms: seq<Message>, gs: seq<Given>, ns: seq<Message>, hs: seq<Given>)
    requires Matches(ms, gs) && Matches(ns, hs)
    ensures Matches(ms + ns, gs + hs)
  {
  }

  lemma {:induction false} RunFollows(s: State, acts: seq<Action>, mark: nat)
    requires Runs(s, acts, mark)
    ensures var t := Run(s, acts, mark);
            && t.state == StateAfter(s.state, acts)
            && |t.messages| >= |s.messages| && t.messages[..|s.messages|] == s.messages
            && Matches(t.messages[|s.messages|..], GivenAfter(s.state, acts))
    decreases |acts|
  {
    hide Apply, Enabled;
    if acts == [] {
      assert s.messages[|s.messages|..] == [];
    } else {
      var mid, t := Apply(s, acts[0], mark), Run(s, acts, mark);
      StepFollows(s, acts[0], mark);
      RunFollows(mid, acts[1..], mark);
      assert [acts[0]][1..] == [];
      MatchesJoin(mid.messages[|s.messages|..], GivenBy(s.state, acts[0]),
                  t.messages[|mid.messages|..], GivenAfter(mid.state, acts[1..]));
      hide Matches;
      TailsJoin(s.messages, mid.messages, t.messages);
    }
  }

  lemma TailsJoin(a: seq<Message>, b: seq<Message>, c: seq<Message>)
    requires |a| <= |b| <= |c| && b[..|a|] == a && c[..|b|] == b
    ensures c[..|a|] == a && c[|a|..] == b[|a|..] + c[|b|..]
  {
    assert c == b + c[|b|..];
  }

  // In every run of the loop thread: what the socket took and then what is queued are, in order, exactly the data given
  // to a connection that was up, without those for which the kernel answered EPIPE.
  lemma EverythingGivenIsSent(acts: seq<Action>, mark: nat)
    requires Runs(START, acts, mark)
    ensures var s := Run(START, acts, mark);
            && s.state == StateAfter(Connecting, acts)
            && Matches(s.messages, GivenAfter(Connecting, acts))
            && s.sent + s.outputBuffer == Due(s.messages)
  {
    ConnectionKeeps(acts, mark);
    RunFollows(START, acts, mark);
    var s := Run(START, acts, mark);
    assert s.messages[0..] == s.messages;
  }

  // A send moves what the kernel takes at once and queues the rest behind what is queued already; it gives a message up
  // exactly if nothing was queued and the kernel answers EPIPE.
  lemma SendMoves(s: State, data: Bytes, result: WriteResult, mark: nat)
    requires Inv(s) && s.state != Disconnected && s.state != Connecting && Possible(result, |data|)
    ensures var t := SendStep(s, data, result, mark);
            && t.state == s.state && t.shutdowns == s.shutdowns
            && t.messages == s.messages + [Message(data, s.outputBuffer == [] && result.BrokenPipe?)]
            && t.sent == (if s.outputBuffer == [] && result.Wrote? then s.sent + data[..result.n] else s.sent)
            && t.outputBuffer == (if s.outputBuffer == [] && result.Wrote? then data[result.n..]
                                  else if s.outputBuffer == [] && result.BrokenPipe? then []
                                  else s.outputBuffer + data)
  {
    hide Due;
    assert [] + data == data;
    assert s.outputBuffer + [] == s.outputBuffer;
  }

  // A writable socket takes the first bytes of the queue; the last of them ends the interest, is reported, and lets a
  // pending half-close go on.
  lemma HandleWriteMoves(s: State, result: WriteResult)
    requires Inv(s) && s.state != Disconnected && Possible(result, |s.outputBuffer|)
    ensures var t := HandleWriteStep(s, result);
            && t.state == s.state && t.messages == s.messages
            && (if result.Wrote? then t.sent == s.sent + s.outputBuffer[..result.n] && t.outputBuffer == s.outputBuffer[result.n..]
                else t.sent == s.sent && t.outputBuffer == s.outputBuffer)
            && (t.callbacks == s.callbacks + if s.outputBuffer != [] && result == Wrote(|s.outputBuffer|) then [WriteComplete] else [])
            && (t.shutdowns == s.shutdowns + if s.outputBuffer != [] && result == Wrote(|s.outputBuffer|) && s.state == Disconnecting then 1 else 0)
  {
    hide Due;
    if result.Wrote? && result.n == 0 {
      assert s.outputBuffer[..0] == [] && s.outputBuffer[0..] == s.outputBuffer && s.sent + [] == s.sent;
    }
    assert s.callbacks + [] == s.callbacks;
  }

  // A shutdown is passed on at once exactly if nothing is queued.
  lemma ShutdownMoves(s: State, mark: nat)
    requires Inv(s) && s.state == Connected
    ensures var t := Apply(s, Shutdown, mark);
            && t.state == Disconnecting && t.sent == s.sent && t.outputBuffer == s.outputBuffer && t.messages == s.messages
            && t.shutdowns == s.shutdowns + if s.outputBuffer == [] then 1 else 0
  {
    hide Due;
  }

  // ---------------------------------------------------------------- the class

  class TcpConnection {
    var state: ConnState
    var writing: bool
    var outputBuffer: Bytes
    var callbacks: seq<Callback>
    const highWaterMark: nat
    ghost var sent: Bytes
    ghost var messages: seq<Message>
    ghost var shutdowns: nat
    ghost var sentAtShutdown: nat

    ghost function View(): State
      reads this
    {
      State(state, writing, outputBuffer, sent, messages, shutdowns, sentAtShutdown, callbacks)
    }

    constructor (mark: nat)
      ensures View() == START && highWaterMark == mark
    {
      highWaterMark := mark;
      state, writing, outputBuffer, callbacks := Connecting, false, [], [];
      sent, messages, shutdowns, sentAtShutdown := [], [], 0, 0;
    }

    method SendInLoop(data: Bytes, result: WriteResult)
      requires Possible(result, |data|)
      modifies this
      ensures View() == SendStep(old(View()), data, result, highWaterMark)
    {
      var nwrote := 0;
      var remaining := |data|;
      var error := false;
      if state == Disconnected {
        return;
      }
      ghost var lost := false;
      if !writing && outputBuffer == [] {
        match result {
          case Wrote(n) =>
            nwrote := n;
            remaining := |data| - nwrote;
            if remaining == 0 {
              callbacks := callbacks + [WriteComplete];
            }
          case WouldBlock =>
          case BrokenPipe =>
            error := true;
            lost := true;
          case OtherError =>
        }
      }
      messages := messages + [Message(data, lost)];
      sent := sent + data[..nwrote];
      assert data[0..] == data && old(sent) + data[..0] == old(sent);
      if !error && remaining > 0 {
        QueueRest(data[nwrote..]);
      }
    }

    // The second half of sendInLoop.
    method QueueRest(rest: Bytes)
      requires rest != []
      modifies `outputBuffer, `writing, `callbacks
      ensures View() == Enqueued(old(View()), rest, highWaterMark)
    {
      var oldLen := |outputBuffer|;
      if oldLen + |rest| >= highWaterMark && oldLen < highWaterMark {
        callbacks := callbacks + [HighWaterMark(oldLen + |rest|)];
      }
      outputBuffer := outputBuffer + rest;
      if !writing {
        writing := true;
      }
    }

    // The functor that send queues from another thread.
    method RunQueued(data: Bytes, result: WriteResult)
      requires Enabled(View(), Queued(data, result))
      modifies this
      ensures View() == Apply(old(View()), Queued(data, result), highWaterMark)
    {
      SendInLoop(data, result);
    }

    method Send(data: Bytes, result: WriteResult)
      requires Possible(result, |data|)
      modifies this
      ensures View() == Apply(old(View()), Action.Send(data, result), highWaterMark)
    {
      if state == Connected {
        SendInLoop(data, result);
      }
    }

    method HandleWrite(result: WriteResult)
      requires Possible(result, |outputBuffer|)
      modifies this
      ensures View() == Apply(old(View()), Action.HandleWrite(result), highWaterMark)
    {
      if writing {
        if result.Wrote? && result.n > 0 {
          sent := sent + outputBuffer[..result.n];
          outputBuffer := outputBuffer[result.n..];
          if outputBuffer == [] {
            writing := false;
            callbacks := callbacks + [WriteComplete];
            if state == Disconnecting {
              ShutdownInLoop();
            }
          }
        }
      }
    }

    method ShutdownInLoop()
      modifies `shutdowns, `sentAtShutdown
      ensures View() == ShutdownStep(old(View()))
    {
      if !writing {
        // socket_->shutdownWrite()
        shutdowns := shutdowns + 1;
        sentAtShutdown := |sent|;
      }
    }

    method Shutdown()
      modifies this
      ensures View() == Apply(old(View()), Action.Shutdown, highWaterMark)
    {
      if state == Connected {
        state := Disconnecting;
        ShutdownInLoop();
      }
    }

    method HandleClose()
      requires Enabled(View(), Action.HandleClose)
      modifies this
      ensures View() == Apply(old(View()), Action.HandleClose, highWaterMark)
    {
      state := Disconnected;
      writing := false;
    }
  }
}
