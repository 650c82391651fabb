/** The run loop of an EventLoop: the functor queue that any thread may push to, and the eventfd that gets the loop
  out of poll.  A step is what one thread does between two points where another thread can see the difference: the
  critical section of queueInLoop, the write in wakeup, the swap in doPendingFunctors, one functor. */
module EventLoop {
  import opened Seqs

  // Functors are told apart by numbers, threads too; the loop thread is not among the others.
  type Functor = int
  type Thread = int

  // Where the loop thread stands.
  datatype Place =
    | Outside                     // before loop(), or after it has returned
    | AtCheck                     // about to test quit_
    | InPoll                      // blocked, or about to block
    | Handling(wakeup: bool)      // running channel callbacks; wakeup: the eventfd channel is active and not yet handled
    | BeforeSwap                  // in doPendingFunctors, callingPendingFunctors_ set
    | Running                     // after the swap, in or between functors
    | RunningWake                 // a functor has pushed and is about to call wakeup

  datatype State = State(
    place: Place, quit: bool, calling: bool, eventfd: nat,
    pending: seq<Functor>,        // pendingFunctors_
    taken: seq<Functor>,          // swapped out and not yet run
    executed: seq<Functor>, queued: seq<Functor>,
    waking: set<Thread>)          // threads between their push or quit and their wakeup

  datatype Action =
    | Push(t: Thread, f: Functor)     // queueInLoop on another thread, up to the unlock
    | SetQuit(t: Thread)              // quit on another thread, up to the wakeup
    | Wake(t: Thread)                 // its wakeup
    | QueueHere(f: Functor)           // queueInLoop on the loop thread
    | WakeHere                        // and its wakeup, when it makes one
    | QuitHere                        // quit on the loop thread
    | StartLoop
    | Check                           // while (!quit_)
    | PollReturns                     // by an event, the timeout or the eventfd
    | HandleRead                      // the eventfd channel's callback
    | HandlingDone
    | Swap
    | RunOne
    | RunDone

  predicate Enabled(s: State, a: Action) {
    match a
    case Push(t, _) => t !in s.waking
    case SetQuit(t) => t !in s.waking
    case Wake(t) => t in s.waking
    case QueueHere(_) => s.place.Outside? || s.place.Handling? || s.place.Running?
    case WakeHere => s.place.RunningWake?
    case QuitHere => s.place.Outside? || s.place.Handling? || s.place.Running?
    case StartLoop => s.place.Outside?
    case Check => s.place.AtCheck?
    case PollReturns => s.place.InPoll?
    case HandleRead => s.place.Handling? && s.place.wakeup
    case HandlingDone => s.place.Handling? && !s.place.wakeup
    case Swap => s.place.BeforeSwap?
    case RunOne => s.place.Running? && s.taken != []
    case RunDone => s.place.Running? && s.taken == []
  }

  function Pushed(s: State, f: Functor): State {
    s.(pending := s.pending + [f], queued := s.queued + [f])
  }

  // loop() begins by clearing quit_.
  function Apply(s: State, a: Action): State
    requires Enabled(s, a)
  {
    match a
    case Push(t, f) => Pushed(s, f).(waking := s.waking + {t})
    case SetQuit(t) => s.(quit := true, waking := s.waking + {t})
    case Wake(t) => s.(eventfd := s.eventfd + 1, waking := s.waking - {t})
    case QueueHere(f) => if s.calling then Pushed(s, f).(place := RunningWake) else Pushed(s, f)
    case WakeHere => s.(eventfd := s.eventfd + 1, place := Running)
    case QuitHere => s.(quit := true)
    case StartLoop => s.(place := AtCheck, quit := false)
    case Check => s.(place := if s.quit then Outside else InPoll)
    case PollReturns => s.(place := Handling(s.eventfd > 0))
    case HandleRead => s.(place := Handling(false), eventfd := 0)
    case HandlingDone => s.(place := BeforeSwap, calling := true)
    case Swap => s.(place := Running, taken := s.pending, pending := [])
    case RunOne => s.(executed := s.executed + [s.taken[0]], taken := s.taken[1..])
    case RunDone => s.(place := AtCheck, calling := false)
  }

  const START := State(Outside, false, false, 0, [], [], [], [], {})

  ghost predicate Runs(s: State, acts: seq<Action>)
    decreases |acts|
  {
    acts == [] || (Enabled(s, acts[0]) && Runs(Apply(s, acts[0]), acts[1..]))
  }

  ghost function Run(s: State, acts: seq<Action>): State
    requires Runs(s, acts)
    decreases |acts|
  {
    if acts == [] then s else Run(Apply(s, acts[0]), acts[1..])
  }

  // The eventfd is readable, or someone is about to make it so.
  predicate Signalled(s: State) {
    s.eventfd > 0 || s.waking != {} || s.place.RunningWake?
  }

  // Everything queued is run, being run or pending, in the order in which it was queued.
  predicate Conserved(s: State) {
    && s.executed + s.taken + s.pending == s.queued
    && (s.taken != [] ==> s.place.Running? || s.place.RunningWake?)
  }

  predicate Inv(s: State) {
    && Conserved(s)
    && (s.place.InPoll? && s.quit ==> Signalled(s))
    && (s.calling <==> s.place.BeforeSwap? || s.place.Running? || s.place.RunningWake?)
  }

  lemma StepKeeps(s: State, a: Action)
    requires Inv(s) && Enabled(s, a)
    ensures Inv(Apply(s, a))
  {
    var s' := Apply(s, a);
    match a
    case Push(t, f) => assert s'.executed + s'.taken + s'.pending == s.queued + [f];
    case QueueHere(f) => assert s'.executed + s'.taken + s'.pending == s.queued + [f];
    case Swap => assert s'.executed + s'.taken + s'.pending == s.queued;
    case RunOne => assert s.taken == [s.taken[0]] + s.taken[1..]; assert s'.executed + s'.taken + s'.pending == s.queued;
    case SetQuit(t) => assert t in s'.waking;
    case _ =>
  }

  lemma {:induction false} RunKeeps(s: State, acts: seq<Action>)
    requires Inv(s) && Runs(s, acts)
    ensures Inv(Run(s, acts))
    decreases |acts|
  {
    if acts != [] {
      StepKeeps(s, acts[0]);
      hide Inv, Enabled, Apply;
      RunKeeps(Apply(s, acts[0]), acts[1..]);
    }
  }

  // What a run has handed in, in order, read off its actions.
  function FunctorsOf(acts: seq<Action>): seq<Functor> {
    if acts == [] then []
    else (if acts[0].Push? || acts[0].QueueHere? then [acts[0].f] else []) + FunctorsOf(acts[1..])
  }

  lemma {:induction false} QueuedAre(s: State, acts: seq<Action>)
    requires Runs(s, acts)
    ensures Run(s, acts).queued == s.queued + FunctorsOf(acts)
    decreases |acts|
  {
    if acts == [] {
      assert s.queued + [] == s.queued;
    } else {
      var mine := if acts[0].Push? || acts[0].QueueHere? then [acts[0].f] else [];
      assert Apply(s, acts[0]).queued == s.queued + mine;
      QueuedAre(Apply(s, acts[0]), acts[1..]);
      hide Apply, Enabled;
      Assoc(s.queued, mine, FunctorsOf(acts[1..]));
    }
  }

  // Every functor handed in, by any thread, is run, being run or pending, in the order in which they were handed in,
  // each once; so those run are the first of them.
  lemma RunInOrder(acts: seq<Action>)
    requires Runs(START, acts)
    ensures var s := Run(START, acts);
            s.executed + s.taken + s.pending == FunctorsOf(acts) && s.executed <= FunctorsOf(acts)
  {
    hide Run, Runs, Inv, FunctorsOf;
    StartKeeps();
    RunKeeps(START, acts);
    QueuedAre(START, acts);
    var s := Run(START, acts);
    InvConserves(s);
    assert [] + FunctorsOf(acts) == FunctorsOf(acts);
    Assoc(s.executed, s.taken, s.pending);
  }

  lemma StartKeeps()
    ensures Inv(START)
  {
  }

  lemma InvConserves(s: State)
    requires Inv(s)
    ensures s.executed + s.taken + s.pending == s.queued
  {
  }

  // The eventfd counts the wake-ups since it was read last, and the flag says whether a quit was asked for since
  // loop() began last.
  function WakesAfter(n: nat, acts: seq<Action>): nat
    decreases |acts|
  {
    if acts == [] then n
    else WakesAfter(if acts[0].HandleRead? then 0 else if acts[0].Wake? || acts[0].WakeHere? then n + 1 else n, acts[1..])
  }

  function AskedAfter(b: bool, acts: seq<Action>): bool
    decreases |acts|
  {
    if acts == [] then b
    else AskedAfter(if acts[0].StartLoop? then false else b || acts[0].SetQuit? || acts[0].QuitHere?, acts[1..])
  }

  // The threads whose last push or quit has not been followed by their wake-up.
  function OwingAfter(ts: set<Thread>, acts: seq<Action>): set<Thread>
    decreases |acts|
  {
    if acts == [] then ts
    else OwingAfter(match acts[0] case Push(t, _) => ts + {t} case SetQuit(t) => ts + {t} case Wake(t) => ts - {t} case _ => ts, acts[1..])
  }

  lemma {:induction false} SignalsFollow(s: State, acts: seq<Action>)
    requires Runs(s, acts)
    ensures var t := Run(s, acts);
            t.eventfd == WakesAfter(s.eventfd, acts) && t.quit == AskedAfter(s.quit, acts) && t.waking == OwingAfter(s.waking, acts)
    decreases |acts|
  {
    if acts != [] {
      SignalsFollow(Apply(s, acts[0]), acts[1..]);
    }
  }

  // loop() returns only if a quit was asked for during the call.
  lemma {:induction false} ReturnsOnlyIfAsked(s: State, acts: seq<Action>)
    requires Runs(s, acts) && !s.place.Outside? && OneLoop(acts)
    ensures Run(s, acts).place.Outside? ==> s.quit || exists i :: 0 <= i < |acts| && (acts[i].SetQuit? || acts[i].QuitHere?)
    decreases |acts|
  {
    if acts != [] && !s.quit && !acts[0].SetQuit? && !acts[0].QuitHere? {
      var rest := acts[1..];
      assert forall i :: 0 <= i < |rest| ==> rest[i] == acts[i + 1];
      ReturnsOnlyIfAsked(Apply(s, acts[0]), rest);
    }
  }

  // ---------------------------------------------------------------- wake-ups

  // The loop is blocked in poll with functors pending, and nobody is about to wake it.
  predicate Stuck(s: State) {
    s.place.InPoll? && s.pending != [] && s.eventfd == 0 && s.waking == {}
  }

  // Inside loop(): what is pending will be swapped out before the loop blocks, or there is a signal.
  predicate Ready(s: State) {
    !s.place.Outside? && (s.place.Handling? || s.place.BeforeSwap? || s.pending == [] || Signalled(s))
  }

  // The steps of one call of loop().
  predicate OneLoop(acts: seq<Action>) {
    forall i :: 0 <= i < |acts| ==> !acts[i].StartLoop?
  }

  lemma ReadyStays(s: State, a: Action)
    requires Inv(s) && Ready(s) && Enabled(s, a)
    ensures Ready(Apply(s, a)) || Apply(s, a).place.Outside?
  {
    if a.Push? || a.SetQuit? {
      assert a.t in Apply(s, a).waking;
    }
  }

  lemma {:induction false} ReadyNeverStuck(s: State, acts: seq<Action>)
    requires Inv(s) && (Ready(s) || s.place.Outside?) && Runs(s, acts) && OneLoop(acts)
    ensures !Stuck(Run(s, acts))
    decreases |acts|
  {
    if acts != [] {
      StepKeeps(s, acts[0]);
      if Ready(s) {
        ReadyStays(s, acts[0]);
      }
      assert OneLoop(acts[1..]);
      ReadyNeverStuck(Apply(s, acts[0]), acts[1..]);
    }
  }

  // In a call of loop() no wake-up is lost, over every interleaving, if and only if at its start nothing is pending or
  // some signal is on its way.
  lemma NoLostWakeup(s: State)
    requires Inv(s) && s.place.Outside?
    ensures (forall acts :: OneLoop(acts) && Runs(s, [StartLoop] + acts) ==> !Stuck(Run(s, [StartLoop] + acts))) <==>
            s.pending == [] || Signalled(s)
  {
    var t := Apply(s, StartLoop);
    StepKeeps(s, StartLoop);
    if s.pending == [] || Signalled(s) {
      forall acts | OneLoop(acts) && Runs(s, [StartLoop] + acts)
        ensures !Stuck(Run(s, [StartLoop] + acts))
      {
        assert ([StartLoop] + acts)[1..] == acts;
        ReadyNeverStuck(t, acts);
      }
    } else {
      BlocksAtOnce(s);
      assert OneLoop([Check]);
    }
  }

  lemma BlocksAtOnce(s: State)
    requires Inv(s) && s.place.Outside? && s.pending != [] && !Signalled(s)
    ensures Runs(s, [StartLoop] + [Check]) && Stuck(Run(s, [StartLoop] + [Check]))
  {
    var t := Apply(s, StartLoop);
    assert ([StartLoop] + [Check])[1..] == [Check] && [Check][1..] == [];
    assert Runs(t, [Check]) && Run(t, [Check]) == Apply(t, Check);
  }

  // Once poll has returned, by whatever event, no wake-up is lost for the rest of the call.
  lemma PollReturnHeals(s: State, acts: seq<Action>)
    requires Inv(s) && s.place.InPoll? && OneLoop(acts) && Runs(Apply(s, PollReturns), acts)
    ensures !Stuck(Run(Apply(s, PollReturns), acts))
  {
    StepKeeps(s, PollReturns);
    ReadyNeverStuck(Apply(s, PollReturns), acts);
  }

  predicate Signals(a: Action) { a.Push? || a.SetQuit? }

  // Before the first loop(): the condition fails exactly if the loop thread has queued something and no other thread
  // has queued anything or asked to quit.
  lemma {:induction false} BeforeFirstLoop(acts: seq<Action>)
    requires Runs(START, acts) && OneLoop(acts)
    ensures var s := Run(START, acts);
            && s.place.Outside? && Inv(s)
            && (s.pending == [] || Signalled(s) <==>
                 (forall i :: 0 <= i < |acts| ==> !acts[i].QueueHere?) || (exists i :: 0 <= i < |acts| && Signals(acts[i])))
  {
    OutsideFrom(START, acts);
  }

  lemma {:induction false} OutsideFrom(s: State, acts: seq<Action>)
    requires Inv(s) && s.place.Outside? && Runs(s, acts) && OneLoop(acts)
    ensures var t := Run(s, acts);
            && t.place.Outside? && Inv(t)
            && (Signalled(t) <==> Signalled(s) || exists i :: 0 <= i < |acts| && Signals(acts[i]))
            && (t.pending == [] <==> s.pending == [] && forall i :: 0 <= i < |acts| ==> !acts[i].QueueHere? && !acts[i].Push?)
    decreases |acts|
  {
    if acts != [] {
      var a, rest := acts[0], acts[1..];
      var mid := Apply(s, a);
      StepKeeps(s, a);
      if Signals(a) {
        assert a.t in mid.waking;
      }
      assert Signalled(mid) <==> Signalled(s) || Signals(a);
      assert forall i :: 0 <= i < |rest| ==> rest[i] == acts[i + 1];
      OutsideFrom(mid, rest);
      FirstOrRest(acts);
    }
  }

  lemma FirstOrRest(acts: seq<Action>)
    requires acts != []
    ensures (exists i :: 0 <= i < |acts| && Signals(acts[i])) <==>
            Signals(acts[0]) || exists i :: 0 <= i < |acts[1..]| && Signals(acts[1..][i])
    ensures (forall i :: 0 <= i < |acts| ==> !acts[i].QueueHere? && !acts[i].Push?) <==>
            (!acts[0].QueueHere? && !acts[0].Push?) && forall i :: 0 <= i < |acts[1..]| ==> !acts[1..][i].QueueHere? && !acts[1..][i].Push?
  {
    assert forall i :: 0 < i < |acts| ==> acts[i] == acts[1..][i - 1];
  }

  // The smallest case: a functor queued by the loop thread before loop() waits for the next event or the timeout.
  lemma EarlyFunctorWaits(f: Functor)
    ensures var acts := [QueueHere(f), StartLoop, Check]; Runs(START, acts) && Stuck(Run(START, acts))
  {
    var s := Apply(START, QueueHere(f));
    BlocksAtOnce(s);
    var acts := [QueueHere(f), StartLoop, Check];
    assert acts[1..] == [StartLoop] + [Check];
  }

  // ---------------------------------------------------------------- quit

  // The loop's test sees quit_ and loop() returns.
  ghost predicate Returns(s: State, acts: seq<Action>)
    requires Runs(s, acts)
    decreases |acts|
  {
    acts != [] && ((acts[0].Check? && s.quit) || Returns(Apply(s, acts[0]), acts[1..]))
  }

  // On every continuation the request stands until loop() returns because of it, and a blocked loop is woken for it.
  ghost predicate Honoured(s: State) {
    forall acts :: Runs(s, acts) ==> Returns(s, acts) || Standing(Run(s, acts))
  }

  predicate Standing(s: State) { s.quit && (s.place.InPoll? ==> s.eventfd > 0 || s.waking != {}) }

  lemma {:induction false} QuitStands(s: State, acts: seq<Action>)
    requires Inv(s) && s.quit && !s.place.Outside? && Runs(s, acts)
    ensures Returns(s, acts) || Standing(Run(s, acts))
    decreases |acts|
  {
    if acts != [] {
      StepKeeps(s, acts[0]);
      if !(acts[0].Check? && s.quit) {
        QuitStands(Apply(s, acts[0]), acts[1..]);
      }
    }
  }

  // A quit, from any thread, is honoured if and only if it is requested while loop() runs: loop() begins by clearing
  // the flag.
  lemma QuitIsHonoured(s: State, a: Action)
    requires Inv(s) && Enabled(s, a) && (a.SetQuit? || a.QuitHere?)
    ensures Honoured(Apply(s, a)) <==> !s.place.Outside?
  {
    var t := Apply(s, a);
    StepKeeps(s, a);
    if s.place.Outside? {
      var acts := [StartLoop];
      assert acts[1..] == [];
      assert Runs(Apply(t, StartLoop), []);
      assert Runs(t, acts) && !Returns(t, acts) && !Standing(Run(t, acts));
    } else {
      forall acts | Runs(t, acts)
        ensures Returns(t, acts) || Standing(Run(t, acts))
      {
        QuitStands(t, acts);
      }
    }
  }

  // Such a run: a quit before loop() wakes the loop once, and then the loop blocks without a signal and without a quit.
  lemma EarlyQuitIsLost(t: Thread)
    ensures var acts := [SetQuit(t), Wake(t), StartLoop, Check, PollReturns, HandleRead, HandlingDone, Swap, RunDone, Check];
            && Runs(START, acts)
            && var s := Run(START, acts); s.place.InPoll? && !s.quit && s.eventfd == 0 && s.waking == {}
  {
    hide Runs, Run;
    var s0 := State(Outside, false, false, 0, [], [], [], [], {});
    var s1 := s0.(quit := true, waking := {t});
    var s2 := s0.(quit := true, eventfd := 1);
    var s3 := s0.(place := AtCheck, eventfd := 1);
    var tail := WokenOnce();
    Then(s3, Check, tail);
    Then(s2, StartLoop, [Check] + tail);
    assert Apply(s1, Wake(t)) == s2 by { assert s1.waking - {t} == {}; }
    Then(s1, Wake(t), [StartLoop] + ([Check] + tail));
    assert Apply(s0, SetQuit(t)) == s1 by { assert s0.waking + {t} == {t}; }
    Then(s0, SetQuit(t), [Wake(t)] + ([StartLoop] + ([Check] + tail)));
    assert [SetQuit(t), Wake(t), StartLoop, Check, PollReturns, HandleRead, HandlingDone, Swap, RunDone, Check]
        == [SetQuit(t)] + ([Wake(t)] + ([StartLoop] + ([Check] + tail)));
  }

  // With nothing pending, a signal gets the loop out of poll once.
  lemma WokenOnce() returns (acts: seq<Action>)
    ensures acts == [PollReturns, HandleRead, HandlingDone, Swap, RunDone, Check]
    ensures var s := State(InPoll, false, false, 1, [], [], [], [], {}); Runs(s, acts) && Run(s, acts) == s.(eventfd := 0)
  {
    hide Runs, Run;
    var s := State(InPoll, false, false, 1, [], [], [], [], {});
    var t := s.(eventfd := 0);
    var tail := NothingToRun();
    Then(t.(place := Handling(false)), HandlingDone, tail);
    Then(s.(place := Handling(true)), HandleRead, [HandlingDone] + tail);
    Then(s, PollReturns, [HandleRead] + ([HandlingDone] + tail));
    acts := [PollReturns] + ([HandleRead] + ([HandlingDone] + tail));
  }

  lemma NothingToRun() returns (acts: seq<Action>)
    ensures acts == [Swap, RunDone, Check]
    ensures var s := State(BeforeSwap, false, true, 0, [], [], [], [], {}); Runs(s, acts) && Run(s, acts) == s.(place := InPoll, calling := false)
  {
    hide Runs, Run;
    var s := State(BeforeSwap, false, true, 0, [], [], [], [], {});
    Stays(s.(place := InPoll, calling := false));
    Then(s.(place := AtCheck, calling := false), Check, []);
    Then(s.(place := Running), RunDone, [Check] + []);
    Then(s, Swap, [RunDone] + ([Check] + []));
    acts := [Swap] + ([RunDone] + ([Check] + []));
  }

  lemma Stays(s: State)
    ensures Runs(s, []) && Run(s, []) == s
  {
  }

  lemma Then(s: State, a: Action, rest: seq<Action>)
    requires Enabled(s, a) && Runs(Apply(s, a), rest)
    ensures Runs(s, [a] + rest) && Run(s, [a] + rest) == Run(Apply(s, a), rest)
  {
    assert ([a] + rest)[1..] == rest;
  }

  // ---------------------------------------------------------------- progress

  // What an iteration owes: the loop does not test quit_ or block again before everything that was pending when poll
  // returned has run.
  ghost predicate Owed(s: State, n: nat) {
    match s.place
    case Outside => n <= |s.executed|
    case AtCheck => n <= |s.executed|
    case InPoll => n <= |s.executed|
    case Running => n <= |s.executed| + |s.taken|
    case RunningWake => n <= |s.executed| + |s.taken|
    case _ => n <= |s.executed| + |s.pending|
  }

  lemma {:induction false} IterationDrains(s: State, acts: seq<Action>, n: nat)
    requires Inv(s) && Runs(s, acts) && Owed(s, n)
    ensures Owed(Run(s, acts), n)
    ensures Run(s, acts).place.AtCheck? || Run(s, acts).place.InPoll? ==> n <= |Run(s, acts).executed|
    decreases |acts|
  {
    if acts != [] {
      StepKeeps(s, acts[0]);
      IterationDrains(Apply(s, acts[0]), acts[1..], n);
    }
  }

  lemma PollReturnsOwes(s: State)
    requires Inv(s) && s.place.InPoll?
    ensures Owed(Apply(s, PollReturns), |s.queued|)
  {
  }

  // ---------------------------------------------------------------- the class

  // The loop's methods, cut at the points where other threads can step in.
  class EventLoop {
    var quit: bool
    var calling: bool
    var eventfd: nat
    var pendingFunctors: seq<Functor>
    var functors: seq<Functor>       // the local of doPendingFunctors
    ghost var place: Place
    ghost var executed: seq<Functor>
    ghost var queued: seq<Functor>
    ghost var waking: set<Thread>

    ghost function View(): State
      reads this
    {
      State(place, quit, calling, eventfd, pendingFunctors, functors, executed, queued, waking)
    }

    constructor ()
      ensures View() == START
    {
      quit, calling, eventfd, pendingFunctors, functors := false, false, 0, [], [];
      place, executed, queued, waking := Outside, [], [], {};
    }

    method Wakeup()
      modifies `eventfd
      ensures eventfd == old(eventfd) + 1
    {
      eventfd := eventfd + 1;
    }

    // queueInLoop on another thread: the push; its second half is WakeFrom.
    method PushFrom(t: Thread, cb: Functor)
      requires Enabled(View(), Push(t, cb))
      modifies this
      ensures View() == Apply(old(View()), Push(t, cb))
    {
      pendingFunctors := pendingFunctors + [cb];
      queued := queued + [cb];
      waking := waking + {t};
    }

    method WakeFrom(t: Thread)
      requires Enabled(View(), Wake(t))
      modifies this
      ensures View() == Apply(old(View()), Wake(t))
    {
      Wakeup();
      waking := waking - {t};
    }

    method QuitFrom(t: Thread)
      requires Enabled(View(), SetQuit(t))
      modifies this
      ensures View() == Apply(old(View()), SetQuit(t))
    {
      quit := true;
      waking := waking + {t};
    }

    // queueInLoop on the loop thread: it wakes itself only while functors are being run.
    method QueueInLoop(cb: Functor)
      requires Enabled(View(), QueueHere(cb)) && Inv(View())
      modifies this
      ensures View() == var s := Apply(old(View()), QueueHere(cb)); if s.place.RunningWake? then Apply(s, WakeHere) else s
    {
      pendingFunctors := pendingFunctors + [cb];
      queued := queued + [cb];
      if calling {
        Wakeup();
      }
    }

    // quit on the loop thread.
    method Quit()
      requires Enabled(View(), QuitHere)
      modifies this
      ensures View() == Apply(old(View()), QuitHere)
    {
      quit := true;
    }

    // The eventfd channel's callback.
    method OnWakeup()
      requires Enabled(View(), HandleRead)
      modifies this
      ensures View() == Apply(old(View()), HandleRead)
    {
      eventfd := 0;
      place := Handling(false);
    }

    // The critical section of doPendingFunctors.
    method SwapFunctors()
      requires Enabled(View(), Swap) && Inv(View())
      modifies this
      ensures View() == Apply(old(View()), Swap)
    {
      functors, pendingFunctors := pendingFunctors, functors;
      place := Running;
    }

    // One functor of the batch, up to what it does itself.
    method RunFunctor() returns (f: Functor)
      requires Enabled(View(), RunOne)
      modifies this
      ensures f == old(functors)[0] && View() == Apply(old(View()), RunOne)
    {
      f := functors[0];
      functors := functors[1..];
      executed := executed + [f];
    }

    // A functor that queues others.
    method QueueAll(fs: seq<Functor>)
      requires Inv(View()) && place == Running
      modifies this
      ensures Inv(View()) && pendingFunctors == old(pendingFunctors) + fs && queued == old(queued) + fs
      ensures eventfd == old(eventfd) + |fs|
      ensures View() == old(View()).(pending := pendingFunctors, queued := queued, eventfd := eventfd)
    {
      var i := 0;
      assert old(pendingFunctors) + fs[..0] == old(pendingFunctors) && old(queued) + fs[..0] == old(queued);
      while i < |fs|
        invariant 0 <= i <= |fs| && Inv(View())
        invariant pendingFunctors == old(pendingFunctors) + fs[..i] && queued == old(queued) + fs[..i] && eventfd == old(eventfd) + i
        invariant View() == old(View()).(pending := pendingFunctors, queued := queued, eventfd := eventfd)
      {
        StepKeeps(View(), QueueHere(fs[i]));
        StepKeeps(Apply(View(), QueueHere(fs[i])), WakeHere);
        assert fs[..i + 1] == fs[..i] + [fs[i]];
        QueueInLoop(fs[i]);
        i := i + 1;
      }
      assert fs[..i] == fs;
    }

    // One functor of the batch, with what it queues.
    method RunAndQueue(post: seq<Functor>)
      requires Inv(View()) && place == Running && functors != []
      modifies this
      ensures Inv(View()) && place == Running && |functors| == |old(functors)| - 1
      ensures executed + functors == old(executed + functors)
      ensures pendingFunctors == old(pendingFunctors) + post && queued == old(queued) + post
      ensures eventfd == old(eventfd) + |post| && quit == old(quit) && waking == old(waking)
    {
      assert functors == [functors[0]] + functors[1..];
      StepKeeps(View(), RunOne);
      var f := RunFunctor();
      QueueAll(post);
    }

    // doPendingFunctors without another thread in between, the k-th functor queueing posts[k]: all that was pending is
    // run, in order; what was queued meanwhile is not, and the loop has been woken for it.
    method DoPendingFunctors(posts: seq<seq<Functor>>)
      requires Inv(View()) && place == Handling(false) && |posts| == |pendingFunctors|
      modifies this
      ensures Inv(View()) && place == AtCheck && functors == [] && pendingFunctors == Concat(posts)
      ensures executed == old(executed) + old(pendingFunctors) && queued == old(queued) + Concat(posts)
      ensures eventfd == old(eventfd) + |Concat(posts)| && quit == old(quit) && waking == old(waking)
    {
      BeginPending();
      var i, n := 0, |functors|;
      while i < n
        invariant 0 <= i <= n == |posts| && Inv(View()) && place == Running && |functors| == n - i
        invariant executed + functors == old(executed) + old(pendingFunctors)
        invariant pendingFunctors == Concat(posts[..i]) && queued == old(queued) + Concat(posts[..i])
        invariant eventfd == old(eventfd) + |Concat(posts[..i])| && quit == old(quit) && waking == old(waking)
      {
        ghost var done := Concat(posts[..i]);
        assert posts[..i + 1] == posts[..i] + [posts[i]];
        ConcatAppend(posts[..i], posts[i]);
        RunAndQueue(posts[i]);
        Assoc(old(queued), done, posts[i]);
        i := i + 1;
      }
      assert posts[..i] == posts && functors == [];
      EndPending();
    }

    method BeginPending()
      requires Inv(View()) && place == Handling(false)
      modifies this
      ensures Inv(View()) && View() == Apply(Apply(old(View()), HandlingDone), Swap)
    {
      StepKeeps(View(), HandlingDone);
      calling := true;
      place := BeforeSwap;
      StepKeeps(View(), Swap);
      SwapFunctors();
    }

    method EndPending()
      requires Inv(View()) && place == Running && functors == []
      modifies this
      ensures Inv(View()) && View() == Apply(old(View()), RunDone)
    {
      StepKeeps(View(), RunDone);
      calling := false;
      place := AtCheck;
    }
  }
}
