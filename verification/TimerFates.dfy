/** Each timer on its own: what its adds, cancels, batches and re-arming make of it, told from the steps alone, and that
  the queue agrees with it in every run. */
module TimerFates {
  import opened Seqs
  import opened TimerQueue

  // A timer: not created yet; waiting for addTimerInLoop; in the queue; in the batch being run, possibly cancelled
  // meanwhile; deleted.
  datatype Fate =
    | None
    | Waiting(addr: int, t: Timer)
    | Queued(addr: int, t: Timer)
    | Taken(addr: int, t: Timer, now: int, cancelled: bool)
    | Gone

  // What a step makes of the n-th timer created; `created` counts those created before the step.
  function FateStep(f: Fate, created: int, a: Action, n: int): Fate {
    match a
    case Create(addr, when, interval, repeat) => if created + 1 == n then Waiting(addr, Timer(n, when, interval, repeat)) else f
    case Add(addr, _) => if f.Waiting? && f.addr == addr then Queued(addr, f.t) else f
    case Cancel(id) =>
      if f.Queued? && id == TimerId(f.addr, n) then Gone
      else if f.Taken? && id == TimerId(f.addr, n) then f.(cancelled := true)
      else f
    case Expire => f
    case Begin(now, _) => if f.Queued? && f.t.expiration <= now then Taken(f.addr, f.t, now, false) else f
    case RunNext => f
    case Finish(_) =>
      if !f.Taken? then f
      else if f.t.repeat && !f.cancelled then Queued(f.addr, f.t.(expiration := f.now + f.t.interval))
      else Gone
  }

  function Counted(created: int, a: Action): int { if a.Create? then created + 1 else created }

  function FateAfter(f: Fate, created: int, acts: seq<Action>, n: int): Fate
    decreases |acts|
  {
    if acts == [] then f else FateAfter(FateStep(f, created, acts[0], n), Counted(created, acts[0]), acts[1..], n)
  }

  // The timer object is there, under its number.
  predicate Lives(s: State, addr: int, t: Timer, n: int) {
    addr in s.heap && s.heap[addr] == t && t.sequence == n
  }

  ghost predicate Agrees(s: State, f: Fate, n: int) {
    match f
    case None => n > s.created
    case Waiting(addr, t) => Lives(s, addr, t, n) && addr in s.pending
    case Queued(addr, t) => Lives(s, addr, t, n) && Entry(t.expiration, addr) in s.timers && TimerId(addr, n) in s.active
    case Taken(addr, t, now, cancelled) =>
      && Lives(s, addr, t, n) && s.phase.Firing? && s.phase.now == now && Entry(t.expiration, addr) in s.phase.batch
      && (cancelled <==> TimerId(addr, n) in s.canceling)
    case Gone => n <= s.created && forall addr :: addr in s.heap ==> s.heap[addr].sequence != n
  }

  // ---------------------------------------------------------------- giving a batch back

  // A timer of the batch after reset: back in both indices under its new expiration, or deleted.
  ghost predicate GoesOn(s: State, t: State, addr: int, now: int)
    requires addr in s.heap
  {
    var x := s.heap[addr];
    if x.repeat && TimerId(addr, x.sequence) !in s.canceling then
      && addr in t.heap && t.heap[addr] == x.(expiration := now + x.interval)
      && Entry(now + x.interval, addr) in t.timers && TimerId(addr, x.sequence) in t.active
    else forall a :: a in t.heap ==> t.heap[a].sequence != x.sequence
  }

  // Everything that concerns a timer outside the batch.
  ghost predicate Untouched(s: State, t: State, addr: int) {
    && (addr in t.heap <==> addr in s.heap) && (addr in s.heap ==> t.heap[addr] == s.heap[addr])
    && (addr in t.pending <==> addr in s.pending)
    && (forall w :: Entry(w, addr) in t.timers <==> Entry(w, addr) in s.timers)
    && (forall k :: TimerId(addr, k) in t.active <==> TimerId(addr, k) in s.active)
  }

  lemma OneGivenBack(s: State, held: seq<Entry>, now: int)
    requires Sound(s, held) && held != [] && now > 0
    ensures held[0].addr in s.heap && GoesOn(s, GiveBack(s, held[0], now), held[0].addr, now)
    ensures forall addr :: addr != held[0].addr ==> Untouched(s, GiveBack(s, held[0], now), addr)
    ensures GiveBack(s, held[0], now).canceling == s.canceling && GiveBack(s, held[0], now).created == s.created
  {
    assert held[0] in held;
    hide Places, SameTimers;
  }

  lemma {:induction false} OthersUntouched(s: State, held: seq<Entry>, now: int, addr: int)
    requires Sound(s, held) && now > 0 && !Held(held, addr)
    ensures Untouched(s, GiveBackAll(s, held, now), addr)
    decreases |held|
  {
    if held != [] {
      OneGivenBack(s, held, now);
      GiveBackKeeps(s, held, now);
      HeldTail(s, held);
      assert held[0] in held;
      hide Sound, GiveBack;
      OthersUntouched(GiveBack(s, held[0], now), held[1..], now, addr);
    }
  }

  lemma HeldTail(s: State, held: seq<Entry>)
    requires Sound(s, held) && held != []
    ensures forall a :: Held(held[1..], a) <==> Held(held, a) && a != held[0].addr
    ensures forall e :: e in held <==> e == held[0] || e in held[1..]
  {
    TimerQueue.HeldTail(held);
    assert held == [held[0]] + held[1..];
  }

  lemma {:induction false} CreatedKept(s: State, held: seq<Entry>, now: int)
    ensures GiveBackAll(s, held, now).created == s.created && GiveBackAll(s, held, now).ran == s.ran
    decreases |held|
  {
    if held != [] {
      CreatedKept(GiveBack(s, held[0], now), held[1..], now);
    }
  }

  lemma {:induction false} AllGivenBack(s: State, held: seq<Entry>, now: int, e: Entry)
    requires Sound(s, held) && now > 0 && e in held
    ensures e.addr in s.heap && GoesOn(s, GiveBackAll(s, held, now), e.addr, now)
    decreases |held|
  {
    var mid := GiveBack(s, held[0], now);
    OneGivenBack(s, held, now);
    GiveBackKeeps(s, held, now);
    HeldTail(s, held);
    hide GiveBack, Sound, GoesOn, Untouched;
    if e == held[0] {
      OthersUntouched(mid, held[1..], now, e.addr);
      StaysGone(mid, held[1..], now, s.heap[e.addr].sequence);
      ThenUntouched(s, mid, GiveBackAll(s, held, now), e.addr, now);
    } else {
      assert Held(held[1..], e.addr);
      UntouchedThere(s, mid, e.addr);
      AllGivenBack(mid, held[1..], now, e);
      UntouchedThen(s, mid, GiveBackAll(s, held, now), e.addr, now);
    }
  }

  lemma UntouchedThere(s: State, t: State, addr: int)
    requires Untouched(s, t, addr)
    ensures addr in s.heap <==> addr in t.heap
  {
  }

  lemma ThenUntouched(s: State, mid: State, t: State, addr: int, now: int)
    requires addr in s.heap && GoesOn(s, mid, addr, now) && Untouched(mid, t, addr)
    requires (forall a :: a in mid.heap ==> mid.heap[a].sequence != s.heap[addr].sequence) ==>
               forall a :: a in t.heap ==> t.heap[a].sequence != s.heap[addr].sequence
    ensures GoesOn(s, t, addr, now)
  {
  }

  lemma UntouchedThen(s: State, mid: State, t: State, addr: int, now: int)
    requires addr in s.heap && Untouched(s, mid, addr) && mid.canceling == s.canceling && addr in mid.heap && GoesOn(mid, t, addr, now)
    ensures GoesOn(s, t, addr, now)
  {
  }

  // A number that no timer has is not given again.
  lemma {:induction false} StaysGone(s: State, held: seq<Entry>, now: int, n: int)
    ensures (forall a :: a in s.heap ==> s.heap[a].sequence != n) ==>
            forall a :: a in GiveBackAll(s, held, now).heap ==> GiveBackAll(s, held, now).heap[a].sequence != n
    decreases |held|
  {
    if held != [] {
      StaysGone(GiveBack(s, held[0], now), held[1..], now, n);
    }
  }

  // ---------------------------------------------------------------- every step

  // reset, told of one timer of the batch: a repeating timer that was not cancelled is back under the same address and
  // number, to expire one interval after the time of the batch; any other is deleted.
  lemma FinishGivesBack(s: State, clock: int, e: Entry)
    requires Inv(s) && Enabled(s, Finish(clock)) && e in s.phase.batch
    ensures e.addr in s.heap
    ensures var x, t := s.heap[e.addr], Apply(s, Finish(clock));
            if x.repeat && TimerId(e.addr, x.sequence) !in s.canceling then
              && e.addr in t.heap && t.heap[e.addr] == Timer(x.sequence, s.phase.now + x.interval, x.interval, true)
              && Entry(s.phase.now + x.interval, e.addr) in t.timers && TimerId(e.addr, x.sequence) in t.active
            else forall a :: a in t.heap ==> t.heap[a].sequence != x.sequence
  {
    FinishIs(s, clock);
    assert Sound(s, s.phase.batch);
    AllGivenBack(s, s.phase.batch, s.phase.now, e);
    hide Inv, Sound, GiveBackAll, Apply;
  }

  lemma FinishIs(s: State, clock: int)
    requires Enabled(s, Finish(clock))
    ensures var g, t := GiveBackAll(s, s.phase.batch, s.phase.now), Apply(s, Finish(clock));
            && t.timers == g.timers && t.active == g.active && t.heap == g.heap && t.pending == g.pending && t.created == g.created
            && t.phase == Idle && t.canceling == g.canceling && t.ran == g.ran
  {
    hide GiveBackAll;
  }

  lemma FinishAgrees(s: State, clock: int, f: Fate, n: int)
    requires Inv(s) && Enabled(s, Finish(clock)) && n >= 1 && Agrees(s, f, n)
    ensures Agrees(Apply(s, Finish(clock)), FateStep(f, s.created, Finish(clock), n), n)
  {
    hide Inv, Apply, GiveBackAll, Sound, Enabled;
    FiringSound(s, clock);
    FinishIs(s, clock);
    CreatedKept(s, s.phase.batch, s.phase.now);
    match f {
      case Taken(addr, t, now, _) => FinishGivesBack(s, clock, Entry(t.expiration, addr));
      case Waiting(addr, _) =>
        NotHeld(s, f, n);
        OthersUntouched(s, s.phase.batch, s.phase.now, addr);
      case Queued(addr, _) =>
        NotHeld(s, f, n);
        OthersUntouched(s, s.phase.batch, s.phase.now, addr);
      case _ => StaysGone(s, s.phase.batch, s.phase.now, n);
    }
  }

  lemma FiringSound(s: State, clock: int)
    requires Inv(s) && Enabled(s, Finish(clock))
    ensures s.phase.Firing? && Sound(s, s.phase.batch) && s.phase.now > 0
    ensures forall a :: a in s.heap ==> s.heap[a].sequence <= s.created
  {
    hide Places, SameTimers, NoneForgotten;
  }

  lemma NotHeld(s: State, f: Fate, n: int)
    requires Inv(s) && s.phase.Firing? && Agrees(s, f, n) && (f.Waiting? || f.Queued?)
    ensures !Held(s.phase.batch, f.addr)
  {
    hide NoneForgotten, SameTimers, Numbered;
  }

  lemma BeginAgrees(s: State, now: int, batch: seq<Entry>, f: Fate, n: int)
    requires Inv(s) && Enabled(s, Begin(now, batch)) && n >= 1 && Agrees(s, f, n)
    ensures Agrees(Apply(s, Begin(now, batch)), FateStep(f, s.created, Begin(now, batch), n), n)
  {
    var t := Apply(s, Begin(now, batch));
    if f.Queued? {
      var e := Entry(f.t.expiration, f.addr);
      BeginKeeps(s, now, batch);
      assert e in batch <==> e.when <= now;
      assert forall x :: x in Expired(s.timers, now) <==> x in batch;
      OtherIds(s, now, batch, e, n);
    }
    hide Inv, Listing;
  }

  // Erasing the batch from the active timers does not touch a timer that is not due.
  lemma OtherIds(s: State, now: int, batch: seq<Entry>, e: Entry, n: int)
    requires Inv(s) && Enabled(s, Begin(now, batch)) && e in s.timers && e.addr in s.heap && s.heap[e.addr].sequence == n
    ensures e.when > now ==> TimerId(e.addr, n) !in set x | x in Expired(s.timers, now) && x.addr in s.heap :: IdOf(s, x.addr)
  {
    assert SameTimers(s);
    hide Places, Numbered, Listing, NoneForgotten;
  }

  lemma CancelAgrees(s: State, id: TimerId, f: Fate, n: int)
    requires Inv(s) && n >= 1 && Agrees(s, f, n)
    ensures Agrees(CancelStep(s, id), FateStep(f, s.created, Cancel(id), n), n)
  {
    assert SameTimers(s);
    if f.Taken? {
      assert Held(s.phase.batch, f.addr);
      assert !InTimers(s, f.addr);
      assert TimerId(f.addr, n) !in s.active;
    }
    if f.Waiting? {
      assert !InTimers(s, f.addr);
      assert TimerId(f.addr, n) !in s.active;
    }
    hide NoneForgotten;
  }

  lemma AddAgrees(s: State, addr: int, clock: int, f: Fate, n: int)
    requires Inv(s) && Enabled(s, Add(addr, clock)) && n >= 1 && Agrees(s, f, n)
    ensures Agrees(Apply(s, Add(addr, clock)), FateStep(f, s.created, Add(addr, clock), n), n)
  {
    hide NoneForgotten, InTimers, Held, Numbered;
  }

  lemma CreateAgrees(s: State, addr: int, when: int, interval: int, repeat: bool, f: Fate, n: int)
    requires Inv(s) && Enabled(s, Create(addr, when, interval, repeat)) && n >= 1 && Agrees(s, f, n)
    ensures Agrees(Apply(s, Create(addr, when, interval, repeat)), FateStep(f, s.created, Create(addr, when, interval, repeat), n), n)
  {
    hide NoneForgotten, InTimers, Held, SameTimers;
  }

  lemma StepAgrees(s: State, a: Action, f: Fate, n: int)
    requires Inv(s) && Enabled(s, a) && n >= 1 && Agrees(s, f, n)
    ensures Agrees(Apply(s, a), FateStep(f, s.created, a, n), n) && Apply(s, a).created == Counted(s.created, a)
  {
    match a {
      case Create(addr, when, interval, repeat) => CreateAgrees(s, addr, when, interval, repeat, f, n);
      case Add(addr, clock) => AddAgrees(s, addr, clock, f, n);
      case Cancel(id) => CancelAgrees(s, id, f, n);
      case Begin(now, batch) => BeginAgrees(s, now, batch, f, n);
      case Finish(clock) =>
        FinishAgrees(s, clock, f, n);
        FinishIs(s, clock);
        CreatedKept(s, s.phase.batch, s.phase.now);
      case _ =>
    }
    hide Inv, GiveBackAll, FateStep;
  }

  // In every run, the queue holds of each timer ever created exactly what its own history says: its times, its place,
  // and whether it is there at all.
  lemma {:induction false} RunAgrees(s: State, acts: seq<Action>, f: Fate, n: int)
    requires Inv(s) && Runs(s, acts) && n >= 1 && Agrees(s, f, n)
    ensures Agrees(Run(s, acts), FateAfter(f, s.created, acts, n), n)
    decreases |acts|
  {
    hide Inv, Enabled, Apply, Agrees, FateStep;
    if acts != [] {
      StepAgrees(s, acts[0], f, n);
      StepKeeps(s, acts[0]);
      RunAgrees(Apply(s, acts[0]), acts[1..], FateStep(f, s.created, acts[0], n), n);
    }
  }

  lemma TimersFollowTheirFates(acts: seq<Action>, n: int)
    requires Runs(START, acts) && n >= 1
    ensures Agrees(Run(START, acts), FateAfter(None, 0, acts, n), n)
  {
    assert Inv(START);
    RunAgrees(START, acts, None, n);
  }

  // And there is nothing else: an entry of the queue is a queued timer's, under its expiration.
  lemma EntriesAreQueued(acts: seq<Action>, e: Entry)
    requires Runs(START, acts) && e in Run(START, acts).timers
    ensures var s := Run(START, acts);
            && e.addr in s.heap && s.heap[e.addr].expiration == e.when
            && FateAfter(None, 0, acts, s.heap[e.addr].sequence) == Queued(e.addr, s.heap[e.addr])
  {
    QueueKeeps(acts);
    var s := Run(START, acts);
    assert Places(s, HeldBy(s)) && SameTimers(s) && Numbered(s);
    var n := s.heap[e.addr].sequence;
    TimersFollowTheirFates(acts, n);
    EntryIsQueued(s, FateAfter(None, 0, acts, n), e);
  }

  lemma EntryIsQueued(s: State, f: Fate, e: Entry)
    requires Inv(s) && e in s.timers && e.addr in s.heap && Agrees(s, f, s.heap[e.addr].sequence)
    ensures f == Queued(e.addr, s.heap[e.addr])
  {
    assert InTimers(s, e.addr);
    hide NoneForgotten, SameTimers;
  }

  // ---------------------------------------------------------------- callbacks and arming

  // From a batch to its end every timer of it is run, once, in the order of the batch, and nothing else is.
  lemma {:induction false} BatchIsRun(s: State, acts: seq<Action>)
    requires Inv(s) && s.phase.Firing? && Runs(s, acts) && forall i :: 0 <= i < |acts| ==> !acts[i].Finish?
    ensures var t := Run(s, acts);
            && t.phase.Firing? && t.phase.batch == s.phase.batch && s.phase.next <= t.phase.next <= |s.phase.batch|
            && t.ran == s.ran + s.phase.batch[s.phase.next..t.phase.next]
    decreases |acts|
  {
    hide Inv, Apply, Enabled;
    InBounds(s);
    if acts == [] {
      assert s.ran + [] == s.ran;
    } else {
      var mid := Apply(s, acts[0]);
      StepKeeps(s, acts[0]);
      RanStep(s, acts[0]);
      BatchIsRun(mid, acts[1..]);
      var b, k := s.phase.batch, Run(mid, acts[1..]).phase.next;
      if acts[0].RunNext? {
        assert b[s.phase.next..k] == [b[s.phase.next]] + b[s.phase.next + 1..k];
        Assoc(s.ran, [b[s.phase.next]], b[s.phase.next + 1..k]);
      }
    }
  }

  lemma InBounds(s: State)
    requires Inv(s) && s.phase.Firing?
    ensures s.phase.next <= |s.phase.batch|
  {
  }

  lemma RanStep(s: State, a: Action)
    requires Enabled(s, a) && s.phase.Firing? && !a.Finish?
    ensures var t := Apply(s, a);
            if a.RunNext? then
              s.phase.next < |s.phase.batch|
              && t.phase == Firing(s.phase.now, s.phase.batch, s.phase.next + 1) && t.ran == s.ran + [s.phase.batch[s.phase.next]]
            else t.phase == s.phase && t.ran == s.ran
  {
    hide Listing;
  }

  lemma WholeBatchIsRun(s: State, now: int, batch: seq<Entry>, acts: seq<Action>, clock: int)
    requires Inv(s) && Enabled(s, Begin(now, batch)) && Runs(Apply(s, Begin(now, batch)), acts)
    requires (forall i :: 0 <= i < |acts| ==> !acts[i].Finish?) && Enabled(Run(Apply(s, Begin(now, batch)), acts), Finish(clock))
    ensures Apply(Run(Apply(s, Begin(now, batch)), acts), Finish(clock)).ran == s.ran + batch
  {
    var t := Apply(s, Begin(now, batch));
    assert t.phase == Firing(now, batch, 0) && t.ran == s.ran;
    StepKeeps(s, Begin(now, batch));
    hide Inv, Listing;
    BatchIsRun(t, acts);
    var u := Run(t, acts);
    assert u.phase.next == |batch|;
    hide Enabled, Apply, Run, Runs, GiveBackAll;
    FinishIs(u, clock);
    CreatedKept(u, u.phase.batch, u.phase.now);
    assert batch[0..|batch|] == batch;
  }

  // The timerfd is armed for exactly the expiration, or for 100 microseconds from now if that is later; on an addition
  // only if the new timer is earlier than all others.
  lemma AddArmsExactly(s: State, addr: int, clock: int)
    requires Enabled(s, Add(addr, clock))
    ensures var w := s.heap[addr].expiration;
            Apply(s, Add(addr, clock)).fd ==
            if forall e :: e in s.timers ==> w < e.when then Armed(clock, if w < clock + 100 then clock + 100 else w) else s.fd
  {
  }

  // After a batch it is armed so for the earliest timer there is then, if that has a valid time.
  lemma FinishArmsExactly(s: State, clock: int, e: Entry)
    requires Inv(s) && Enabled(s, Finish(clock))
    requires var t := Apply(s, Finish(clock)); e in t.timers && forall x :: x in t.timers ==> e.when <= x.when
    ensures Apply(s, Finish(clock)).fd == if e.when > 0 then Armed(clock, if e.when < clock + 100 then clock + 100 else e.when) else s.fd
  {
    var g := GiveBackAll(s, s.phase.batch, s.phase.now).(phase := Idle);
    FinishIs(s, clock);
    GivenBackTimers(s, s.phase.batch, s.phase.now) by {
      assert Numbered(s);
    }
    hide GiveBackAll, Inv;
    var first := EarliestExists(g.timers);
    RearmedExactly(g, clock, first);
    assert first.when == e.when;
  }

  lemma FinishLeavesFd(s: State, clock: int)
    requires Inv(s) && Enabled(s, Finish(clock)) && Apply(s, Finish(clock)).timers == {}
    ensures Apply(s, Finish(clock)).fd == s.fd
  {
    FinishIs(s, clock);
    GivenBackTimers(s, s.phase.batch, s.phase.now) by {
      assert Numbered(s);
    }
    hide GiveBackAll, Inv;
  }

  // Reading the timerfd leaves nothing to be read, and does not disarm it.
  lemma BeginReadsFd(s: State, now: int, batch: seq<Entry>)
    requires Enabled(s, Begin(now, batch))
    ensures var fd := Apply(s, Begin(now, batch)).fd; !fd.Fired? && (s.fd.Armed? ==> fd == s.fd)
  {
    hide Listing;
  }
}
