/** The timer queue of an event loop: two indices over the same timers, cancellation in the middle of a firing
  batch, and the timerfd that must not be left unarmed.

  `State` is everything one step can see; a step is taken by the loop thread or by the kernel.  Addresses stand for
  Timer pointers: a freed address may be handed out again, a sequence number never is. */
module TimerQueue {

  // No object lives at UINTPTR_MAX, which getExpired uses as the largest pointer.
  const UINTPTR_MAX := 0xFFFF_FFFF_FFFF_FFFF

  // Times are microseconds; a timer that does not repeat has no use for its interval.
  datatype Timer = Timer(sequence: int, expiration: int, interval: int, repeat: bool)

  datatype Entry = Entry(when: int, addr: int)

  datatype TimerId = TimerId(addr: int, sequence: int)

  // The timerfd: armed at some time for a deadline, or fired and not yet read.
  datatype Fd = Disarmed | Armed(at: int, deadline: int) | Fired

  // Inside handleRead: the time it read, the timers it took and how many callbacks have run.
  datatype Phase = Idle | Firing(now: int, batch: seq<Entry>, next: nat)

  datatype State = State(
    timers: set<Entry>, active: set<TimerId>, canceling: set<TimerId>,
    heap: map<int, Timer>, pending: set<int>, created: int,
    fd: Fd, phase: Phase, freed: seq<TimerId>,
    ran: seq<Entry>)                                            // the callbacks run so far

  // ---------------------------------------------------------------- the steps

  datatype Action =
    | Create(addr: int, when: int, interval: int, repeat: bool)  // new Timer, on any thread
    | Add(addr: int, clock: int)                                 // addTimerInLoop
    | Cancel(id: TimerId)                                        // cancelInLoop
    | Expire                                                     // the kernel fires the timerfd, early or late
    | Begin(now: int, batch: seq<Entry>)                         // handleRead up to the callbacks
    | RunNext                                                    // one callback
    | Finish(clock: int)                                         // handleRead after the callbacks

  predicate LessThan(a: Entry, b: Entry) {
    a.when < b.when || (a.when == b.when && a.addr < b.addr)
  }

  // The entries before the sentry (now, UINTPTR_MAX).
  function Expired(timers: set<Entry>, now: int): set<Entry> {
    set e | e in timers && LessThan(e, Entry(now, UINTPTR_MAX))
  }

  ghost predicate Listing(q: seq<Entry>, s: set<Entry>) {
    && (forall e :: e in q <==> e in s)
    && forall i, j :: 0 <= i < j < |q| ==> LessThan(q[i], q[j])
  }

  function IdOf(s: State, addr: int): TimerId
    requires addr in s.heap
  {
    TimerId(addr, s.heap[addr].sequence)
  }

  function Arm(clock: int, expiration: int): Fd {
    Armed(clock, clock + if expiration - clock < 100 then 100 else expiration - clock)
  }

  predicate EarliestChanged(timers: set<Entry>, when: int) {
    forall e :: e in timers ==> when < e.when
  }

  // insert: both indices get the timer.
  function Inserted(s: State, addr: int): State
    requires addr in s.heap
  {
    s.(timers := s.timers + {Entry(s.heap[addr].expiration, addr)}, active := s.active + {IdOf(s, addr)})
  }

  function Freed(s: State, addr: int): State
    requires addr in s.heap
  {
    s.(heap := s.heap - {addr}, freed := s.freed + [IdOf(s, addr)])
  }

  function CancelStep(s: State, id: TimerId): State {
    if id in s.active && id.addr in s.heap then
      Freed(s.(timers := s.timers - {Entry(s.heap[id.addr].expiration, id.addr)}, active := s.active - {id}), id.addr)
    else if s.phase.Firing? then s.(canceling := s.canceling + {id})
    else s
  }

  // One round of reset's loop.
  function GiveBack(s: State, e: Entry, now: int): State {
    if e.addr !in s.heap then s
    else
      var t := s.heap[e.addr];
      if t.repeat && IdOf(s, e.addr) !in s.canceling then
        Inserted(s.(heap := s.heap[e.addr := t.(expiration := now + t.interval)]), e.addr)
      else Freed(s, e.addr)
  }

  function GiveBackAll(s: State, batch: seq<Entry>, now: int): State
    decreases |batch|
  {
    if batch == [] then s else GiveBackAll(GiveBack(s, batch[0], now), batch[1..], now)
  }

  ghost predicate Earliest(timers: set<Entry>, e: Entry) {
    e in timers && forall x :: x in timers ==> e == x || LessThan(e, x)
  }

  // The last part of reset: arm for the earliest timer, unless its expiration is the invalid time.
  ghost function Rearmed(s: State, clock: int): State {
    if e :| Earliest(s.timers, e) && e.when > 0 then s.(fd := Arm(clock, e.when)) else s
  }

  ghost predicate Enabled(s: State, a: Action) {
    match a
    case Create(addr, when, interval, _) => addr !in s.heap && 0 <= addr < UINTPTR_MAX && interval >= 0
    case Add(addr, _) => addr in s.pending && addr in s.heap
    case Cancel(_) => true
    case Expire => s.fd.Armed?
    case Begin(now, batch) => s.phase.Idle? && now > 0 && Listing(batch, Expired(s.timers, now))
    case RunNext => s.phase.Firing? && s.phase.next < |s.phase.batch|
    case Finish(_) => s.phase.Firing? && s.phase.next == |s.phase.batch|
  }

  ghost function Apply(s: State, a: Action): State
    requires Enabled(s, a)
  {
    match a
    case Create(addr, when, interval, repeat) =>
      s.(heap := s.heap[addr := Timer(s.created + 1, when, interval, repeat)], pending := s.pending + {addr}, created := s.created + 1)
    case Add(addr, clock) =>
      var s' := Inserted(s, addr).(pending := s.pending - {addr});
      if EarliestChanged(s.timers, s.heap[addr].expiration) then s'.(fd := Arm(clock, s.heap[addr].expiration)) else s'
    case Cancel(id) => CancelStep(s, id)
    case Expire => s.(fd := Fired)
    case Begin(now, batch) =>
      s.(timers := s.timers - Expired(s.timers, now),
         active := s.active - (set e | e in Expired(s.timers, now) && e.addr in s.heap :: IdOf(s, e.addr)),
         canceling := {}, phase := Firing(now, batch, 0), fd := if s.fd.Fired? then Disarmed else s.fd)
    case RunNext => s.(phase := s.phase.(next := s.phase.next + 1), ran := s.ran + [s.phase.batch[s.phase.next]])
    case Finish(clock) => Rearmed(GiveBackAll(s, s.phase.batch, s.phase.now).(phase := Idle), clock)
  }

  const START := State({}, {}, {}, map[], {}, 0, Disarmed, Idle, [], [])

  // Every step of the run can be taken where it is taken.
  ghost predicate Runs(s: State, acts: seq<Action>)
    decreases |acts|
  {
    acts == [] || (Enabled(s, acts[0]) && Runs(Apply(s, acts[0]), acts[1..]))
  }

  ghost function Run(s: State, acts: seq<Action>): State
    requires Runs(s, acts)
    decreases |acts|
  {
    if acts == [] then s else Run(Apply(s, acts[0]), acts[1..])
  }

  // ---------------------------------------------------------------- what every step keeps

  // Every live timer is in exactly one place: waiting to be added, in the queue, or held by handleRead.
  ghost predicate Places(s: State, held: seq<Entry>) {
    && (forall a :: a in s.heap ==> a in s.pending || InTimers(s, a) || Held(held, a))
    && (forall a :: a in s.pending ==> a in s.heap && !InTimers(s, a) && !Held(held, a))
    && (forall e :: e in s.timers ==> e.addr in s.heap && !Held(held, e.addr))
    && (forall e :: e in held ==> e.addr in s.heap)
    && (forall i, j :: 0 <= i < j < |held| ==> held[i].addr != held[j].addr)
  }

  ghost predicate InTimers(s: State, a: int) { exists e :: e in s.timers && e.addr == a }

  ghost predicate Held(held: seq<Entry>, a: int) { exists e :: e in held && e.addr == a }

  // Both indices hold the same timers, under their expiration and under their sequence number.
  ghost predicate SameTimers(s: State) {
    && (forall e :: e in s.timers ==> e.addr in s.heap && s.heap[e.addr].expiration == e.when && IdOf(s, e.addr) in s.active)
    && (forall id :: id in s.active ==> id.addr in s.heap && id == IdOf(s, id.addr) && Entry(s.heap[id.addr].expiration, id.addr) in s.timers)
  }

  // Sequence numbers are never reused; every timer ever created is alive or was freed, once.
  ghost predicate Numbered(s: State) {
    && (forall a :: a in s.heap ==> 0 <= a < UINTPTR_MAX && 1 <= s.heap[a].sequence <= s.created && s.heap[a].interval >= 0)
    && (forall a, b :: a in s.heap && b in s.heap && a != b ==> s.heap[a].sequence != s.heap[b].sequence)
    && (forall i, j :: 0 <= i < j < |s.freed| ==> s.freed[i].sequence != s.freed[j].sequence)
    && (forall i :: 0 <= i < |s.freed| ==> s.freed[i].sequence <= s.created)
    && (forall i, a :: 0 <= i < |s.freed| && a in s.heap ==> s.freed[i].sequence != s.heap[a].sequence)
    && (forall n :: 1 <= n <= s.created ==> Alive(s, n) || WasFreed(s, n))
  }

  ghost predicate Alive(s: State, n: int) { exists a :: a in s.heap && s.heap[a].sequence == n }

  ghost predicate WasFreed(s: State, n: int) { exists i :: 0 <= i < |s.freed| && s.freed[i].sequence == n }

  // The timerfd will be, or has been, readable in time for a timer at w: by w, or 100 microseconds after it was armed.
  ghost predicate InTime(fd: Fd, w: int) {
    fd.Fired? || (fd.Armed? && fd.deadline <= if w < fd.at + 100 then fd.at + 100 else w)
  }

  // Outside handleRead for every timer; inside it for those that reset will not arm for, whose expiration is no valid
  // time.
  ghost predicate NoneForgotten(s: State) {
    forall e :: e in s.timers && (s.phase.Idle? || e.when <= 0) ==> InTime(s.fd, e.when)
  }

  function HeldBy(s: State): seq<Entry> {
    if s.phase.Firing? then s.phase.batch else []
  }

  ghost predicate Inv(s: State) {
    && Places(s, HeldBy(s)) && SameTimers(s) && Numbered(s) && NoneForgotten(s) && s.created >= 0
    && (s.phase.Firing? ==> s.phase.now > 0 && 0 <= s.phase.next <= |s.phase.batch|)
    && (s.phase.Firing? ==> forall e :: e in s.phase.batch ==> e.when <= s.phase.now)
  }

  // The two indices, the heap and the numbers, with `held` in the hands of handleRead.
  ghost predicate Sound(s: State, held: seq<Entry>) {
    Places(s, held) && SameTimers(s) && Numbered(s) && s.created >= 0
  }

  lemma CreateKeeps(s: State, held: seq<Entry>, addr: int, when: int, interval: int, repeat: bool)
    requires Sound(s, held) && Enabled(s, Create(addr, when, interval, repeat))
    ensures Sound(Apply(s, Create(addr, when, interval, repeat)), held)
  {
    var s' := Apply(s, Create(addr, when, interval, repeat));
    forall n | 1 <= n <= s'.created
      ensures Alive(s', n) || WasFreed(s', n)
    {
      if n == s'.created {
        assert s'.heap[addr].sequence == n;
      } else if Alive(s, n) {
        var a :| a in s.heap && s.heap[a].sequence == n;
        assert a in s'.heap && s'.heap[a].sequence == n;
      } else {
        assert WasFreed(s, n);
      }
    }
    assert Places(s', held) by { SameQueue(s, s'); }
    hide InTimers, Held;
  }

  lemma SameQueue(s: State, s': State)
    requires s'.timers == s.timers
    ensures forall a :: InTimers(s', a) <==> InTimers(s, a)
  {
  }

  lemma InsertKeeps(s: State, held: seq<Entry>, addr: int, pending: set<int>)
    requires SameTimers(s) && Numbered(s) && s.created >= 0 && addr in s.heap && !InTimers(s, addr)
    ensures SameTimers(Inserted(s, addr).(pending := pending)) && Numbered(Inserted(s, addr).(pending := pending))
    ensures forall a :: InTimers(Inserted(s, addr).(pending := pending), a) <==> InTimers(s, a) || a == addr
  {
    var s' := Inserted(s, addr).(pending := pending);
    assert s'.heap == s.heap && s'.freed == s.freed && s'.created == s.created;
    assert Entry(s.heap[addr].expiration, addr) in s'.timers;
    SameNumbers(s, s');
    forall a
      ensures InTimers(s', a) <==> InTimers(s, a) || a == addr
    {
    }
  }

  lemma SameNumbers(s: State, s': State)
    requires Numbered(s) && s'.heap == s.heap && s'.freed == s.freed && s'.created == s.created
    ensures Numbered(s')
  {
    forall n | 1 <= n <= s'.created
      ensures Alive(s', n) || WasFreed(s', n)
    {
      if Alive(s, n) {
        var a :| a in s.heap && s.heap[a].sequence == n;
        assert a in s'.heap;
      } else {
        assert WasFreed(s, n);
      }
    }
  }

  lemma AddKeeps(s: State, held: seq<Entry>, addr: int, clock: int)
    requires Sound(s, held) && Enabled(s, Add(addr, clock))
    ensures Sound(Apply(s, Add(addr, clock)), held)
  {
    var s' := Inserted(s, addr).(pending := s.pending - {addr});
    var r := Apply(s, Add(addr, clock));
    assert r == s'.(fd := r.fd);
    assert forall a :: a in s.pending ==> !InTimers(s, a);
    hide InTimers, Held, Numbered, SameTimers;
    InsertKeeps(s, held, addr, s.pending - {addr});
    assert Places(s', held) by { hide Enabled, Apply; }
    hide Places;
    SoundSame(s', r, held);
  }

  // The queue's timers are still in time after an insertion: the fd is armed anew exactly when the new one is earliest.
  lemma AddInTime(s: State, addr: int, clock: int)
    requires Enabled(s, Add(addr, clock)) && NoneForgotten(s)
    ensures NoneForgotten(Apply(s, Add(addr, clock)))
  {
  }

  // Freeing a live timer that is out of the queue.
  lemma FreeKeeps(s: State, addr: int)
    requires Numbered(s) && addr in s.heap
    ensures Numbered(Freed(s, addr))
    ensures |Freed(s, addr).freed| == |s.freed| + 1
  {
    var s' := Freed(s, addr);
    forall n | 1 <= n <= s'.created
      ensures Alive(s', n) || WasFreed(s', n)
    {
      if Alive(s, n) {
        var a :| a in s.heap && s.heap[a].sequence == n;
        if a == addr {
          assert s'.freed[|s.freed|].sequence == n;
        } else {
          assert a in s'.heap && s'.heap[a].sequence == n;
        }
      } else {
        assert WasFreed(s, n);
        var i :| 0 <= i < |s.freed| && s.freed[i].sequence == n;
        assert s'.freed[i].sequence == n;
      }
    }
  }

  // The two indices after a timer has been taken out of both and freed.
  lemma CancelledIndices(s: State, id: TimerId)
    requires SameTimers(s) && id in s.active
    ensures id.addr in s.heap && InTimers(s, id.addr) && SameTimers(CancelStep(s, id))
    ensures forall a :: InTimers(CancelStep(s, id), a) <==> InTimers(s, a) && a != id.addr
  {
    var e, s' := Entry(s.heap[id.addr].expiration, id.addr), CancelStep(s, id);
    assert e in s.timers;
    assert forall x :: x in s.timers && x.addr == id.addr ==> x == e;
  }

  lemma CancelledNumbers(s: State, id: TimerId)
    requires Numbered(s) && id in s.active && id.addr in s.heap
    ensures Numbered(CancelStep(s, id))
  {
    var mid := s.(timers := s.timers - {Entry(s.heap[id.addr].expiration, id.addr)}, active := s.active - {id});
    SameNumbers(s, mid);
    FreeKeeps(mid, id.addr);
    hide Numbered;
  }

  lemma CancelKeeps(s: State, held: seq<Entry>, id: TimerId)
    requires Sound(s, held)
    ensures Sound(CancelStep(s, id), held)
    ensures CancelStep(s, id).timers <= s.timers && CancelStep(s, id).fd == s.fd && CancelStep(s, id).phase == s.phase
  {
    hide InTimers, Held, Numbered, SameTimers;
    var s' := CancelStep(s, id);
    if id in s.active {
      CancelledIndices(s, id);
      CancelledNumbers(s, id);
      CancelledPlaces(s, s', held, id.addr);
    } else {
      SameNumbers(s, s');
      SameQueue(s, s');
      SameIndices(s, s');
    }
  }

  lemma CancelledPlaces(s: State, s': State, held: seq<Entry>, addr: int)
    requires Places(s, held) && InTimers(s, addr)
    requires s'.heap == s.heap - {addr} && s'.pending == s.pending && s'.timers <= s.timers
    requires forall a :: InTimers(s', a) <==> InTimers(s, a) && a != addr
    ensures Places(s', held)
  {
    forall e | e in s'.timers
      ensures e.addr in s'.heap && !Held(held, e.addr)
    {
      assert InTimers(s', e.addr);
    }
    forall e | e in held
      ensures e.addr in s'.heap
    {
      assert Held(held, e.addr);
    }
  }

  lemma SameIndices(s: State, s': State)
    requires SameTimers(s) && s'.heap == s.heap && s'.timers == s.timers && s'.active == s.active
    ensures SameTimers(s')
  {
  }

  lemma GiveBackKeeps(s: State, held: seq<Entry>, now: int)
    requires Sound(s, held) && held != [] && now > 0
    ensures Sound(GiveBack(s, held[0], now), held[1..])
    ensures GiveBack(s, held[0], now).phase == s.phase && GiveBack(s, held[0], now).canceling == s.canceling
  {
    var e := held[0];
    assert e in held && Held(held, e.addr) && e.addr in s.heap;
    var t := s.heap[e.addr];
    if t.repeat && IdOf(s, e.addr) !in s.canceling {
      RestartedKeeps(s, held, now);
    } else {
      DroppedKeeps(s, held, now);
    }
    hide Sound;
  }

  ghost function Restarted(s: State, addr: int, now: int): State
    requires addr in s.heap
  {
    s.(heap := s.heap[addr := s.heap[addr].(expiration := now + s.heap[addr].interval)])
  }

  // A repeating timer goes back into both indices under its new expiration.
  lemma RestartedKeeps(s: State, held: seq<Entry>, now: int)
    requires Sound(s, held) && held != [] && now > 0 && held[0].addr in s.heap
    ensures Sound(Inserted(Restarted(s, held[0].addr, now), held[0].addr), held[1..])
  {
    var addr := held[0].addr;
    assert held[0] in held && Held(held, addr);
    assert !InTimers(s, addr);
    var mid := Restarted(s, addr, now);
    RestartKeeps(s, addr, now);
    RestartIndices(s, addr, now);
    assert mid.heap.Keys == s.heap.Keys && mid.timers == s.timers && mid.pending == s.pending && mid.created == s.created;
    hide Numbered, SameTimers, Restarted, InTimers, Held;
    SameQueue(s, mid);
    InsertKeeps(mid, held[1..], addr, mid.pending);
    BackInQueue(s, Inserted(mid, addr), held);
    hide Places;
  }

  lemma RestartIndices(s: State, addr: int, now: int)
    requires SameTimers(s) && addr in s.heap && !InTimers(s, addr)
    ensures SameTimers(Restarted(s, addr, now))
  {
    assert forall e :: e in s.timers ==> e.addr != addr;
    hide InTimers;
  }

  lemma BackInQueue(s: State, s': State, held: seq<Entry>)
    requires Places(s, held) && held != [] && s'.heap.Keys == s.heap.Keys && s'.pending == s.pending
    requires forall a :: InTimers(s', a) <==> InTimers(s, a) || a == held[0].addr
    ensures Places(s', held[1..])
  {
    HeldTail(held);
    assert held[0] in held && Held(held, held[0].addr);
    forall e | e in s'.timers
      ensures e.addr in s'.heap && !Held(held[1..], e.addr)
    {
      assert InTimers(s', e.addr);
      if InTimers(s, e.addr) {
        var x :| x in s.timers && x.addr == e.addr;
      }
    }
    hide InTimers, Held;
  }

  lemma DroppedKeeps(s: State, held: seq<Entry>, now: int)
    requires Sound(s, held) && held != [] && held[0].addr in s.heap
    ensures Sound(Freed(s, held[0].addr), held[1..])
  {
    var e := held[0];
    assert e in held && Held(held, e.addr);
    HeldTail(held);
    assert !InTimers(s, e.addr);
    FreeKeeps(s, e.addr);
    hide Numbered;
    var s' := Freed(s, e.addr);
    SameQueue(s, s');
    assert s'.heap == s.heap - {e.addr};
    assert SameTimers(s');
    hide InTimers, Held, SameTimers;
  }

  lemma HeldTail(held: seq<Entry>)
    requires held != [] && forall i, j :: 0 <= i < j < |held| ==> held[i].addr != held[j].addr
    ensures forall a :: Held(held[1..], a) <==> Held(held, a) && a != held[0].addr
    ensures forall e :: e in held[1..] ==> e in held
  {
    forall a
      ensures Held(held[1..], a) <==> Held(held, a) && a != held[0].addr
    {
      if Held(held[1..], a) {
        var e :| e in held[1..] && e.addr == a;
        var i :| 0 <= i < |held| - 1 && held[1..][i] == e;
        assert held[i + 1] == e;
      }
    }
  }

  lemma RestartKeeps(s: State, addr: int, now: int)
    requires Numbered(s) && addr in s.heap && now > 0
    ensures Numbered(Restarted(s, addr, now))
  {
    var s' := Restarted(s, addr, now);
    forall n | 1 <= n <= s'.created
      ensures Alive(s', n) || WasFreed(s', n)
    {
      if Alive(s, n) {
        var a :| a in s.heap && s.heap[a].sequence == n;
        assert a in s'.heap && s'.heap[a].sequence == n;
      } else {
        assert WasFreed(s, n);
      }
    }
  }

  lemma {:induction false} GiveBackAllKeeps(s: State, held: seq<Entry>, now: int)
    requires Sound(s, held) && now > 0
    ensures Sound(GiveBackAll(s, held, now), [])
    decreases |held|
  {
    if held != [] {
      GiveBackKeeps(s, held, now);
      hide Sound, GiveBack;
      GiveBackAllKeeps(GiveBack(s, held[0], now), held[1..], now);
    }
  }

  lemma BeginKeeps(s: State, now: int, batch: seq<Entry>)
    requires Sound(s, []) && Enabled(s, Begin(now, batch))
    ensures Sound(Apply(s, Begin(now, batch)), batch)
    ensures forall e :: e in batch <==> e in s.timers && e.when <= now
    ensures forall i, j :: 0 <= i < j < |batch| ==> LessThan(batch[i], batch[j])
  {
    var s', x := Apply(s, Begin(now, batch)), Expired(s.timers, now);
    SameNumbers(s, s');
    assert forall e :: e in s.timers ==> e.addr < UINTPTR_MAX;
    forall a
      ensures InTimers(s, a) <==> InTimers(s', a) || Held(batch, a)
      ensures !(InTimers(s', a) && Held(batch, a))
    {
      if InTimers(s, a) {
        var e :| e in s.timers && e.addr == a;
        assert e in s'.timers || e in batch;
      }
    }
    forall i, j | 0 <= i < j < |batch|
      ensures batch[i].addr != batch[j].addr
    {
      assert batch[i] in batch && batch[j] in batch && LessThan(batch[i], batch[j]);
    }
    BeginIndices(s, now, batch);
    hide Numbered;
  }

  lemma BeginIndices(s: State, now: int, batch: seq<Entry>)
    requires Sound(s, []) && Enabled(s, Begin(now, batch))
    ensures SameTimers(Apply(s, Begin(now, batch)))
  {
    hide Numbered, Places;
    var s', x := Apply(s, Begin(now, batch)), Expired(s.timers, now);
    forall e | e in s'.timers
      ensures IdOf(s', e.addr) in s'.active
    {
      assert IdOf(s, e.addr) in s.active;
      assert forall y :: y in x && y.addr == e.addr ==> y.when == e.when;
    }
    forall id | id in s'.active
      ensures Entry(s.heap[id.addr].expiration, id.addr) in s'.timers
    {
      var e := Entry(s.heap[id.addr].expiration, id.addr);
      assert e in s.timers;
      if e in x {
        assert false;
      }
    }
  }

  // ---------------------------------------------------------------- runs

  // One step of a run.
  lemma StepKeeps(s: State, a: Action)
    requires Inv(s) && Enabled(s, a)
    ensures Inv(Apply(s, a))
  {
    hide Places, SameTimers, Numbered;
    match a
    case Create(addr, when, interval, repeat) => CreateKeeps(s, HeldBy(s), addr, when, interval, repeat);
    case Add(addr, clock) =>
      AddKeeps(s, HeldBy(s), addr, clock);
      AddInTime(s, addr, clock);
    case Cancel(id) => CancelKeeps(s, HeldBy(s), id);
    case Expire => SoundSame(s, Apply(s, a), HeldBy(s));
    case Begin(now, batch) => BeginKeeps(s, now, batch);
    case RunNext => SoundSame(s, Apply(s, a), HeldBy(s));
    case Finish(clock) => FinishKeeps(s, clock);
  }

  lemma SoundSame(s: State, s': State, held: seq<Entry>)
    requires Sound(s, held)
    requires s'.timers == s.timers && s'.active == s.active && s'.heap == s.heap && s'.pending == s.pending
    requires s'.created == s.created && s'.freed == s.freed
    ensures Sound(s', held)
  {
    SameNumbers(s, s');
    SameQueue(s, s');
    hide InTimers, Held, Numbered;
  }

  lemma FinishKeeps(s: State, clock: int)
    requires Inv(s) && Enabled(s, Finish(clock))
    ensures Sound(Apply(s, Finish(clock)), []) && Apply(s, Finish(clock)).phase.Idle?
    ensures forall e :: e in Apply(s, Finish(clock)).timers ==> InTime(Apply(s, Finish(clock)).fd, e.when)
  {
    assert forall a :: a in s.heap ==> s.heap[a].interval >= 0;
    hide Places, SameTimers, Numbered, InTime;
    var mid := GiveBackAll(s, s.phase.batch, s.phase.now);
    GiveBackAllKeeps(s, s.phase.batch, s.phase.now);
    hide GiveBackAll;
    var idle := mid.(phase := Idle);
    SoundSame(mid, idle, []);
    SoundSame(idle, Rearmed(idle, clock), []);
    GivenBackTimers(s, s.phase.batch, s.phase.now);
    RearmedInTime(idle, clock);
  }

  // Timers that are given back expire in the future.
  lemma {:induction false} GivenBackTimers(s: State, held: seq<Entry>, now: int)
    requires now > 0 && forall a :: a in s.heap ==> s.heap[a].interval >= 0
    ensures var t := GiveBackAll(s, held, now); t.fd == s.fd && forall e :: e in t.timers ==> e in s.timers || e.when > 0
    decreases |held|
  {
    if held != [] {
      GivenBackTimers(GiveBack(s, held[0], now), held[1..], now);
    }
  }

  // reset arms a non-empty queue in time for its earliest timer, unless its expiration is no valid time, for which the
  // timerfd has been in time already.
  lemma RearmedInTime(s: State, clock: int)
    requires forall e :: e in s.timers && e.when <= 0 ==> InTime(s.fd, e.when)
    ensures forall e :: e in s.timers ==> InTime(Rearmed(s, clock).fd, e.when)
  {
    if s.timers != {} {
      var e := EarliestExists(s.timers);
      RearmedExactly(s, clock, e);
      hide Rearmed;
      assert e.when <= 0 ==> InTime(s.fd, e.when);
    }
  }

  // reset arms exactly when the earliest expiration is valid; otherwise the fd is left as it was.
  lemma RearmedExactly(s: State, clock: int, e: Entry)
    requires Earliest(s.timers, e)
    ensures Rearmed(s, clock).fd == if e.when > 0 then Arm(clock, e.when) else s.fd
  {
    forall x | Earliest(s.timers, x)
      ensures x == e
    {
      EarliestUnique(s.timers, x, e);
    }
  }

  lemma {:induction false} EarliestExists(timers: set<Entry>) returns (e: Entry)
    requires timers != {}
    ensures Earliest(timers, e)
    decreases timers
  {
    var x :| x in timers;
    if timers == {x} {
      e := x;
    } else {
      var y := EarliestExists(timers - {x});
      assert forall z :: z in timers ==> z == x || z in timers - {x};
      e := if LessThan(x, y) then x else y;
    }
  }

  lemma EarliestUnique(timers: set<Entry>, e: Entry, f: Entry)
    requires Earliest(timers, e) && Earliest(timers, f)
    ensures e == f
  {
  }

  // Over every run of add, cancel and fire steps, the indices agree, every timer is freed once, and none is forgotten.
  lemma {:induction false} RunKeeps(s: State, acts: seq<Action>)
    requires Inv(s) && Runs(s, acts)
    ensures Inv(Run(s, acts))
    decreases |acts|
  {
    hide Inv, Enabled, Apply;
    if acts != [] {
      StepKeeps(s, acts[0]);
      RunKeeps(Apply(s, acts[0]), acts[1..]);
    }
  }

  // So from an empty queue both indices always have the same size, as the code asserts, and no timer is forgotten.
  lemma QueueKeeps(acts: seq<Action>)
    requires Runs(START, acts)
    ensures var s := Run(START, acts);
            Inv(s) && |s.timers| == |s.active| && (s.phase.Idle? ==> forall e :: e in s.timers ==> InTime(s.fd, e.when))
  {
    assert Inv(START);
    RunKeeps(START, acts);
    var s := Run(START, acts);
    assert SameTimers(s) && NoneForgotten(s);
    SameSize(s, s.timers, s.active);
  }

  // A callback runs on a timer that is alive and was due when it was taken.
  lemma RunsOnlyAlive(s: State)
    requires Inv(s) && Enabled(s, RunNext)
    ensures s.phase.batch[s.phase.next].addr in s.heap
    ensures s.phase.batch[s.phase.next].when <= s.phase.now
  {
    assert s.phase.batch[s.phase.next] in s.phase.batch;
  }

  // While callbacks add and cancel timers, also those of the batch itself, nothing happens to the batch's timers.
  ghost predicate SameBatch(s: State, t: State) {
    && s.phase.Firing? && t.phase.Firing? && t.phase.batch == s.phase.batch && t.phase.now == s.phase.now
    && forall e :: e in s.phase.batch ==> e.addr in s.heap && e.addr in t.heap && t.heap[e.addr] == s.heap[e.addr]
  }

  lemma BatchUntouched(s: State, a: Action)
    requires Inv(s) && Enabled(s, a) && s.phase.Firing? && !a.Finish?
    ensures SameBatch(s, Apply(s, a))
  {
    hide Numbered, NoneForgotten;
    forall e | e in s.phase.batch
      ensures e.addr in s.heap && e.addr in Apply(s, a).heap && Apply(s, a).heap[e.addr] == s.heap[e.addr]
    {
      assert Held(s.phase.batch, e.addr);
      assert !InTimers(s, e.addr);
    }
  }

  // So every callback of a batch runs on the very timer that was taken: none is freed, replaced or rescheduled before
  // the batch is finished, whatever is cancelled meanwhile.
  lemma {:induction false} BatchRunsAsTaken(s: State, acts: seq<Action>)
    requires Inv(s) && s.phase.Firing? && Runs(s, acts) && forall i :: 0 <= i < |acts| ==> !acts[i].Finish?
    ensures SameBatch(s, Run(s, acts))
    decreases |acts|
  {
    if acts == [] {
      assert Places(s, s.phase.batch);
    } else {
      BatchUntouched(s, acts[0]);
      StepKeeps(s, acts[0]);
      hide Inv, Enabled, Apply;
      BatchRunsAsTaken(Apply(s, acts[0]), acts[1..]);
    }
  }

  // Both indices have the same size, as the assertions in the code say.
  lemma {:induction false} SameSize(s: State, ts: set<Entry>, ids: set<TimerId>)
    requires forall e :: e in ts ==> e.addr in s.heap && s.heap[e.addr].expiration == e.when && IdOf(s, e.addr) in ids
    requires forall id :: id in ids ==> id.addr in s.heap && id == IdOf(s, id.addr) && Entry(s.heap[id.addr].expiration, id.addr) in ts
    ensures |ts| == |ids|
    decreases ts
  {
    if e :| e in ts {
      SameSize(s, ts - {e}, ids - {IdOf(s, e.addr)});
    } else {
      assert ids == {};
    }
  }

  // ---------------------------------------------------------------- cancellation

  // A timer that no later batch will hold: freed, or held by handleRead and marked for freeing.
  ghost predicate Doomed(s: State, id: TimerId) {
    && id.sequence <= s.created
    && (IsAlive(s, id) ==> s.phase.Firing? && Held(s.phase.batch, id.addr) && id in s.canceling)
  }

  ghost predicate IsAlive(s: State, id: TimerId) {
    id.addr in s.heap && s.heap[id.addr].sequence == id.sequence
  }

  // Cancelling dooms a timer exactly if it is not still waiting for its addTimerInLoop.
  lemma CancelDooms(s: State, id: TimerId)
    requires Inv(s) && id.sequence <= s.created
    ensures Doomed(CancelStep(s, id), id) <==> !(id.addr in s.pending && IsAlive(s, id))
  {
    hide Numbered;
    if IsAlive(s, id) {
      if id.addr in s.pending {
        assert !InTimers(s, id.addr) && !Held(HeldBy(s), id.addr);
      } else if id !in s.active {
        assert !InTimers(s, id.addr);
        assert Held(HeldBy(s), id.addr);
      }
    }
  }

  // A stale identity cancels nothing else: no timer, index or heap cell changes, also when the address is in use again.
  lemma StaleCancelIsHarmless(s: State, id: TimerId)
    requires Inv(s) && !IsAlive(s, id)
    ensures var s' := CancelStep(s, id);
            s'.timers == s.timers && s'.active == s.active && s'.heap == s.heap && s'.freed == s.freed && s'.pending == s.pending
    ensures forall other :: other != id ==> (other in CancelStep(s, id).canceling <==> other in s.canceling)
  {
    hide Numbered, Places;
  }

  lemma DoomedStays(s: State, a: Action, id: TimerId)
    requires Inv(s) && Enabled(s, a) && Doomed(s, id)
    ensures Doomed(Apply(s, a), id)
  {
    match a
    case Create(_, _, _, _) =>
    case Add(_, _) =>
    case Cancel(other) =>
    case Expire =>
    case Begin(_, _) =>
    case RunNext =>
    case Finish(clock) =>
      FinishFrees(s, s.phase.batch, s.phase.now, id);
  }

  // reset frees every cancelled timer of the batch.
  lemma {:induction false} FinishFrees(s: State, held: seq<Entry>, now: int, id: TimerId)
    requires Sound(s, held) && now > 0 && id.sequence <= s.created
    requires IsAlive(s, id) ==> Held(held, id.addr) && id in s.canceling
    ensures !IsAlive(GiveBackAll(s, held, now), id) && GiveBackAll(s, held, now).created == s.created
    decreases |held|
  {
    if held != [] {
      GiveBackKeeps(s, held, now);
      HeldTail(held);
      var s' := GiveBack(s, held[0], now);
      assert held[0] in held;
      assert s'.created == s.created && (IsAlive(s', id) ==> IsAlive(s, id));
      hide Sound;
      FinishFrees(s', held[1..], now, id);
    }
  }

  // After cancelInLoop, on every continuation of the run, the timer is in no batch that is taken later.
  lemma {:induction false} NeverInALaterBatch(s: State, acts: seq<Action>, id: TimerId)
    requires Inv(s) && Doomed(s, id) && Runs(s, acts)
    ensures Inv(Run(s, acts)) && Doomed(Run(s, acts), id)
    ensures forall now, batch :: Enabled(Run(s, acts), Begin(now, batch)) && Held(batch, id.addr) ==> !IsAlive(Run(s, acts), id)
    decreases |acts|
  {
    if acts != [] {
      StepKeeps(s, acts[0]);
      DoomedStays(s, acts[0], id);
      hide Inv, Doomed, Enabled, Apply;
      NeverInALaterBatch(Apply(s, acts[0]), acts[1..], id);
    }
  }

  // On some continuation the timer is in a batch that is taken then, and will run.
  ghost predicate CanFire(s: State, id: TimerId) {
    exists acts, now, batch :: FiresAfter(s, id, acts, now, batch)
  }

  ghost predicate FiresAfter(s: State, id: TimerId, acts: seq<Action>, now: int, batch: seq<Entry>) {
    && Runs(s, acts) && Enabled(Run(s, acts), Begin(now, batch))
    && IsAlive(Run(s, acts), id) && Held(batch, id.addr)
  }

  // A cancelled timer can still fire in a later batch exactly if cancelInLoop ran before its addTimerInLoop: the timer
  // was created on another thread and cancelled in the loop thread while the functor that adds it was still queued.
  lemma CancelledCanFire(s: State, id: TimerId)
    requires Inv(s) && id.sequence <= s.created
    ensures CanFire(CancelStep(s, id), id) <==> id.addr in s.pending && IsAlive(s, id)
  {
    var t := CancelStep(s, id);
    StepKeeps(s, Cancel(id));
    assert t == Apply(s, Cancel(id));
    CancelDooms(s, id);
    if id.addr in s.pending && IsAlive(s, id) {
      assert id !in s.active by { NotYetActive(s, id); }
      PendingFires(t, id);
    } else if CanFire(t, id) {
      var acts, now, batch :| FiresAfter(t, id, acts, now, batch);
      NeverInALaterBatch(t, acts, id);
      assert false;
    }
  }

  lemma NotYetActive(s: State, id: TimerId)
    requires Inv(s) && id.addr in s.pending
    ensures id !in s.active
  {
    assert !InTimers(s, id.addr);
  }

  // A timer that waits to be added can be added and fire, once the present batch is finished.
  lemma PendingFires(s: State, id: TimerId)
    requires Inv(s) && id.addr in s.pending && IsAlive(s, id)
    ensures CanFire(s, id)
  {
    var acts := Finishing(s, id.addr);
    var t := Run(s, acts);
    RunKeeps(s, acts);
    var u := Apply(t, Add(id.addr, 0));
    StepKeeps(t, Add(id.addr, 0));
    var when := t.heap[id.addr].expiration;
    AddedIsDue(t, id.addr);
    var now := if when > 0 then when else 1;
    var batch := ListingOf(Expired(u.timers, now));
    assert Entry(when, id.addr) in batch;
    RunOneMore(s, acts, Add(id.addr, 0));
    assert FiresAfter(s, id, acts + [Add(id.addr, 0)], now, batch);
  }

  lemma AddedIsDue(t: State, addr: int)
    requires Inv(t) && t.phase.Idle? && addr in t.pending
    ensures addr in t.heap && Enabled(t, Add(addr, 0))
    ensures var u, when := Apply(t, Add(addr, 0)), t.heap[addr].expiration;
            && u.phase.Idle? && u.heap == t.heap && Entry(when, addr) in Expired(u.timers, if when > 0 then when else 1)
  {
    hide InTimers, Held, SameTimers, NoneForgotten;
  }

  lemma {:induction false} RunOneMore(s: State, acts: seq<Action>, a: Action)
    requires Runs(s, acts) && Enabled(Run(s, acts), a)
    ensures Runs(s, acts + [a]) && Run(s, acts + [a]) == Apply(Run(s, acts), a)
    decreases |acts|
  {
    hide Enabled, Apply;
    if acts == [] {
      assert acts + [a] == [a] && [a][1..] == [];
      assert Runs(Apply(s, a), []);
    } else {
      assert (acts + [a])[0] == acts[0] && (acts + [a])[1..] == acts[1..] + [a];
      RunOneMore(Apply(s, acts[0]), acts[1..], a);
    }
  }

  lemma {:induction false} ListingOf(x: set<Entry>) returns (q: seq<Entry>)
    ensures Listing(q, x)
    decreases x
  {
    if x == {} {
      q := [];
    } else {
      var e := EarliestExists(x);
      var rest := ListingOf(x - {e});
      q := [e] + rest;
      forall f
        ensures f in q <==> f in x
      {
        assert f in q <==> f == e || f in rest;
      }
      forall i, j | 0 <= i < j < |q|
        ensures LessThan(q[i], q[j])
      {
        if i == 0 {
          assert q[j] == rest[j - 1] && rest[j - 1] in rest;
        } else {
          assert q[i] == rest[i - 1] && q[j] == rest[j - 1];
        }
      }
    }
  }

  // The steps that finish the present batch leave a timer that waits to be added as it is.
  lemma {:induction false} Finishing(s: State, addr: int) returns (acts: seq<Action>)
    requires Inv(s) && addr in s.pending && addr in s.heap
    ensures Runs(s, acts)
    ensures var t := Run(s, acts); t.phase.Idle? && addr in t.pending && addr in t.heap && t.heap[addr] == s.heap[addr]
    decreases if s.phase.Firing? then |s.phase.batch| - s.phase.next else -1
  {
    if s.phase.Idle? {
      acts := [];
    } else if s.phase.next < |s.phase.batch| {
      var t := Apply(s, RunNext);
      StepKeeps(s, RunNext);
      var rest := Finishing(t, addr);
      acts := [RunNext] + rest;
      assert acts[1..] == rest;
      hide Inv;
    } else {
      var t := Apply(s, Finish(0));
      GivenBackKeepsPending(s, s.phase.batch, s.phase.now, addr) by {
        assert Places(s, s.phase.batch);
        assert !Held(s.phase.batch, addr);
      }
      acts := [Finish(0)];
      assert acts[1..] == [] && Runs(t, []) && Run(t, []) == t;
      hide Inv;
    }
  }

  lemma {:induction false} GivenBackKeepsPending(s: State, held: seq<Entry>, now: int, addr: int)
    requires addr in s.pending && addr in s.heap && !Held(held, addr)
    ensures var t := GiveBackAll(s, held, now); addr in t.pending && addr in t.heap && t.heap[addr] == s.heap[addr]
    decreases |held|
  {
    if held != [] {
      assert held[0] in held && held[0].addr != addr;
      assert forall e :: e in held[1..] ==> e in held;
      GivenBackKeepsPending(GiveBack(s, held[0], now), held[1..], now, addr);
    }
  }

  // Such a run: the timer is created on another thread, cancelled before it is added, added, and fires.
  lemma CancelledTimerFires()
    ensures var acts := [Create(1, 5, 0, false), Cancel(TimerId(1, 1)), Add(1, 0)];
            Runs(START, acts) && Enabled(Run(START, acts), Begin(10, [Entry(5, 1)])) && IsAlive(Run(START, acts), TimerId(1, 1))
  {
    var a, b, c := Create(1, 5, 0, false), Cancel(TimerId(1, 1)), Add(1, 0);
    var s1 := Apply(START, a);
    var s2 := Apply(s1, b);
    assert s2 == s1;
    var s3 := Apply(s2, c);
    assert s3.timers == {Entry(5, 1)};
    assert [a, b, c][1..] == [b, c] && [b, c][1..] == [c] && [c][1..] == [];
    assert Runs(s3, []);
    assert Runs(s2, [c]) && Runs(s1, [b, c]);
  }

  // ---------------------------------------------------------------- the class

  // The methods of the loop thread, each tied to its step.  handleRead is cut where it calls out, because callbacks
  // may add and cancel timers; `now` and `batch` are its locals.
  class Queue {
    var timers: set<Entry>
    var active: set<TimerId>
    var canceling: set<TimerId>
    var calling: bool
    var heap: map<int, Timer>
    var pending: set<int>
    var created: int
    var fd: Fd
    var now: int
    var batch: seq<Entry>
    var next: nat
    ghost var freed: seq<TimerId>
    ghost var ran: seq<Entry>

    ghost function View(): State
      reads this
    {
      State(timers, active, canceling, heap, pending, created, fd, if calling then Firing(now, batch, next) else Idle, freed, ran)
    }

    constructor ()
      ensures View() == START
    {
      timers, active, canceling, calling := {}, {}, {}, false;
      heap, pending, created, fd := map[], {}, 0, Disarmed;
      now, batch, next, freed, ran := 0, [], 0, [], [];
    }

    method First() returns (e: Entry)
      requires timers != {}
      ensures Earliest(timers, e)
    {
      var w := EarliestExists(timers);
      e :| e in timers && forall x :: x in timers ==> e == x || LessThan(e, x);
    }

    method Insert(addr: int) returns (earliestChanged: bool)
      requires addr in heap
      modifies `timers, `active
      ensures View() == Inserted(old(View()), addr)
      ensures earliestChanged <==> EarliestChanged(old(timers), heap[addr].expiration)
    {
      earliestChanged := false;
      var when := heap[addr].expiration;
      if timers == {} {
        earliestChanged := true;
      } else {
        var it := First();
        if when < it.when {
          earliestChanged := true;
        }
      }
      timers := timers + {Entry(when, addr)};
      active := active + {TimerId(addr, heap[addr].sequence)};
    }

    method Delete(addr: int)
      requires addr in heap
      modifies `heap, `freed
      ensures View() == Freed(old(View()), addr)
    {
      freed := freed + [TimerId(addr, heap[addr].sequence)];
      heap := heap - {addr};
    }

    method AddTimerInLoop(addr: int, clock: int)
      requires Enabled(View(), Add(addr, clock))
      modifies this
      ensures View() == Apply(old(View()), Add(addr, clock))
    {
      var earliestChanged := Insert(addr);
      pending := pending - {addr};
      if earliestChanged {
        fd := Arm(clock, heap[addr].expiration);
      }
    }

    method CancelInLoop(id: TimerId)
      requires Inv(View())
      modifies this
      ensures View() == Apply(old(View()), Cancel(id))
    {
      if id in active {
        timers := timers - {Entry(heap[id.addr].expiration, id.addr)};
        Delete(id.addr);
        active := active - {id};
      } else if calling {
        canceling := canceling + {id};
      }
    }

    // The first half of getExpired: moves the entries before the sentry out of timers_, earliest first.
    method TakeExpired(t: int) returns (expired: seq<Entry>)
      modifies `timers
      ensures Listing(expired, Expired(old(timers), t)) && timers == old(timers) - Expired(old(timers), t)
    {
      expired := [];
      while timers != {}
        invariant Taken(old(timers), timers, expired, t)
        decreases timers
      {
        var e := First();
        if !LessThan(e, Entry(t, UINTPTR_MAX)) {
          break;
        }
        TakeFirst(old(timers), timers, expired, t, e);
        timers := timers - {e};
        expired := expired + [e];
      }
      NoMore(old(timers), timers, expired, t);
    }

    // The second half: erases them from activeTimers_.
    method EraseActive(expired: seq<Entry>)
      requires forall k :: 0 <= k < |expired| ==> expired[k].addr in heap
      modifies `active
      ensures active == old(active) - IdsOf(View(), expired)
    {
      var i := 0;
      while i < |expired|
        invariant 0 <= i <= |expired|
        invariant active == old(active) - IdsOf(old(View()), expired[..i])
      {
        IdsNext(old(View()), expired, i);
        active := active - {TimerId(expired[i].addr, heap[expired[i].addr].sequence)};
        i := i + 1;
      }
      assert expired[..i] == expired;
      IdsSame(old(View()), View(), expired);
    }

    method GetExpired(t: int) returns (expired: seq<Entry>)
      requires forall e :: e in timers ==> e.addr in heap
      modifies `timers, `active
      ensures Listing(expired, Expired(old(timers), t)) && timers == old(timers) - Expired(old(timers), t)
      ensures active == old(active) - IdsIn(old(View()), Expired(old(timers), t))
    {
      hide Listing, IdsOf, IdsIn, LessThan;
      ghost var s := View();
      expired := TakeExpired(t);
      ListedInHeap(s, expired, Expired(s.timers, t));
      EraseActive(expired);
      IdsSame(s, View(), expired);
      SameIds(s, expired, Expired(s.timers, t));
    }

    // handleRead up to the callbacks.
    method HandleReadBegin(t: int)
      requires Inv(View()) && !calling && t > 0
      modifies this
      ensures Enabled(old(View()), Begin(t, batch)) && View() == Apply(old(View()), Begin(t, batch))
    {
      ghost var s := View();
      QueueInHeap(s);
      hide Inv, Listing, IdsIn, LessThan, Enabled, Apply, Expired;
      now := t;
      if fd.Fired? {
        fd := Disarmed;
      }
      IdsSameIn(s, View(), Expired(s.timers, t));
      batch := GetExpired(t);
      calling := true;
      canceling := {};
      next := 0;
      Begun(s, View(), t, batch);
    }

    // One callback; what it does to the queue are steps of its own.
    method RunNextCallback()
      requires Inv(View()) && Enabled(View(), RunNext)
      modifies `next, `ran
      ensures View() == Apply(old(View()), RunNext)
    {
      RunsOnlyAlive(View());
      var timer := heap[batch[next].addr];
      ran := ran + [batch[next]];
      next := next + 1;
    }

    // handleRead after the callbacks, with reset.
    method HandleReadEnd(clock: int)
      requires Inv(View()) && Enabled(View(), Finish(clock))
      modifies this
      ensures View() == Apply(old(View()), Finish(clock))
    {
      ghost var s := View();
      hide Sound, Inv;
      var i := 0;
      while i < |batch|
        invariant 0 <= i <= |batch| && calling && batch == old(batch) && now == old(now)
        invariant GiveBackAll(View(), batch[i..], now) == GiveBackAll(s, batch, now)
      {
        var e := batch[i];
        assert batch[i..][0] == e && batch[i..][1..] == batch[i + 1..];
        GiveBackOne(e);
        i := i + 1;
      }
      calling := false;
      if timers != {} {
        var e := First();
        RearmedExactly(View(), clock, e);
        if e.when > 0 {
          fd := Arm(clock, e.when);
        }
      }
    }

    method GiveBackOne(e: Entry)
      requires calling
      modifies `timers, `active, `heap, `freed
      ensures View() == GiveBack(old(View()), e, now)
    {
      if e.addr in heap {
        var timer := heap[e.addr];
        if timer.repeat && TimerId(e.addr, timer.sequence) !in canceling {
          heap := heap[e.addr := timer.(expiration := now + timer.interval)];
          var changed := Insert(e.addr);
        } else {
          Delete(e.addr);
        }
      }
    }
  }

  // getExpired's first loop: `out` are the smallest of `all`, in order, and the rest is still in the set.
  ghost predicate Taken(all: set<Entry>, rest: set<Entry>, out: seq<Entry>, t: int) {
    && rest <= all && (forall e :: e in out <==> e in all && e !in rest)
    && (forall e :: e in out ==> LessThan(e, Entry(t, UINTPTR_MAX)))
    && (forall i, j :: 0 <= i < j < |out| ==> LessThan(out[i], out[j]))
    && (forall e, f :: e in out && f in rest ==> LessThan(e, f))
  }

  lemma TakeFirst(all: set<Entry>, rest: set<Entry>, out: seq<Entry>, t: int, e: Entry)
    requires Taken(all, rest, out, t) && Earliest(rest, e) && LessThan(e, Entry(t, UINTPTR_MAX))
    ensures Taken(all, rest - {e}, out + [e], t)
  {
    var out' := out + [e];
    forall i, j | 0 <= i < j < |out'|
      ensures LessThan(out'[i], out'[j])
    {
      assert i < |out| && out[i] in out;
    }
  }

  lemma NoMore(all: set<Entry>, rest: set<Entry>, out: seq<Entry>, t: int)
    requires Taken(all, rest, out, t)
    requires rest == {} || exists e :: Earliest(rest, e) && !LessThan(e, Entry(t, UINTPTR_MAX))
    ensures Listing(out, Expired(all, t)) && rest == all - Expired(all, t)
  {
    forall x | x in rest
      ensures !LessThan(x, Entry(t, UINTPTR_MAX))
    {
    }
  }

  ghost function IdsOf(s: State, q: seq<Entry>): set<TimerId> {
    set e | e in q && e.addr in s.heap :: IdOf(s, e.addr)
  }

  lemma IdsNext(s: State, q: seq<Entry>, i: int)
    requires 0 <= i < |q| && q[i].addr in s.heap
    ensures IdsOf(s, q[..i + 1]) == IdsOf(s, q[..i]) + {IdOf(s, q[i].addr)}
  {
    assert q[..i + 1] == q[..i] + [q[i]];
  }

  ghost function IdsIn(s: State, x: set<Entry>): set<TimerId> { set e | e in x && e.addr in s.heap :: IdOf(s, e.addr) }

  lemma IdsSame(s: State, s': State, q: seq<Entry>)
    requires s'.heap == s.heap
    ensures IdsOf(s', q) == IdsOf(s, q)
  {
  }

  lemma IdsSameIn(s: State, s': State, x: set<Entry>)
    requires s'.heap == s.heap
    ensures IdsIn(s', x) == IdsIn(s, x)
  {
  }

  lemma SameIds(s: State, q: seq<Entry>, x: set<Entry>)
    requires Listing(q, x)
    ensures IdsOf(s, q) == IdsIn(s, x)
  {
  }

  lemma Begun(s: State, t: State, now: int, batch: seq<Entry>)
    requires s.phase.Idle? && now > 0 && Listing(batch, Expired(s.timers, now))
    requires t.timers == s.timers - Expired(s.timers, now)
    requires t.active == s.active - IdsIn(s, Expired(s.timers, now))
    requires t.fd == if s.fd.Fired? then Disarmed else s.fd
    requires t.canceling == {} && t.phase == Firing(now, batch, 0)
    requires t.heap == s.heap && t.pending == s.pending && t.created == s.created && t.freed == s.freed && t.ran == s.ran
    ensures Enabled(s, Begin(now, batch)) && t == Apply(s, Begin(now, batch))
  {
    hide Listing, LessThan;
  }

  lemma QueueInHeap(s: State)
    requires Inv(s)
    ensures forall e :: e in s.timers ==> e.addr in s.heap
  {
  }

  lemma ListedInHeap(s: State, q: seq<Entry>, x: set<Entry>)
    requires Listing(q, x) && x <= s.timers && forall e :: e in s.timers ==> e.addr in s.heap
    ensures forall k :: 0 <= k < |q| ==> q[k].addr in s.heap
  {
    forall k | 0 <= k < |q|
      ensures q[k].addr in s.heap
    {
      assert q[k] in q;
    }
  }
}
