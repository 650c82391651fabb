/** The poll(2) poller: an array of pollfd entries, a map from descriptors to channels, and in each channel the index of
  its entry. A channel without interest gets a negative descriptor in its entry, so that poll ignores it; removal swaps
  the last entry into the hole. */
module PollPoller {
  import opened Channels
  import opened Seqs

  // static_cast<short>
  function ToShort(x: int): int { (x + 0x8000) % 0x1_0000 - 0x8000 }

  // The one 16-bit number with the same low 16 bits; so a short comes through.
  lemma ToShortIs(x: int, y: int)
    ensures -32768 <= ToShort(x) <= 32767 && ToShort(x) % 65536 == x % 65536
    ensures -32768 <= y <= 32767 && y % 65536 == x % 65536 ==> y == ToShort(x)
    ensures -32768 <= x <= 32767 ==> ToShort(x) == x
  {
  }

  datatype Pfd = Pfd(fd: int, events: int, revents: int)

  // `objects` holds every channel there has been, registered or not.
  datatype State = State(pollfds: seq<Pfd>, channels: map<int, Channel>, objects: map<Channel, Info>)

  datatype Action = Create(c: Channel, fd: nat) | Update(c: Channel, events: int) | Remove(c: Channel) | Polled(revents: seq<int>)

  const START := State([], map[], map[])

  function Ignored(fd: int): int { -fd - 1 }

  function FdOf(x: int): int { if x < 0 then Ignored(x) else x }

  predicate Registered(s: State, c: Channel) {
    c in s.objects && s.objects[c].fd in s.channels && s.channels[s.objects[c].fd] == c
  }

  // What the assertions of updateChannel and removeChannel ask of the caller; poll reports nothing on an ignored entry.
  predicate Enabled(s: State, a: Action) {
    match a
    case Create(c, fd) => c !in s.objects
    case Update(c, _) => c in s.objects && if s.objects[c].index < 0 then s.objects[c].fd !in s.channels else Registered(s, c)
    case Remove(c) => Registered(s, c) && s.objects[c].events == 0
    case Polled(revents) => |revents| == |s.pollfds| && forall i :: 0 <= i < |revents| && s.pollfds[i].fd < 0 ==> revents[i] == 0
  }

  ghost predicate Inv(s: State) {
    && |s.pollfds| == |s.channels|
    && (forall fd :: fd in s.channels ==> Filed(s, fd))
    && (forall i :: 0 <= i < |s.pollfds| ==> Backed(s, i))
  }

  // The entry that a registered channel's index leads to is its own.
  ghost predicate Filed(s: State, fd: int)
    requires fd in s.channels
  {
    var c := s.channels[fd];
    && c in s.objects && s.objects[c].fd == fd
    && 0 <= s.objects[c].index < |s.pollfds|
    && FdOf(s.pollfds[s.objects[c].index].fd) == fd
    && s.pollfds[s.objects[c].index].events == ToShort(s.objects[c].events)
  }

  // Every entry belongs to a registered channel, whose index leads back to it.
  ghost predicate Backed(s: State, i: nat)
    requires i < |s.pollfds|
  {
    var fd := FdOf(s.pollfds[i].fd);
    fd in s.channels && s.channels[fd] in s.objects && s.objects[s.channels[fd]].index == i
  }

  // An action the caller may take: the invariant makes all accesses safe.
  function Apply(s: State, a: Action): State
    requires Inv(s) && Enabled(s, a)
  {
    match a
    case Create(c, fd) => s.(objects := s.objects[c := Info(fd, 0, -1)])
    case Update(c, events) => ApplyUpdate(s, c, events)
    case Remove(c) => ApplyRemove(s, c)
    case Polled(revents) => s.(pollfds := seq(|s.pollfds|, i requires 0 <= i < |s.pollfds| => s.pollfds[i].(revents := revents[i])))
  }

  // updateChannel, after the channel's interest has become `events`. The entry of a disabled channel is not restored.
  function ApplyUpdate(s: State, c: Channel, events: int): State
    requires Inv(s) && Enabled(s, Update(c, events))
  {
    var o := s.objects[c];
    if o.index < 0 then
      State(s.pollfds + [Pfd(o.fd, ToShort(events), 0)], s.channels[o.fd := c], s.objects[c := Info(o.fd, events, |s.pollfds|)])
    else
      assert Filed(s, o.fd);
      var p := s.pollfds[o.index];
      s.(pollfds := s.pollfds[o.index := Pfd(if events == 0 then Ignored(o.fd) else p.fd, ToShort(events), 0)],
         objects := s.objects[c := o.(events := events)])
  }

  // removeChannel: the last entry moves into the hole. The index of the removed channel is not reset.
  function ApplyRemove(s: State, c: Channel): State
    requires Inv(s) && Enabled(s, Remove(c))
  {
    var o := s.objects[c];
    assert Filed(s, o.fd);
    var n := |s.pollfds| - 1;
    if o.index == n then State(s.pollfds[..n], s.channels - {o.fd}, s.objects)
    else
      assert Backed(s, n);
      var moved := s.channels[FdOf(s.pollfds[n].fd)];
      State(s.pollfds[..n][o.index := s.pollfds[n]], s.channels - {o.fd}, s.objects[moved := s.objects[moved].(index := o.index)])
  }

  // ---------------------------------------------------------------- every step keeps the bijection

  lemma AddKeeps(s: State, c: Channel, events: int)
    requires Inv(s) && Enabled(s, Update(c, events)) && s.objects[c].index < 0
    ensures Inv(ApplyUpdate(s, c, events))
  {
    var t, o := ApplyUpdate(s, c, events), s.objects[c];
    forall fd | fd in t.channels
      ensures Filed(t, fd)
    {
      if fd != o.fd {
        assert Filed(s, fd);
      }
    }
    forall i | 0 <= i < |t.pollfds|
      ensures Backed(t, i)
    {
      if i < |s.pollfds| {
        assert Backed(s, i);
      }
    }
  }

  lemma ChangeKeeps(s: State, c: Channel, events: int)
    requires Inv(s) && Enabled(s, Update(c, events)) && s.objects[c].index >= 0
    ensures Inv(ApplyUpdate(s, c, events))
  {
    var t, o := ApplyUpdate(s, c, events), s.objects[c];
    assert Filed(s, o.fd);
    forall fd | fd in t.channels
      ensures Filed(t, fd)
    {
      assert Filed(s, fd) && Backed(s, s.objects[s.channels[fd]].index);
    }
    forall i | 0 <= i < |t.pollfds|
      ensures Backed(t, i)
    {
      assert Backed(s, i);
    }
  }

  lemma RemoveKeeps(s: State, c: Channel)
    requires Inv(s) && Enabled(s, Remove(c))
    ensures Inv(ApplyRemove(s, c))
  {
    var t, o, n := ApplyRemove(s, c), s.objects[c], |s.pollfds| - 1;
    assert Filed(s, o.fd) && Backed(s, n) && Backed(s, o.index);
    forall fd | fd in t.channels
      ensures Filed(t, fd)
    {
      assert Filed(s, fd) && Backed(s, s.objects[s.channels[fd]].index);
    }
    forall i | 0 <= i < |t.pollfds|
      ensures Backed(t, i)
    {
      assert Backed(s, i);
      assert Filed(s, FdOf(s.pollfds[i].fd));
    }
    assert t.channels.Keys == s.channels.Keys - {o.fd};
  }

  lemma StepKeeps(s: State, a: Action)
    requires Inv(s) && Enabled(s, a)
    ensures Inv(Apply(s, a))
  {
    match a {
      case Create(c, fd) =>
        forall fd' | fd' in s.channels
          ensures Filed(Apply(s, a), fd')
        {
          assert Filed(s, fd');
        }
        forall i | 0 <= i < |s.pollfds|
          ensures Backed(Apply(s, a), i)
        {
          assert Backed(s, i);
        }
      case Update(c, events) =>
        if s.objects[c].index < 0 {
          AddKeeps(s, c, events);
        } else {
          ChangeKeeps(s, c, events);
        }
      case Remove(c) => RemoveKeeps(s, c);
      case Polled(revents) =>
        forall fd | fd in s.channels
          ensures Filed(Apply(s, a), fd)
        {
          assert Filed(s, fd);
        }
        forall i | 0 <= i < |s.pollfds|
          ensures Backed(Apply(s, a), i)
        {
          assert Backed(s, i);
        }
    }
  }

  // ---------------------------------------------------------------- runs

  ghost predicate Runs(acts: seq<Action>)
    decreases |acts|, 0
  {
    acts == [] || (Runs(Before(acts)) && Enabled(Run(Before(acts)), Last(acts)))
  }

  // In every run, entries, map and indices stay in bijection.
  ghost function Run(acts: seq<Action>): (s: State)
    requires Runs(acts)
    ensures Inv(s)
    decreases |acts|, 1
  {
    if acts == [] then START
    else
      StepKeeps(Run(Before(acts)), Last(acts));
      Apply(Run(Before(acts)), Last(acts))
  }

  // What a channel's history makes of it: not registered; heard by poll since it was added; or ignored, because it has
  // been without interest at some time after it was added.
  datatype Phase = Out | Heard | Muted

  function PhaseOf(acts: seq<Action>, c: Channel): Phase
    decreases |acts|
  {
    if acts == [] then Out
    else
      var was := PhaseOf(Before(acts), c);
      match Last(acts)
      case Update(c', events) => if c' != c then was else if was.Out? then Heard else if events == 0 then Muted else was
      case Remove(c') => if c' != c then was else Out
      case _ => was
  }

  // The interest that a channel last asked for.
  function EventsOf(acts: seq<Action>, c: Channel): int
    decreases |acts|
  {
    if acts == [] then 0
    else if Last(acts).Update? && Last(acts).c == c then Last(acts).events
    else EventsOf(Before(acts), c)
  }

  // A step changes a channel's descriptor never, and its interest only on its own update.
  lemma StepRemembers(s: State, a: Action, c: Channel)
    requires Inv(s) && Enabled(s, a)
    ensures c in Apply(s, a).objects <==> c in s.objects || (a.Create? && a.c == c)
    ensures c in s.objects ==> Apply(s, a).objects[c].fd == s.objects[c].fd
                               && Apply(s, a).objects[c].events == if a.Update? && a.c == c then a.events else s.objects[c].events
    ensures a.Create? && a.c == c ==> Apply(s, a).objects[c].fd == a.fd && Apply(s, a).objects[c].events == 0
  {
    match a
    case Update(d, events) => RegisteredIsFiled(s, d);
    case Remove(d) =>
      InvAt(s, s.objects[d].fd);
      LastBacked(s);
      hide Inv;
    case _ =>
  }

  lemma RegisteredIsFiled(s: State, c: Channel)
    requires Inv(s)
    ensures Registered(s, c) ==> Filed(s, s.objects[c].fd)
  {
  }

  // Every channel has the descriptor it was created with, and the interest it asked for last.
  lemma {:induction false} ObjectsAreRemembered(acts: seq<Action>, c: Channel)
    requires Runs(acts)
    ensures c in Run(acts).objects ==> Create(c, Run(acts).objects[c].fd) in acts && Run(acts).objects[c].events == EventsOf(acts, c)
    ensures c !in Run(acts).objects ==> EventsOf(acts, c) == 0 && forall fd :: Create(c, fd) !in acts
    decreases |acts|
  {
    if acts != [] {
      var s, a := Run(Before(acts)), Last(acts);
      assert acts == Before(acts) + [a];
      ObjectsAreRemembered(Before(acts), c);
      StepRemembers(s, a, c);
      hide Inv;
    }
  }

  // The descriptor in a registered channel's entry.
  ghost function Watched(s: State, c: Channel): int
    requires Inv(s) && Registered(s, c)
  {
    assert Filed(s, s.objects[c].fd);
    s.pollfds[s.objects[c].index].fd
  }

  ghost predicate Agrees(s: State, c: Channel, p: Phase)
    requires Inv(s)
  {
    && (Registered(s, c) <==> !p.Out?)
    && (Registered(s, c) ==> Watched(s, c) == if p.Muted? then Ignored(s.objects[c].fd) else s.objects[c].fd)
  }

  lemma OtherKept(s: State, a: Action, c: Channel)
    requires Inv(s) && Enabled(s, a) && (a.Update? || a.Remove? ==> a.c != c)
    ensures Inv(Apply(s, a)) && (Registered(Apply(s, a), c) <==> Registered(s, c))
    ensures Registered(s, c) ==> Apply(s, a).objects[c].fd == s.objects[c].fd && Watched(Apply(s, a), c) == Watched(s, c)
  {
    StepKeeps(s, a);
    match a {
      case Update(d, events) => UpdateOther(s, d, events, c);
      case Remove(d) => RemoveOther(s, d, c);
      case _ =>
        if Registered(s, c) {
          assert Filed(s, s.objects[c].fd);
        }
    }
  }

  lemma UpdateOther(s: State, d: Channel, events: int, c: Channel)
    requires Inv(s) && Enabled(s, Update(d, events)) && d != c
    ensures var t := ApplyUpdate(s, d, events);
            Inv(t) && (Registered(t, c) <==> Registered(s, c))
            && (Registered(s, c) ==> t.objects[c].fd == s.objects[c].fd && Watched(t, c) == Watched(s, c))
  {
    StepKeeps(s, Update(d, events));
    hide Inv;
    if Registered(s, d) {
      assert Filed(s, s.objects[d].fd) by { assert Inv(s); InvAt(s, s.objects[d].fd); }
    }
    if Registered(s, c) {
      InvAt(s, s.objects[c].fd);
    }
  }

  lemma RemoveOther(s: State, d: Channel, c: Channel)
    requires Inv(s) && Enabled(s, Remove(d)) && d != c
    ensures var t := ApplyRemove(s, d);
            Inv(t) && (Registered(t, c) <==> Registered(s, c))
            && (Registered(s, c) ==> t.objects[c].fd == s.objects[c].fd && Watched(t, c) == Watched(s, c))
  {
    StepKeeps(s, Remove(d));
    hide Inv;
    InvAt(s, s.objects[d].fd);
    LastBacked(s);
    if Registered(s, c) {
      InvAt(s, s.objects[c].fd);
    }
  }

  lemma InvAt(s: State, fd: int)
    requires Inv(s) && fd in s.channels
    ensures Filed(s, fd) && Backed(s, s.objects[s.channels[fd]].index)
  {
    assert Filed(s, fd);
  }

  lemma LastBacked(s: State)
    requires Inv(s) && |s.pollfds| > 0
    ensures Backed(s, |s.pollfds| - 1)
  {
  }

  // Poll listens for a registered channel if and only if it has never been without interest since it was added: a
  // channel that is disabled and enabled again stays ignored.
  lemma {:induction false} HeardUnlessMuted(acts: seq<Action>, c: Channel)
    requires Runs(acts)
    ensures Agrees(Run(acts), c, PhaseOf(acts, c))
    decreases |acts|
  {
    if acts != [] {
      var s, a := Run(Before(acts)), Last(acts);
      HeardUnlessMuted(Before(acts), c);
      StepKeeps(s, a);
      if (a.Update? || a.Remove?) && a.c == c {
        if Registered(s, c) {
          assert Filed(s, s.objects[c].fd);
        }
      } else {
        OtherKept(s, a, c);
      }
    }
  }

  // What poll is asked about a registered channel, read off the actions: its descriptor, negated once it has been
  // without interest, and the low 16 bits of the interest it asked for last.
  lemma PollIsAsked(acts: seq<Action>, c: Channel, fd: nat)
    requires Runs(acts) && Create(c, fd) in acts
    ensures var s, own: int := Run(acts), fd;
            && c in s.objects && (Registered(s, c) <==> !PhaseOf(acts, c).Out?)
            && (Registered(s, c) ==> s.objects[c].index < |s.pollfds| && s.objects[c].index >= 0
                                     && s.pollfds[s.objects[c].index].fd == (if PhaseOf(acts, c).Muted? then -own - 1 else own)
                                     && s.pollfds[s.objects[c].index].events == ToShort(EventsOf(acts, c)))
  {
    ObjectsAreRemembered(acts, c);
    CreatedOnce(acts, c, fd);
    HeardUnlessMuted(acts, c);
    RegisteredIsFiled(Run(acts), c);
    hide Inv, Run, PhaseOf, EventsOf;
  }

  lemma {:induction false} CreatedOnce(acts: seq<Action>, c: Channel, fd: nat)
    requires Runs(acts) && Create(c, fd) in acts
    ensures c in Run(acts).objects && Run(acts).objects[c].fd == fd
    decreases |acts|
  {
    var s, a := Run(Before(acts)), Last(acts);
    assert acts == Before(acts) + [a];
    StepRemembers(s, a, c);
    if a != Create(c, fd) {
      CreatedOnce(Before(acts), c, fd);
    }
    hide Inv;
  }

  // Such a run: enabled, disabled, enabled again, and poll is asked about descriptor -4.
  lemma EnabledAgainIsIgnored(c: Channel)
    ensures var acts := [Create(c, 3), Update(c, 1), Update(c, 0), Update(c, 1)];
            && Runs(acts) && Registered(Run(acts), c)
            && Watched(Run(acts), c) == -4 && Run(acts).objects[c].events == 1
  {
    var a0, a1 := [Create(c, 3)], [Create(c, 3), Update(c, 1)];
    var a2 := a1 + [Update(c, 0)];
    var acts := a2 + [Update(c, 1)];
    OneMore([], Create(c, 3));
    assert [] + [Create(c, 3)] == a0 && a0 + [Update(c, 1)] == a1;
    OneMore(a0, Update(c, 1));
    OneMore(a1, Update(c, 0));
    OneMore(a2, Update(c, 1));
    assert acts == [Create(c, 3), Update(c, 1), Update(c, 0), Update(c, 1)];
  }

  lemma OneMore(acts: seq<Action>, a: Action)
    requires acts == [] || Runs(acts)
    requires Enabled(if acts == [] then START else Run(acts), a)
    ensures Runs(acts + [a]) && Run(acts) == (if acts == [] then START else Run(acts)) && Run(acts + [a]) == Apply(Run(acts), a)
  {
    assert Before(acts + [a]) == acts && Last(acts + [a]) == a;
  }

  // removeChannel also asserts that the entry is an ignored one: true exactly if the channel has been disabled since it
  // was added, which having no interest does not imply (it may have been added without any).
  lemma RemoveAssertion(acts: seq<Action>, c: Channel)
    requires Runs(acts) && Enabled(Run(acts), Remove(c))
    ensures Watched(Run(acts), c) == Ignored(Run(acts).objects[c].fd) <==> PhaseOf(acts, c).Muted?
  {
    HeardUnlessMuted(acts, c);
  }

  lemma AddedWithoutInterest(c: Channel)
    ensures var acts := [Create(c, 3), Update(c, 0)]; Runs(acts) && Enabled(Run(acts), Remove(c)) && Watched(Run(acts), c) == 3
  {
    var acts := [Create(c, 3), Update(c, 0)];
    assert Before(acts) == [Create(c, 3)] && Before([Create(c, 3)]) == [];
    assert Runs([]);
    assert Runs([Create(c, 3)]);
  }

  // A removed channel keeps its index, so it can never be added again.
  lemma {:induction false} RemovedStaysOut(acts: seq<Action>, more: seq<Action>, c: Channel)
    requires Runs(acts) && Runs(acts + more)
    requires c in Run(acts).objects && Run(acts).objects[c].index >= 0 && !Registered(Run(acts), c)
    ensures var s := Run(acts + more); c in s.objects && s.objects[c].index >= 0 && !Registered(s, c)
    ensures forall events :: !Enabled(Run(acts + more), Update(c, events))
    decreases |more|
  {
    if more == [] {
      assert acts + more == acts;
    } else {
      assert Before(acts + more) == acts + Before(more) && Last(acts + more) == Last(more);
      RemovedStaysOut(acts, Before(more), c);
      var s, a := Run(acts + Before(more)), Last(more);
      OtherKept(s, a, c);
      if a.Remove? {
        assert Filed(s, s.objects[a.c].fd) && Backed(s, |s.pollfds| - 1);
      }
    }
  }

  // So removing a channel is for ever: no continuation of the run can update it again.
  lemma RemovedNeverReturns(acts: seq<Action>, more: seq<Action>, c: Channel, events: int)
    requires Runs(acts + [Remove(c)]) && Runs(acts + [Remove(c)] + more)
    ensures !Registered(Run(acts + [Remove(c)] + more), c) && !Enabled(Run(acts + [Remove(c)] + more), Update(c, events))
  {
    var now := acts + [Remove(c)];
    assert Before(now) == acts && Last(now) == Remove(c);
    var s := Run(acts);
    InvAt(s, s.objects[c].fd);
    LastBacked(s);
    RemovedOut(s, c);
    RemovedStaysOut(now, more, c);
  }

  lemma RemovedOut(s: State, c: Channel)
    requires Inv(s) && Enabled(s, Remove(c))
    ensures var t := ApplyRemove(s, c); c in t.objects && t.objects[c].index >= 0 && !Registered(t, c)
  {
    InvAt(s, s.objects[c].fd);
    LastBacked(s);
    hide Inv;
  }

  // ---------------------------------------------------------------- active channels

  predicate Quiet(s: State) { forall i :: 0 <= i < |s.pollfds| && s.pollfds[i].revents > 0 ==> s.pollfds[i].fd >= 0 }

  function Count(ps: seq<Pfd>): nat {
    if ps == [] then 0 else (if ps[0].revents > 0 then 1 else 0) + Count(ps[1..])
  }

  predicate Known(ps: seq<Pfd>, channels: map<int, Channel>) {
    forall i :: 0 <= i < |ps| && ps[i].revents > 0 ==> ps[i].fd in channels
  }

  predicate Distinct(a: seq<Channel>) { forall i, j :: 0 <= i < j < |a| ==> a[i] != a[j] }

  // fillActiveChannels: the channels of the first `n` entries with events.
  function Active(ps: seq<Pfd>, channels: map<int, Channel>, n: int): seq<Channel>
    requires Known(ps, channels)
  {
    if ps == [] || n <= 0 then []
    else if ps[0].revents > 0 then [channels[ps[0].fd]] + Active(ps[1..], channels, n - 1)
    else Active(ps[1..], channels, n)
  }

  lemma {:induction false} ActiveHas(ps: seq<Pfd>, channels: map<int, Channel>, c: Channel)
    requires Known(ps, channels)
    ensures |Active(ps, channels, Count(ps))| == Count(ps)
    ensures c in Active(ps, channels, Count(ps)) <==> exists i :: 0 <= i < |ps| && ps[i].revents > 0 && channels[ps[i].fd] == c
  {
    if ps != [] {
      var rest := ps[1..];
      ActiveHas(rest, channels, c);
      if i :| 0 <= i < |ps| && ps[i].revents > 0 && channels[ps[i].fd] == c {
        if i > 0 {
          assert rest[i - 1] == ps[i];
        }
      }
      if i :| 0 <= i < |rest| && rest[i].revents > 0 && channels[rest[i].fd] == c {
        assert ps[i + 1] == rest[i];
      }
      if Count(ps) == 0 {
        assert Count(rest) == 0;
      }
    }
  }

  // Where entries have different descriptors and descriptors different channels, nothing is active twice.
  lemma {:induction false} ActiveOnce(ps: seq<Pfd>, channels: map<int, Channel>)
    requires Known(ps, channels)
    requires forall i, j :: 0 <= i < j < |ps| && ps[i].revents > 0 && ps[j].revents > 0 ==> channels[ps[i].fd] != channels[ps[j].fd]
    ensures Distinct(Active(ps, channels, Count(ps)))
  {
    if ps != [] {
      var rest := ps[1..];
      assert forall i :: 0 <= i < |rest| ==> rest[i] == ps[i + 1];
      ActiveOnce(rest, channels);
      if ps[0].revents > 0 {
        ActiveHas(rest, channels, channels[ps[0].fd]);
        assert channels[ps[0].fd] !in Active(rest, channels, Count(rest));
        assert Active(ps, channels, Count(ps)) == [channels[ps[0].fd]] + Active(rest, channels, Count(rest));
      } else {
        assert Count(ps) == Count(rest);
        if Count(rest) == 0 {
          assert Active(ps, channels, Count(ps)) == [];
        }
      }
    }
  }

  lemma EntriesDiffer(s: State, i: nat, j: nat)
    requires Inv(s) && Quiet(s) && i < j < |s.pollfds| && s.pollfds[i].revents > 0 && s.pollfds[j].revents > 0
    ensures s.pollfds[i].fd in s.channels && s.pollfds[j].fd in s.channels
    ensures s.channels[s.pollfds[i].fd] != s.channels[s.pollfds[j].fd]
  {
    assert Backed(s, i) && Backed(s, j);
    assert Filed(s, s.pollfds[i].fd) && Filed(s, s.pollfds[j].fd);
  }

  // After poll, the active channels are exactly the registered ones whose entry has events, each once, and the
  // assertions on the way hold.
  lemma ActiveIsExact(s: State, c: Channel)
    requires Inv(s) && Quiet(s)
    ensures Known(s.pollfds, s.channels)
    ensures var a := Active(s.pollfds, s.channels, Count(s.pollfds));
            && (c in a <==> Registered(s, c) && s.pollfds[s.objects[c].index].revents > 0)
            && Distinct(a)
  {
    forall i | 0 <= i < |s.pollfds| && s.pollfds[i].revents > 0
      ensures s.pollfds[i].fd in s.channels
    {
      assert Backed(s, i);
    }
    forall i, j | 0 <= i < j < |s.pollfds| && s.pollfds[i].revents > 0 && s.pollfds[j].revents > 0
      ensures s.channels[s.pollfds[i].fd] != s.channels[s.pollfds[j].fd]
    {
      EntriesDiffer(s, i, j);
    }
    ActiveOnce(s.pollfds, s.channels);
    ActiveHas(s.pollfds, s.channels, c);
    if Registered(s, c) && s.pollfds[s.objects[c].index].revents > 0 {
      assert Filed(s, s.objects[c].fd);
      assert s.channels[s.pollfds[s.objects[c].index].fd] == c;
    }
    if i :| 0 <= i < |s.pollfds| && s.pollfds[i].revents > 0 && s.channels[s.pollfds[i].fd] == c {
      assert Backed(s, i) && Filed(s, s.pollfds[i].fd);
    }
  }

  // So in every run, what fillActiveChannels finds after poll has returned is exactly what poll has reported.
  lemma PolledIsExact(acts: seq<Action>, revents: seq<int>, c: Channel)
    requires Runs(acts + [Polled(revents)])
    ensures Runs(acts) && |revents| == |Run(acts).pollfds|
    ensures var s, t := Run(acts), Run(acts + [Polled(revents)]);
            && t.objects == s.objects && t.channels == s.channels
            && Quiet(t) && Known(t.pollfds, t.channels)
            && (Registered(s, c) ==> 0 <= s.objects[c].index < |revents|
                                     && t.pollfds[s.objects[c].index].revents == revents[s.objects[c].index])
            && var a := Active(t.pollfds, t.channels, Count(t.pollfds));
               Distinct(a) && (c in a <==> Registered(s, c) && revents[s.objects[c].index] > 0)
  {
    var now := acts + [Polled(revents)];
    assert Before(now) == acts && Last(now) == Polled(revents);
    RegisteredIsFiled(Run(acts), c);
    ActiveIsExact(Run(now), c);
    hide Inv, Active;
  }

  // ---------------------------------------------------------------- the class

  class Poller {
    var pollfds: seq<Pfd>
    var channels: map<int, Channel>
    ghost var objects: set<Channel>

    ghost function View(): State
      reads this, objects`events, objects`index
    {
      State(pollfds, channels, map c | c in objects :: Info(c.fd, c.events, c.index))
    }

    constructor ()
      ensures View() == START
    {
      pollfds, channels, objects := [], map[], {};
    }

    // A channel appears that belongs to this poller's loop.
    ghost method Adopt(c: Channel)
      requires Inv(View()) && c !in objects && c.events == 0 && c.index == -1
      modifies `objects
      ensures View() == Apply(old(View()), Create(c, c.fd))
    {
      objects := objects + {c};
    }

    // Channel::update with a new interest.
    method UpdateChannel(channel: Channel, events: int)
      requires Inv(View()) && Enabled(View(), Update(channel, events))
      modifies this, channel
      ensures objects == old(objects) && View() == Apply(old(View()), Update(channel, events)) && Inv(View())
    {
      ghost var s := View();
      StepKeeps(s, Update(channel, events));
      channel.events := events;
      if channel.index < 0 {
        var pfd := Pfd(channel.fd, ToShort(channel.events), 0);
        pollfds := pollfds + [pfd];
        channel.index := |pollfds| - 1;
        channels := channels[pfd.fd := channel];
      } else {
        assert Filed(s, channel.fd);
        var pfd := pollfds[channel.index].(events := ToShort(channel.events), revents := 0);
        if channel.events == 0 {
          var fd: int := channel.fd;
          pfd := pfd.(fd := -fd - 1);
        }
        pollfds := pollfds[channel.index := pfd];
      }
      assert View().objects == Apply(s, Update(channel, events)).objects;
    }

    method RemoveChannel(channel: Channel)
      requires Inv(View()) && Enabled(View(), Remove(channel))
      modifies this, objects
      ensures objects == old(objects) && View() == Apply(old(View()), Remove(channel)) && Inv(View())
    {
      ghost var s := View();
      StepKeeps(s, Remove(channel));
      InvAt(s, channel.fd);
      LastBacked(s);
      hide Inv;
      var idx := channel.index;
      channels := channels - {channel.fd};
      if idx == |pollfds| - 1 {
        pollfds := pollfds[..|pollfds| - 1];
      } else {
        assert FdOf(s.pollfds[|s.pollfds| - 1].fd) in s.channels;
        var channelAtEnd := pollfds[|pollfds| - 1].fd;
        pollfds := pollfds[idx := pollfds[|pollfds| - 1]][|pollfds| - 1 := pollfds[idx]];
        if channelAtEnd < 0 {
          channelAtEnd := -channelAtEnd - 1;
        }
        channels[channelAtEnd].index := idx;
        pollfds := pollfds[..|pollfds| - 1];
      }
      assert View().objects == Apply(s, Remove(channel)).objects;
    }

    // What a channel has been told is what poll reported in its entry.
    ghost predicate Reported(active: seq<Channel>)
      reads this, objects`revents, objects`index
    {
      forall c :: c in active ==> c in objects && 0 <= c.index < |pollfds| && c.revents == pollfds[c.index].revents > 0
    }

    method FillActiveChannels(numEvents: int) returns (active: seq<Channel>)
      requires Inv(View()) && Quiet(View())
      modifies objects`revents
      ensures Known(pollfds, channels) && active == Active(pollfds, channels, numEvents)
      ensures Reported(active) && forall c :: c in objects && c !in active ==> c.revents == old(c.revents)
      ensures View() == old(View())
    {
      hide Inv, Quiet, View, Known, Active, Reported;
      active := [];
      var n, i := numEvents, 0;
      AllKnown();
      ghost var all := Active(pollfds, channels, numEvents);
      assert active + all == all;
      assert Reported([]) by { NothingReported(); }
      while i < |pollfds| && n > 0
        invariant 0 <= i <= |pollfds|
        invariant Known(pollfds[i..], channels) && active + Active(pollfds[i..], channels, n) == all
        invariant Reported(active)
        invariant forall c :: c in objects && c !in active ==> c.revents == old(c.revents)
      {
        NextActive(pollfds, channels, i, n);
        if pollfds[i].revents > 0 {
          n := n - 1;
          var channel := Tell(i, active);
          Assoc(active, [channel], Active(pollfds[i + 1..], channels, n));
          active := active + [channel];
        }
        i := i + 1;
      }
      NoMoreActive(pollfds[i..], channels, n);
      assert active + [] == active;
    }

    method Tell(i: nat, ghost active: seq<Channel>) returns (channel: Channel)
      requires i < |pollfds| && pollfds[i].revents > 0 && pollfds[i].fd in channels && Reported(active)
      requires channels[pollfds[i].fd] in objects && channels[pollfds[i].fd].index == i
      modifies objects`revents
      ensures channel == channels[pollfds[i].fd] && Reported(active + [channel])
      ensures forall c :: c in objects && c != channel ==> c.revents == old(c.revents)
    {
      channel := channels[pollfds[i].fd];
      channel.revents := pollfds[i].revents;
    }

    lemma NothingReported()
      ensures Reported([])
    {
    }

    lemma AllKnown()
      requires Inv(View()) && Quiet(View())
      ensures Known(pollfds, channels) && pollfds[0..] == pollfds
      ensures forall i :: 0 <= i < |pollfds| && pollfds[i].revents > 0 ==>
                channels[pollfds[i].fd] in objects && channels[pollfds[i].fd].index == i
    {
      forall i | 0 <= i < |pollfds| && pollfds[i].revents > 0
        ensures pollfds[i].fd in channels && channels[pollfds[i].fd] in objects && channels[pollfds[i].fd].index == i
      {
        KnownAdopted(View(), i);
      }
    }
  }

  lemma NextActive(ps: seq<Pfd>, channels: map<int, Channel>, i: nat, n: int)
    requires i < |ps| && n > 0 && Known(ps[i..], channels)
    ensures Known(ps[i + 1..], channels) && (ps[i].revents > 0 ==> ps[i].fd in channels)
    ensures Active(ps[i..], channels, n) == if ps[i].revents > 0 then [channels[ps[i].fd]] + Active(ps[i + 1..], channels, n - 1)
                                            else Active(ps[i + 1..], channels, n)
  {
    assert ps[i..][0] == ps[i] && ps[i..][1..] == ps[i + 1..];
  }

  lemma NoMoreActive(ps: seq<Pfd>, channels: map<int, Channel>, n: int)
    requires Known(ps, channels) && (ps == [] || n <= 0)
    ensures Active(ps, channels, n) == []
  {
  }

  lemma KnownAdopted(s: State, i: nat)
    requires Inv(s) && Quiet(s) && i < |s.pollfds| && s.pollfds[i].revents > 0
    ensures var fd := s.pollfds[i].fd;
            fd in s.channels && s.channels[fd] in s.objects && s.objects[s.channels[fd]].fd == fd && s.objects[s.channels[fd]].index == i
  {
    assert Backed(s, i) && Filed(s, s.pollfds[i].fd);
  }
}
