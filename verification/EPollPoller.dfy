/** The epoll(7) poller: a channel's index is one of three states, and the kernel's interest set follows it through
  add, modify and delete operations. */
module EPollPoller {
  import opened Channels

  const NEW := -1
  const ADDED := 1
  const DELETED := 2

  // The kernel's interest set: the events and the channel pointer registered for each descriptor.
  datatype Interest = Interest(events: int, c: Channel)

  type Kernel = map<int, Interest>

  datatype Op = Add | Mod | Del

  datatype Ctl = Ctl(op: Op, fd: int, interest: Interest)

  // epoll_ctl(2): adding needs a descriptor that is not in the set (EEXIST), the others one that is (ENOENT).
  predicate Legal(kernel: Kernel, ctl: Ctl) { ctl.op.Add? <==> ctl.fd !in kernel }

  // Adding and modifying may also fail for want of memory or watches.
  predicate Succeeds(kernel: Kernel, ctl: Ctl, enough: bool) { Legal(kernel, ctl) && (enough || ctl.op.Del?) }

  function Executed(kernel: Kernel, ctl: Ctl): Kernel {
    if ctl.op.Del? then kernel - {ctl.fd} else kernel[ctl.fd := ctl.interest]
  }

  // `objects` holds every channel there has been; `legal` says whether every operation so far was; a failure to add or
  // to modify has aborted the process (LOG_SYSFATAL), one to delete is only logged.
  datatype State = State(channels: map<int, Channel>, objects: map<Channel, Info>, kernel: Kernel, legal: bool, aborted: bool)

  datatype Action = Create(c: Channel, fd: nat) | Update(c: Channel, events: int, enough: bool) | Remove(c: Channel)

  const START := State(map[], map[], map[], true, false)

  predicate Registered(s: State, c: Channel) {
    c in s.objects && s.objects[c].fd in s.channels && s.channels[s.objects[c].fd] == c
  }

  // What is asked of the caller: no two channels of one descriptor at a time, and no removal of a channel that is not
  // there or that still has an interest.
  predicate Enabled(s: State, a: Action) {
    !s.aborted &&
    match a
    case Create(c, fd) => c !in s.objects
    case Update(c, _, _) => c in s.objects && (s.objects[c].fd in s.channels ==> s.channels[s.objects[c].fd] == c)
    case Remove(c) => Registered(s, c) && s.objects[c].events == 0
  }

  // update
  function Issue(s: State, op: Op, c: Channel, enough: bool): (t: State)
    requires c in s.objects
    ensures t.objects == s.objects && t.channels == s.channels
  {
    var ctl := Ctl(op, s.objects[c].fd, Interest(s.objects[c].events, c));
    var s' := s.(legal := s.legal && Legal(s.kernel, ctl));
    if Succeeds(s.kernel, ctl, enough) then s'.(kernel := Executed(s.kernel, ctl))
    else if op.Del? then s'
    else s'.(aborted := true)
  }

  function SetIndex(s: State, c: Channel, index: int): State
    requires c in s.objects
  {
    s.(objects := s.objects[c := s.objects[c].(index := index)])
  }

  function Apply(s: State, a: Action): State
    requires Enabled(s, a)
  {
    match a
    case Create(c, fd) => s.(objects := s.objects[c := Info(fd, 0, NEW)])
    case Update(c, events, enough) => ApplyUpdate(s.(objects := s.objects[c := s.objects[c].(events := events)]), c, enough)
    case Remove(c) =>
      var t := s.(channels := s.channels - {s.objects[c].fd});
      SetIndex(if s.objects[c].index == ADDED then Issue(t, Del, c, true) else t, c, NEW)
  }

  // updateChannel, once the channel has its new interest.
  function ApplyUpdate(s: State, c: Channel, enough: bool): State
    requires c in s.objects
  {
    var o := s.objects[c];
    if o.index == NEW || o.index == DELETED then
      Issue(SetIndex(if o.index == NEW then s.(channels := s.channels[o.fd := c]) else s, c, ADDED), Add, c, enough)
    else if o.events == 0 then SetIndex(Issue(s, Del, c, enough), c, DELETED)
    else Issue(s, Mod, c, enough)
  }

  // ---------------------------------------------------------------- the invariant

  // The index says whether the channel is registered.
  ghost predicate Indexed(s: State, c: Channel)
    requires c in s.objects
  {
    && s.objects[c].index in {NEW, ADDED, DELETED}
    && (Registered(s, c) <==> s.objects[c].index != NEW)
  }

  // The kernel watches a descriptor exactly if its channel is in state ADDED, with the channel's present events.
  ghost predicate Mirrored(s: State, fd: int) {
    && (fd in s.channels ==> s.channels[fd] in s.objects && s.objects[s.channels[fd]].fd == fd)
    && (fd in s.kernel <==> fd in s.channels && s.objects[s.channels[fd]].index == ADDED)
    && (fd in s.kernel ==> s.kernel[fd] == Interest(s.objects[s.channels[fd]].events, s.channels[fd]))
  }

  ghost predicate Inv(s: State) {
    && s.legal
    && (s.aborted || (forall c :: c in s.objects ==> Indexed(s, c)))
    && (s.aborted || forall fd :: Mirrored(s, fd))
  }

  lemma InvAt(s: State, c: Channel)
    requires Inv(s) && !s.aborted && c in s.objects
    ensures Indexed(s, c) && Mirrored(s, s.objects[c].fd)
  {
  }

  // An update keeps the invariant, and aborts only for want of memory or watches.
  lemma UpdateKeeps(s: State, c: Channel, events: int, enough: bool)
    requires Inv(s) && Enabled(s, Update(c, events, enough))
    ensures Inv(Apply(s, Update(c, events, enough)))
    ensures Apply(s, Update(c, events, enough)).aborted ==> !enough
  {
    var t := Apply(s, Update(c, events, enough));
    InvAt(s, c);
    assert t.legal && (t.aborted ==> !enough);
    if !t.aborted {
      forall d | d in t.objects
        ensures Indexed(t, d)
      {
        InvAt(s, d);
      }
      forall fd
        ensures Mirrored(t, fd)
      {
        assert Mirrored(s, fd);
      }
    }
  }

  lemma RemoveKeeps(s: State, c: Channel)
    requires Inv(s) && Enabled(s, Remove(c))
    ensures Inv(Apply(s, Remove(c))) && !Apply(s, Remove(c)).aborted
  {
    var t := Apply(s, Remove(c));
    InvAt(s, c);
    assert t.legal && !t.aborted;
    forall d | d in t.objects
      ensures Indexed(t, d)
    {
      InvAt(s, d);
    }
    forall fd
      ensures Mirrored(t, fd)
    {
      assert Mirrored(s, fd);
    }
  }

  lemma CreateKeeps(s: State, c: Channel, fd: nat)
    requires Inv(s) && Enabled(s, Create(c, fd))
    ensures Inv(Apply(s, Create(c, fd)))
  {
    var t := Apply(s, Create(c, fd));
    forall d | d in t.objects
      ensures Indexed(t, d)
    {
      assert Mirrored(s, fd);
      if d != c {
        InvAt(s, d);
      }
    }
    forall fd'
      ensures Mirrored(t, fd')
    {
      assert Mirrored(s, fd');
    }
  }

  ghost predicate Runs(s: State, acts: seq<Action>)
    decreases |acts|
  {
    acts == [] || (Enabled(s, acts[0]) && Runs(Apply(s, acts[0]), acts[1..]))
  }

  ghost function Run(s: State, acts: seq<Action>): State
    requires Runs(s, acts)
    decreases |acts|
  {
    if acts == [] then s else Run(Apply(s, acts[0]), acts[1..])
  }

  // In every run every operation on the kernel's set was legal, and while the process has not been aborted the set is
  // exactly the channels in state ADDED with their present events. It is aborted only if the kernel runs out of memory
  // or watches.
  lemma {:induction false} RunKeeps(s: State, acts: seq<Action>)
    requires Inv(s) && Runs(s, acts)
    ensures Inv(Run(s, acts))
    ensures !s.aborted && Run(s, acts).aborted ==> exists i :: 0 <= i < |acts| && acts[i].Update? && !acts[i].enough
    decreases |acts|
  {
    if acts != [] {
      match acts[0] {
        case Create(c, fd) => CreateKeeps(s, c, fd);
        case Update(c, events, enough) => UpdateKeeps(s, c, events, enough);
        case Remove(c) => RemoveKeeps(s, c);
      }
      hide Inv, Apply, Enabled;
      RunKeeps(Apply(s, acts[0]), acts[1..]);
      assert forall i :: 0 <= i < |acts[1..]| ==> acts[1..][i] == acts[i + 1];
    }
  }

  lemma StartKeeps()
    ensures Inv(START)
  {
  }

  // What the assertions of updateChannel and removeChannel say: a channel that has been added is the one that its
  // descriptor leads to; a channel to be removed is not new; a new one finds its descriptor free.
  lemma AssertionsHold(acts: seq<Action>, c: Channel)
    requires Runs(START, acts) && !Run(START, acts).aborted && c in Run(START, acts).objects
    ensures var s := Run(START, acts); var o := s.objects[c];
            && (o.index == ADDED || o.index == DELETED <==> o.fd in s.channels && s.channels[o.fd] == c)
            && (o.index == NEW && Enabled(s, Update(c, 0, true)) ==> o.fd !in s.channels)
            && (Enabled(s, Remove(c)) ==> o.index == ADDED || o.index == DELETED)
  {
    StartKeeps();
    RunKeeps(START, acts);
    InvAt(Run(START, acts), c);
  }

  // Whatever the kernel reports, the pointer in it leads to the registered channel of that descriptor, as
  // fillActiveChannels asserts.
  lemma EventsReachTheirChannel(acts: seq<Action>, fd: int)
    requires Runs(START, acts) && !Run(START, acts).aborted && fd in Run(START, acts).kernel
    ensures var s := Run(START, acts); var c := s.kernel[fd].c;
            c in s.objects && s.objects[c].fd == fd && Registered(s, c) && s.kernel[fd].events == s.objects[c].events
  {
    StartKeeps();
    RunKeeps(START, acts);
    assert Mirrored(Run(START, acts), fd);
  }

  // After a removal the channel can be added again.
  lemma RemovedCanReturn(acts: seq<Action>, c: Channel, events: int)
    requires Runs(START, acts) && Enabled(Run(START, acts), Remove(c))
    ensures var s := Apply(Run(START, acts), Remove(c));
            && !Registered(s, c) && s.objects[c].fd !in s.kernel && Enabled(s, Update(c, events, true))
            && var t := Apply(s, Update(c, events, true));
               t.legal && t.objects[c].fd in t.kernel && t.kernel[t.objects[c].fd] == Interest(events, c)
  {
    StartKeeps();
    RunKeeps(START, acts);
    var s := Run(START, acts);
    RemoveKeeps(s, c);
    InvAt(s, c);
    var t := Apply(s, Remove(c));
    InvAt(t, c);
    UpdateKeeps(t, c, events, true);
    InvAt(Apply(t, Update(c, events, true)), c);
  }

  // ---------------------------------------------------------------- what the actions say

  // What a channel's history makes of it: not registered, watched by the kernel, or registered but left out because it
  // has no interest. The first update after a creation or a removal always adds it, with or without interest.
  datatype Phase = Out | Watched | Idle

  function PhaseStep(p: Phase, a: Action, c: Channel): Phase {
    if a.Update? && a.c == c then (if p.Watched? && a.events == 0 then Idle else Watched)
    else if a.Remove? && a.c == c then Out
    else p
  }

  function PhaseAfter(p: Phase, acts: seq<Action>, c: Channel): Phase
    decreases |acts|
  {
    if acts == [] then p else PhaseAfter(PhaseStep(p, acts[0], c), acts[1..], c)
  }

  // The interest that it last asked for.
  function EventsAfter(events: int, acts: seq<Action>, c: Channel): int
    decreases |acts|
  {
    if acts == [] then events
    else EventsAfter(if acts[0].Update? && acts[0].c == c then acts[0].events else events, acts[1..], c)
  }

  predicate Follows(s: State, c: Channel, p: Phase, events: int) {
    if c !in s.objects then p.Out? && events == 0
    else s.objects[c].events == events && s.objects[c].index == match p case Out => -1 case Watched => 1 case Idle => 2
  }

  lemma StepFollows(s: State, a: Action, c: Channel, p: Phase, events: int)
    requires Enabled(s, a) && Follows(s, c, p, events)
    ensures Follows(Apply(s, a), c, PhaseStep(p, a, c), if a.Update? && a.c == c then a.events else events)
    ensures c in s.objects ==> c in Apply(s, a).objects && Apply(s, a).objects[c].fd == s.objects[c].fd
    ensures a.Create? && a.c == c ==> c in Apply(s, a).objects && Apply(s, a).objects[c].fd == a.fd
  {
  }

  lemma {:induction false} RunFollows(s: State, acts: seq<Action>, c: Channel, p: Phase, events: int)
    requires Runs(s, acts) && Follows(s, c, p, events)
    ensures Follows(Run(s, acts), c, PhaseAfter(p, acts, c), EventsAfter(events, acts, c))
    ensures c in s.objects ==> c in Run(s, acts).objects && Run(s, acts).objects[c].fd == s.objects[c].fd
    decreases |acts|
  {
    if acts != [] {
      StepFollows(s, acts[0], c, p, events);
      hide Apply, Enabled, Follows, PhaseStep;
      RunFollows(Apply(s, acts[0]), acts[1..], c, PhaseStep(p, acts[0], c),
                 if acts[0].Update? && acts[0].c == c then acts[0].events else events);
    }
  }

  lemma {:induction false} CreatedOnce(s: State, acts: seq<Action>, c: Channel, fd: nat)
    requires Runs(s, acts) && Create(c, fd) in acts
    ensures c in Run(s, acts).objects && Run(s, acts).objects[c].fd == fd
    decreases |acts|
  {
    if acts[0] == Create(c, fd) {
      var t := Apply(s, acts[0]);
      RunFollows(t, acts[1..], c, Out, 0);
    } else {
      CreatedOnce(Apply(s, acts[0]), acts[1..], c, fd);
    }
  }

  // What the kernel watches, read off the actions: a channel's descriptor exactly while the channel has been added and
  // has not been left without interest since, for the events that it asked for last.
  lemma KernelFollows(acts: seq<Action>, c: Channel, fd: nat)
    requires Runs(START, acts) && !Run(START, acts).aborted && Create(c, fd) in acts
    ensures var s, p := Run(START, acts), PhaseAfter(Out, acts, c);
            && c in s.objects && s.objects[c].fd == fd && (Registered(s, c) <==> !p.Out?)
            && (p.Watched? <==> fd in s.kernel && s.kernel[fd].c == c)
            && (p.Watched? ==> s.kernel[fd].events == EventsAfter(0, acts, c))
  {
    StartKeeps();
    RunKeeps(START, acts);
    RunFollows(START, acts, c, Out, 0);
    CreatedOnce(START, acts, c, fd);
    hide Run, Runs, PhaseAfter, EventsAfter;
    InvAt(Run(START, acts), c);
  }

  // An update aborts the process exactly if the kernel lacks what it needs to add or to modify.
  lemma AbortsExactly(s: State, c: Channel, events: int, enough: bool)
    requires Inv(s) && Enabled(s, Update(c, events, enough))
    ensures Apply(s, Update(c, events, enough)).aborted <==> !enough && !(s.objects[c].index == ADDED && events == 0)
  {
    InvAt(s, c);
    hide Inv;
  }

  // ---------------------------------------------------------------- the class

  // `kernel` stands for the epoll instance.
  class Poller {
    var channels: map<int, Channel>
    var kernel: Kernel
    var aborted: bool
    ghost var legal: bool
    ghost var objects: set<Channel>

    ghost function View(): State
      reads this, objects`events, objects`index
    {
      State(channels, map c | c in objects :: Info(c.fd, c.events, c.index), kernel, legal, aborted)
    }

    constructor ()
      ensures View() == START
    {
      channels, kernel, legal, aborted, objects := map[], map[], true, false, {};
    }

    ghost method Adopt(c: Channel)
      requires c !in objects && c.events == 0 && c.index == NEW && !aborted
      modifies `objects
      ensures View() == Apply(old(View()), Create(c, c.fd))
    {
      objects := objects + {c};
    }

    // update: one epoll_ctl call, and what becomes of a failure.
    method Control(op: Op, channel: Channel, enough: bool)
      requires channel in objects
      modifies `kernel, `legal, `aborted
      ensures View() == Issue(old(View()), op, channel, enough)
    {
      var ctl := Ctl(op, channel.fd, Interest(channel.events, channel));
      legal := legal && Legal(kernel, ctl);
      if Succeeds(kernel, ctl, enough) {
        kernel := Executed(kernel, ctl);
      } else if !op.Del? {
        aborted := true;
      }
    }

    // Channel::update with a new interest.
    method UpdateChannel(channel: Channel, events: int, enough: bool)
      requires Inv(View()) && Enabled(View(), Update(channel, events, enough))
      modifies this, channel
      ensures objects == old(objects) && View() == Apply(old(View()), Update(channel, events, enough)) && Inv(View())
    {
      UpdateKeeps(View(), channel, events, enough);
      hide Inv, ApplyUpdate;
      ghost var s := View();
      SetEvents(channel, events);
      if channel.index == NEW || channel.index == DELETED {
        Enter(channel, enough);
      } else {
        Change(channel, enough);
      }
    }

    method SetEvents(channel: Channel, events: int)
      requires channel in objects
      modifies channel`events
      ensures channel.events == events
      ensures var s := old(View()); View() == s.(objects := s.objects[channel := s.objects[channel].(events := events)])
    {
      channel.events := events;
    }

    // A new channel, or one that comes back.
    method Enter(channel: Channel, enough: bool)
      requires channel in objects && (channel.index == NEW || channel.index == DELETED)
      modifies this, channel
      ensures objects == old(objects) && View() == ApplyUpdate(old(View()), channel, enough)
    {
      hide Issue;
      ghost var s := View();
      ghost var t := if channel.index == NEW then s.(channels := s.channels[channel.fd := channel]) else s;
      if channel.index == NEW {
        channels := channels[channel.fd := channel];
      }
      channel.index := ADDED;
      assert View().objects == SetIndex(t, channel, ADDED).objects;
      Control(Add, channel, enough);
    }

    // One that the kernel watches.
    method Change(channel: Channel, enough: bool)
      requires channel in objects && channel.index != NEW && channel.index != DELETED
      modifies this, channel
      ensures objects == old(objects) && View() == ApplyUpdate(old(View()), channel, enough)
    {
      hide Issue;
      if channel.events == 0 {
        Control(Del, channel, enough);
        channel.index := DELETED;
      } else {
        Control(Mod, channel, enough);
      }
    }

    method RemoveChannel(channel: Channel)
      requires Inv(View()) && Enabled(View(), Remove(channel))
      modifies this, channel
      ensures objects == old(objects) && View() == Apply(old(View()), Remove(channel)) && Inv(View())
    {
      RemoveKeeps(View(), channel);
      hide Inv;
      var index := channel.index;
      channels := channels - {channel.fd};
      if index == ADDED {
        Control(Del, channel, true);
      }
      channel.index := NEW;
    }
  }
}
