/** Idle connections and the timing wheel that tells them to shut down: a ring of buckets that hold shared references to
  one entry per connection. Each second the oldest bucket goes; an entry whose last reference went with it shuts its
  connection down, if that still exists. */
module TimingWheel {
  import opened Seqs

  type Conn = nat

  // The ring, oldest bucket first; the connections there have been and those that still exist; for each tick so far,
  // the connections it told to shut down.
  datatype State = State(buckets: seq<set<Conn>>, born: set<Conn>, live: set<Conn>, log: seq<set<Conn>>)

  datatype Action = Connect(c: Conn) | Message(c: Conn) | Tick | Gone(c: Conn)

  predicate Held(buckets: seq<set<Conn>>, c: Conn) { exists i :: 0 <= i < |buckets| && c in buckets[i] }

  function Insert(buckets: seq<set<Conn>>, c: Conn): seq<set<Conn>>
    requires |buckets| > 0
  {
    buckets[|buckets| - 1 := buckets[|buckets| - 1] + {c}]
  }

  // push_back on the full ring: the front bucket is dropped.
  function Rotate(buckets: seq<set<Conn>>): seq<set<Conn>>
    requires |buckets| > 0
  {
    buckets[1..] + [{}]
  }

  // The connections whose entry loses its last reference with the front bucket, and that still exist.
  function Dropped(s: State): set<Conn>
    requires |s.buckets| > 0
  {
    set c | c in s.buckets[0] && c in s.live && !Held(Rotate(s.buckets), c)
  }

  function Start(n: nat): State { State(seq(n, i => {}), {}, {}, []) }

  // Every connection object is a new one; messages come from those that exist.
  predicate Enabled(s: State, a: Action) {
    match a
    case Connect(c) => c !in s.born
    case Message(c) => c in s.live
    case Tick => true
    case Gone(c) => c in s.live
  }

  // onConnection, onMessage (the weak reference leads to an entry only while some bucket holds it), onTimer.
  function Apply(s: State, a: Action): (t: State)
    requires |s.buckets| > 0
    ensures |t.buckets| == |s.buckets|
  {
    match a
    case Connect(c) => s.(buckets := Insert(s.buckets, c), born := s.born + {c}, live := s.live + {c})
    case Message(c) => if Held(s.buckets, c) then s.(buckets := Insert(s.buckets, c)) else s
    case Tick => s.(buckets := Rotate(s.buckets), log := s.log + [Dropped(s)])
    case Gone(c) => s.(live := s.live - {c})
  }

  // ---------------------------------------------------------------- runs, and what their history says

  predicate Runs(n: nat, acts: seq<Action>)
    requires n > 0
    decreases |acts|, 0
  {
    acts == [] || (Runs(n, Before(acts)) && Enabled(Run(n, Before(acts)), Last(acts)))
  }

  function Run(n: nat, acts: seq<Action>): (s: State)
    requires n > 0 && Runs(n, acts)
    ensures |s.buckets| == n
    decreases |acts|, 1
  {
    if acts == [] then Start(n) else Apply(Run(n, Before(acts)), Last(acts))
  }

  function Ticks(acts: seq<Action>): nat
    decreases |acts|
  {
    if acts == [] then 0 else Ticks(Before(acts)) + if Last(acts).Tick? then 1 else 0
  }

  // The number of ticks before the last connect or message of c.
  function LastActive(acts: seq<Action>, c: Conn): nat
    decreases |acts|
  {
    if acts == [] then 0
    else if Last(acts) == Connect(c) || Last(acts) == Message(c) then Ticks(Before(acts))
    else LastActive(Before(acts), c)
  }

  predicate Told(s: State, c: Conn) { exists t :: 0 <= t < |s.log| && c in s.log[t] }

  // The newest bucket that holds c is as old as c has been silent, and no connection is held for longer.
  ghost predicate Placed(n: nat, s: State, now: nat, last: nat, c: Conn)
    requires |s.buckets| == n
  {
    && (Held(s.buckets, c) ==>
          c in s.born && last <= now < last + n && c in s.buckets[n - 1 - (now - last)]
          && forall i :: 0 <= i < n && c in s.buckets[i] ==> i <= n - 1 - (now - last))
    && (c in s.live ==> c in s.born && (Told(s, c) <==> !Held(s.buckets, c)))
    && (Told(s, c) ==> c in s.born && !Held(s.buckets, c))
  }

  lemma InsertPlaces(n: nat, s: State, s': State, now: nat, last: nat, c: Conn, d: Conn)
    requires |s.buckets| == n > 0 && s'.buckets == Insert(s.buckets, d) && s'.log == s.log
    requires s'.born == s.born + {d} && (s'.live == s.live || s'.live == s.live + {d})
    requires Placed(n, s, now, last, c) && (d == c ==> !Told(s, c))
    ensures Placed(n, s', now, if c == d then now else last, c)
  {
    var b, b' := s.buckets, s'.buckets;
    if c == d {
      assert c in b'[n - 1];
    } else {
      assert forall i :: 0 <= i < n ==> (c in b'[i] <==> c in b[i]);
    }
  }

  lemma TickPlaces(n: nat, s: State, now: nat, last: nat, c: Conn)
    requires |s.buckets| == n > 0 && Placed(n, s, now, last, c)
    ensures Placed(n, Apply(s, Tick), now + 1, last, c)
    ensures c in Dropped(s) <==> c in s.live && !Told(s, c) && now + 1 == last + n
  {
    var t := Apply(s, Tick);
    var b, b' := s.buckets, t.buckets;
    assert forall i :: 0 <= i < n - 1 ==> b'[i] == b[i + 1];
    if Held(b, c) {
      var k := n - 1 - (now - last);
      if k > 0 {
        assert c in b'[k - 1];
      }
    }
    if Held(b', c) {
      var i :| 0 <= i < n && c in b'[i];
      assert c in b[i + 1];
    }
    assert t.log[|s.log|] == Dropped(s);
    assert Told(t, c) <==> Told(s, c) || c in Dropped(s) by {
      if Told(s, c) {
        var u :| 0 <= u < |s.log| && c in s.log[u];
        assert c in t.log[u];
      }
    }
  }

  lemma {:induction false} RunPlaces(n: nat, acts: seq<Action>, c: Conn)
    requires n > 0 && Runs(n, acts)
    ensures Placed(n, Run(n, acts), Ticks(acts), LastActive(acts, c), c) && |Run(n, acts).log| == Ticks(acts)
    ensures Run(n, acts).live <= Run(n, acts).born
    decreases |acts|
  {
    if acts != [] {
      var s, a := Run(n, Before(acts)), Last(acts);
      var t := Apply(s, a);
      RunPlaces(n, Before(acts), c);
      match a {
        case Connect(d) => InsertPlaces(n, s, t, Ticks(Before(acts)), LastActive(Before(acts), c), c, d);
        case Message(d) =>
          if Held(s.buckets, d) {
            RunPlaces(n, Before(acts), d);
            assert t.born == s.born + {d};
            InsertPlaces(n, s, t, Ticks(Before(acts)), LastActive(Before(acts), c), c, d);
          }
        case Tick => TickPlaces(n, s, Ticks(Before(acts)), LastActive(Before(acts), c), c);
        case Gone(d) =>
      }
    }
  }

  // The refinement: in every run, the next tick tells a connection to shut down if and only if it still exists, has
  // not been told before, and has been silent for exactly n ticks; and none that exists and has not been told is
  // ever silent for longer.
  lemma ToldOnTheNthTick(n: nat, acts: seq<Action>, c: Conn)
    requires n > 0 && Runs(n, acts)
    ensures var s := Run(n, acts);
            && (c in Dropped(s) <==> c in s.live && !Told(s, c) && Ticks(acts) + 1 == LastActive(acts, c) + n)
            && (c in s.live && !Told(s, c) ==> LastActive(acts, c) <= Ticks(acts) < LastActive(acts, c) + n)
  {
    RunPlaces(n, acts, c);
    TickPlaces(n, Run(n, acts), Ticks(acts), LastActive(acts, c), c);
  }

  // The connections there have been, and those that still exist, read off the actions: every connection comes once.
  lemma {:induction false} LiveUnlessGone(n: nat, acts: seq<Action>, c: Conn)
    requires n > 0 && Runs(n, acts)
    ensures c in Run(n, acts).born <==> Connect(c) in acts
    ensures c in Run(n, acts).live <==> Connect(c) in acts && Gone(c) !in acts
    ensures Gone(c) in acts ==> Connect(c) in acts
    decreases |acts|
  {
    if acts != [] {
      assert acts == Before(acts) + [Last(acts)];
      LiveUnlessGone(n, Before(acts), c);
    }
  }

  // The actions before the tick with number t, counted from 0.
  function UpToTick(acts: seq<Action>, t: nat): seq<Action>
    requires t < Ticks(acts)
    decreases |acts|
  {
    if Last(acts).Tick? && Ticks(Before(acts)) == t then Before(acts) else UpToTick(Before(acts), t)
  }

  // The whole log of a run, read off its actions: tick t tells a connection to shut down if and only if by then it had
  // come and not gone, had last been heard of exactly n ticks ago, and had not been told before.
  lemma {:induction false} LogIsExact(n: nat, acts: seq<Action>, c: Conn, t: nat)
    requires n > 0 && Runs(n, acts) && t < Ticks(acts)
    ensures |Run(n, acts).log| == Ticks(acts)
    ensures var log, p := Run(n, acts).log, UpToTick(acts, t);
            c in log[t] <==> Connect(c) in p && Gone(c) !in p && LastActive(p, c) + n == t + 1 && forall u :: 0 <= u < t ==> c !in log[u]
    decreases |acts|
  {
    RunPlaces(n, acts, c);
    RunPlaces(n, Before(acts), c);
    var s, log := Run(n, Before(acts)), Run(n, acts).log;
    assert log == s.log || log == s.log + [Dropped(s)];
    if t < Ticks(Before(acts)) {
      LogIsExact(n, Before(acts), c, t);
      assert forall u :: 0 <= u <= t ==> log[u] == s.log[u];
    } else {
      LiveUnlessGone(n, Before(acts), c);
      ToldOnTheNthTick(n, Before(acts), c);
      assert forall u :: 0 <= u < t ==> log[u] == s.log[u];
    }
  }

  // So no connection is told twice.
  lemma {:induction false} ToldOnce(n: nat, acts: seq<Action>, c: Conn, t: nat, u: nat)
    requires n > 0 && Runs(n, acts)
    requires var s := Run(n, acts); t < |s.log| && u < |s.log| && c in s.log[t] && c in s.log[u]
    ensures t == u
    decreases |acts|
  {
    if acts != [] {
      var s := Run(n, Before(acts));
      ToldOnTheNthTick(n, Before(acts), c);
      if t < |s.log| && u < |s.log| {
        ToldOnce(n, Before(acts), c, t, u);
      }
    }
  }

  // ---------------------------------------------------------------- reference counts

  // The use count of c's entry: each bucket holds it at most once.
  function Count(buckets: seq<set<Conn>>, c: Conn): nat {
    if buckets == [] then 0 else (if c in buckets[0] then 1 else 0) + Count(buckets[1..], c)
  }

  lemma {:induction false} CountHeld(buckets: seq<set<Conn>>, c: Conn)
    ensures Count(buckets, c) > 0 <==> Held(buckets, c)
  {
    if buckets != [] {
      var rest := buckets[1..];
      CountHeld(rest, c);
      if i :| 0 <= i < |rest| && c in rest[i] {
        assert c in buckets[i + 1];
      }
      if i :| 0 <= i < |buckets| && c in buckets[i] {
        if i > 0 {
          assert c in rest[i - 1];
        }
      }
    }
  }

  lemma {:induction false} CountBack(front: seq<set<Conn>>, back: set<Conn>, c: Conn)
    ensures Count(front + [back], c) == Count(front, c) + if c in back then 1 else 0
  {
    if front == [] {
      assert front + [back] == [back];
    } else {
      assert (front + [back])[1..] == front[1..] + [back];
      CountBack(front[1..], back, c);
    }
  }

  lemma CountInsert(buckets: seq<set<Conn>>, c: Conn, d: Conn)
    requires |buckets| > 0
    ensures var n := |buckets| - 1;
            Count(Insert(buckets, d), c) == Count(buckets, c) + if c == d && c !in buckets[n] then 1 else 0
  {
    var n := |buckets| - 1;
    assert buckets == buckets[..n] + [buckets[n]];
    assert Insert(buckets, d) == buckets[..n] + [buckets[n] + {d}];
    CountBack(buckets[..n], buckets[n], c);
    CountBack(buckets[..n], buckets[n] + {d}, c);
  }

  lemma CountRotate(buckets: seq<set<Conn>>, c: Conn)
    requires |buckets| > 0
    ensures Count(buckets, c) == Count(Rotate(buckets), c) + if c in buckets[0] then 1 else 0
  {
    CountBack(buckets[1..], {}, c);
  }

  // The entries alive are those with references, and each has its use count.
  ghost predicate Counted(useCount: map<Conn, nat>, buckets: seq<set<Conn>>) {
    forall c :: (c in useCount <==> Count(buckets, c) > 0) && (c in useCount ==> useCount[c] == Count(buckets, c))
  }

  // ---------------------------------------------------------------- the class

  class EchoServer {
    var connectionBuckets: seq<set<Conn>>
    var useCount: map<Conn, nat>
    var live: set<Conn>
    var log: seq<set<Conn>>
    ghost var born: set<Conn>

    ghost function View(): State
      reads this
    {
      State(connectionBuckets, born, live, log)
    }

    ghost predicate Valid()
      reads this
    {
      |connectionBuckets| > 0 && Counted(useCount, connectionBuckets)
    }

    constructor (idleSeconds: nat)
      requires idleSeconds > 0
      ensures Valid() && View() == Start(idleSeconds)
    {
      connectionBuckets, useCount, live, log, born := seq(idleSeconds, i => {}), map[], {}, [], {};
      new;
      forall c
        ensures Count(connectionBuckets, c) == 0
      {
        CountHeld(connectionBuckets, c);
      }
    }

    // insert of a shared reference into the back bucket.
    method InsertBack(c: Conn)
      requires |connectionBuckets| > 0
      requires forall d :: d != c ==> (d in useCount <==> Count(connectionBuckets, d) > 0) && (d in useCount ==> useCount[d] == Count(connectionBuckets, d))
      requires c in useCount && useCount[c] == Count(connectionBuckets, c)
      modifies `connectionBuckets, `useCount
      ensures Valid() && connectionBuckets == Insert(old(connectionBuckets), c)
    {
      ghost var b := connectionBuckets;
      forall d
        ensures Count(Insert(b, c), d) == Count(b, d) + if d == c && d !in b[|b| - 1] then 1 else 0
      {
        CountInsert(b, d, c);
      }
      var n := |connectionBuckets| - 1;
      if c !in connectionBuckets[n] {
        useCount := useCount[c := useCount[c] + 1];
      } else {
        CountHeld(b, c);
      }
      connectionBuckets := connectionBuckets[n := connectionBuckets[n] + {c}];
    }

    method OnConnection(c: Conn)
      requires Valid() && c !in born && born >= live && !Held(connectionBuckets, c)
      modifies this
      ensures Valid() && View() == Apply(old(View()), Connect(c))
    {
      CountHeld(connectionBuckets, c);
      born, live := born + {c}, live + {c};
      useCount := useCount[c := 0];
      InsertBack(c);
    }

    method OnMessage(c: Conn)
      requires Valid() && c in live
      modifies this
      ensures Valid() && View() == Apply(old(View()), Message(c))
    {
      CountHeld(connectionBuckets, c);
      if c in useCount {
        InsertBack(c);
      }
    }

    method OnGone(c: Conn)
      requires Valid()
      modifies `live
      ensures Valid() && View() == Apply(old(View()), Gone(c))
    {
      live := live - {c};
    }

    method OnTimer()
      requires Valid()
      modifies this
      ensures Valid() && View() == Apply(old(View()), Tick)
    {
      ghost var b, b' := connectionBuckets, Rotate(connectionBuckets);
      forall c
        ensures Count(b, c) == Count(b', c) + if c in b[0] then 1 else 0
      {
        CountRotate(b, c);
      }
      var front, told := connectionBuckets[0], {};
      connectionBuckets := connectionBuckets[1..] + [{}];
      while front != {}
        invariant front <= b[0] && connectionBuckets == b' && live == old(live) && log == old(log) && born == old(born)
        invariant forall c :: c in useCount <==> Count(b', c) + (if c in front then 1 else 0) > 0
        invariant forall c :: c in useCount ==> useCount[c] == Count(b', c) + if c in front then 1 else 0
        invariant forall c :: c in told <==> c in b[0] && c !in front && Count(b', c) == 0 && c in live
        decreases |front|
      {
        var c :| c in front;
        front := front - {c};
        useCount := useCount[c := useCount[c] - 1];
        if useCount[c] == 0 {
          useCount := useCount - {c};
          if c in live {
            told := told + {c};
          }
        }
      }
      forall c
        ensures Count(b', c) == 0 <==> !Held(b', c)
      {
        CountHeld(b', c);
      }
      assert told == Dropped(old(View()));
      log := log + [told];
    }
  }
}
