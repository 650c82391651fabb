/** Double-buffered logging: front-end threads fill buffers under a lock, one logging thread swaps them out and
  writes them, and empty buffers go back and forth.  An append is one step; the logging thread takes one step to
  collect the full buffers (at once, or after a wait during which the lock is free) and one to write them. */
module AsyncLogging {
  import opened Seqs

  const LARGE_BUFFER := 4000 * 1000
  const MAX_BATCH := 25

  // A buffer is the text written to it; an owning pointer may be null.
  datatype BufferPtr = Null | Ptr(text: string)

  // Tested: running_ was found true, and the lock has not been taken yet.
  datatype Place = Head | Tested | Waiting | Writing | Stopped

  // A collected batch, with the notice that is printed if it is cut.
  datatype Batch = Batch(buffers: seq<string>, notice: string)

  datatype State = State(
    current: string, next: BufferPtr, buffers: seq<string>,             // under the lock
    newBuffer1: BufferPtr, newBuffer2: BufferPtr, toWrite: seq<string>,  // of the logging thread
    place: Place, running: bool,
    file: string,                                                        // what the log file has been given
    written: seq<Batch>, accepted: seq<string>)                          // batches done with, lines appended

  function Avail(text: string): int { LARGE_BUFFER - |text| }

  // FixedBuffer::append: a line that does not fit is dropped.
  function Put(text: string, line: string): string {
    if Avail(text) > |line| then text + line else text
  }

  function FlattenBatches(bs: seq<Batch>): string {
    if bs == [] then "" else Concat(bs[0].buffers) + FlattenBatches(bs[1..])
  }

  // What one batch puts into the file: a batch of more than 25 is cut to its first two buffers, after a notice.
  function Output(b: Batch): string {
    if |b.buffers| > MAX_BATCH then b.notice + Concat(b.buffers[..2]) else Concat(b.buffers)
  }

  function FileOf(bs: seq<Batch>): string {
    if bs == [] then "" else Output(bs[0]) + FileOf(bs[1..])
  }

  // ---------------------------------------------------------------- the steps

  datatype Action =
    | Append(line: string)
    | Test                   // while (running_)
    | StartWaiting           // buffers_ is empty: the lock is given up
    | Collect                // with a full buffer there, or woken by a notification, the timeout or spuriously
    | Write(notice: string)
    | Stop                   // running_ becomes false
    | Leave

  function AppendStep(s: State, line: string): State {
    var s' := if |line| < LARGE_BUFFER then s.(accepted := s.accepted + [line]) else s;
    if Avail(s.current) > |line| then s'.(current := Put(s.current, line))
    else s'.(buffers := s.buffers + [s.current],
             current := Put(if s.next.Ptr? then s.next.text else "", line),
             next := Null)
  }

  function CollectStep(s: State): State
    requires s.newBuffer1.Ptr?
  {
    var s' := s.(toWrite := s.buffers + [s.current], buffers := [], current := s.newBuffer1.text, newBuffer1 := Null, place := Writing);
    if s.next.Null? then s'.(next := s.newBuffer2, newBuffer2 := Null) else s'
  }

  // The batch after it has been cut to 25 and then to 2 buffers.
  function Kept(toWrite: seq<string>): seq<string> {
    if |toWrite| > 2 then toWrite[..2] else toWrite
  }

  predicate Enabled(s: State, a: Action) {
    match a
    case Append(_) => true
    case Test => s.place == Head && s.running
    case StartWaiting => s.place == Tested && s.buffers == []
    case Collect => (s.place == Waiting || (s.place == Tested && s.buffers != [])) && s.newBuffer1.Ptr?
    case Write(_) => s.place == Writing
    case Stop => true
    case Leave => s.place == Head && !s.running
  }

  function Apply(s: State, a: Action): State
    requires Enabled(s, a)
  {
    match a
    case Append(line) => AppendStep(s, line)
    case Test => s.(place := Tested)
    case StartWaiting => s.(place := Waiting)
    case Collect => CollectStep(s)
    case Write(notice) =>
      // an empty kept batch would be the failed assertion of the code
      var kept := Kept(s.toWrite);
      var n1 := if s.newBuffer1.Null? && kept != [] then Ptr("") else s.newBuffer1;
      var left := if s.newBuffer1.Null? && kept != [] then kept[..|kept| - 1] else kept;
      var n2 := if s.newBuffer2.Null? && left != [] then Ptr("") else s.newBuffer2;
      s.(file := s.file + Output(Batch(s.toWrite, notice)), newBuffer1 := n1, newBuffer2 := n2,
         written := s.written + [Batch(s.toWrite, notice)], toWrite := [], place := Head)
    case Stop => s.(running := false)
    case Leave => s.(place := Stopped)
  }

  const START := State("", Ptr(""), [], Ptr(""), Ptr(""), [], Head, true, "", [], [])

  ghost predicate Runs(s: State, acts: seq<Action>)
    decreases |acts|
  {
    acts == [] || (Enabled(s, acts[0]) && Runs(Apply(s, acts[0]), acts[1..]))
  }

  ghost function Run(s: State, acts: seq<Action>): State
    requires Runs(s, acts)
    decreases |acts|
  {
    if acts == [] then s else Run(Apply(s, acts[0]), acts[1..])
  }

  // ---------------------------------------------------------------- what every step keeps

  // The assertions at the head of the logging thread's loop, and why they hold: the front end is out of its spare
  // buffer only if it has handed over a full one.
  predicate Spares(s: State) {
    && (s.place != Writing ==> s.newBuffer1 == Ptr("") && s.newBuffer2 == Ptr("") && s.toWrite == [])
    && (s.place == Writing ==> s.newBuffer1 == Null && s.newBuffer2 in {Null, Ptr("")})
    && (s.place == Writing ==> s.toWrite != [] && (s.newBuffer2.Null? ==> |s.toWrite| >= 2))
    && (s.next.Null? ==> s.buffers != [])
    && (s.next.Ptr? ==> s.next.text == "")
  }

  predicate Fit(s: State) {
    && |s.current| < LARGE_BUFFER
    && (forall i :: 0 <= i < |s.buffers| ==> |s.buffers[i]| < LARGE_BUFFER)
    && (forall i :: 0 <= i < |s.toWrite| ==> |s.toWrite[i]| < LARGE_BUFFER)
  }

  // Every accepted line is, whole and in order, in the batches done with, in flight, handed over or in the current buffer.
  predicate NothingLost(s: State) {
    && FlattenBatches(s.written) + Concat(s.toWrite) + Concat(s.buffers) + s.current == Concat(s.accepted)
    && s.file == FileOf(s.written)
  }

  predicate Inv(s: State) { Spares(s) && Fit(s) && NothingLost(s) }

  lemma {:induction false} BatchesAppend(bs: seq<Batch>, b: Batch)
    ensures FlattenBatches(bs + [b]) == FlattenBatches(bs) + Concat(b.buffers)
  {
    hide Concat;
    if bs == [] {
      assert bs + [b] == [b] && [b][1..] == [];
    } else {
      BatchesAppend(bs[1..], b);
      assert (bs + [b])[0] == bs[0] && (bs + [b])[1..] == bs[1..] + [b];
      Assoc(Concat(bs[0].buffers), FlattenBatches(bs[1..]), Concat(b.buffers));
    }
  }

  lemma {:induction false} FileAppend(bs: seq<Batch>, b: Batch)
    ensures FileOf(bs + [b]) == FileOf(bs) + Output(b)
  {
    hide Output;
    if bs == [] {
      assert bs + [b] == [b] && [b][1..] == [];
    } else {
      FileAppend(bs[1..], b);
      assert (bs + [b])[0] == bs[0] && (bs + [b])[1..] == bs[1..] + [b];
      Assoc(Output(bs[0]), FileOf(bs[1..]), Output(b));
    }
  }

  // Moving the text x from the end of the third part to the fourth, or a line into it, does not change the whole.
  lemma AppendKeeps(s: State, line: string)
    requires Inv(s)
    ensures Inv(AppendStep(s, line))
  {
    var s' := AppendStep(s, line);
    ConcatAppend(s.accepted, line);
    ConcatAppend(s.buffers, s.current);
    hide Concat, FlattenBatches, FileOf;
    var a := FlattenBatches(s.written) + Concat(s.toWrite);
    if Avail(s.current) > |line| {
      Assoc(a + Concat(s.buffers), s.current, line);
    } else {
      Assoc(a, Concat(s.buffers), s.current);
      assert s'.current == if |line| < LARGE_BUFFER then line else "";
      assert Concat(s'.buffers) == Concat(s.buffers) + s.current;
    }
  }

  lemma Collected(a: string, b: string, c: string)
    ensures a + "" + b + c == a + (b + c) + "" + ""
  {
  }

  lemma CollectKeeps(s: State)
    requires Inv(s) && Enabled(s, Collect)
    ensures Inv(CollectStep(s))
  {
    var s' := CollectStep(s);
    assert Fit(s') by { hide NothingLost; }
    ConcatAppend(s.buffers, s.current);
    assert Concat([]) == "";
    hide FlattenBatches, FileOf, Concat, Fit;
    Collected(FlattenBatches(s.written), Concat(s.buffers), s.current);
  }

  lemma WriteKeeps(s: State, notice: string)
    requires Inv(s) && s.place == Writing
    ensures Inv(Apply(s, Write(notice)))
  {
    BatchesAppend(s.written, Batch(s.toWrite, notice));
    FileAppend(s.written, Batch(s.toWrite, notice));
    assert Concat([]) == "";
    hide FlattenBatches, FileOf, Output, Concat;
    assert NothingLost(Apply(s, Write(notice)));
  }

  lemma StepKeeps(s: State, a: Action)
    requires Inv(s) && Enabled(s, a)
    ensures Inv(Apply(s, a))
  {
    match a
    case Append(line) => AppendKeeps(s, line);
    case Collect => CollectKeeps(s);
    case Write(notice) => WriteKeeps(s, notice);
    case _ =>
  }

  // Over every interleaving of appenders with the logging thread.
  lemma {:induction false} RunKeeps(s: State, acts: seq<Action>)
    requires Inv(s) && Runs(s, acts)
    ensures Inv(Run(s, acts))
    decreases |acts|
  {
    hide Inv, Enabled, Apply;
    if acts != [] {
      StepKeeps(s, acts[0]);
      RunKeeps(Apply(s, acts[0]), acts[1..]);
    }
  }

  // The lines appended in a run that are shorter than a buffer, in order.
  function LinesOf(acts: seq<Action>): seq<string> {
    if acts == [] then []
    else (if acts[0].Append? && |acts[0].line| < 4000 * 1000 then [acts[0].line] else []) + LinesOf(acts[1..])
  }

  lemma {:induction false} AcceptedAre(s: State, acts: seq<Action>)
    requires Runs(s, acts)
    ensures Run(s, acts).accepted == s.accepted + LinesOf(acts)
    decreases |acts|
  {
    hide Enabled, Apply;
    if acts == [] {
      assert s.accepted + [] == s.accepted;
    } else {
      var mine := if acts[0].Append? && |acts[0].line| < 4000 * 1000 then [acts[0].line] else [];
      AcceptsIts(s, acts[0]);
      AcceptedAre(Apply(s, acts[0]), acts[1..]);
      Assoc(s.accepted, mine, LinesOf(acts[1..]));
    }
  }

  lemma AcceptsIts(s: State, a: Action)
    requires Enabled(s, a)
    ensures Apply(s, a).accepted == s.accepted + if a.Append? && |a.line| < 4000 * 1000 then [a.line] else []
  {
    hide Put, Output, Kept;
    assert s.accepted + [] == s.accepted;
  }

  lemma LinesOfRun(acts: seq<Action>)
    requires Runs(START, acts)
    ensures Run(START, acts).accepted == LinesOf(acts)
  {
    AcceptedAre(START, acts);
    assert [] + LinesOf(acts) == LinesOf(acts);
  }

  // A line goes to the current buffer if it fits, and otherwise hands that buffer over and begins the next.
  lemma AppendFills(s: State, line: string)
    requires Inv(s) && |line| < 4000 * 1000
    ensures var t := AppendStep(s, line);
            if |s.current| + |line| < 4000 * 1000 then t.current == s.current + line && t.buffers == s.buffers
            else t.current == line && t.buffers == s.buffers + [s.current]
  {
    hide NothingLost, Fit;
    assert "" + line == line;
  }

  lemma {:induction false} SmallBatches(bs: seq<Batch>)
    requires forall i :: 0 <= i < |bs| ==> |bs[i].buffers| <= MAX_BATCH
    ensures FileOf(bs) == FlattenBatches(bs)
  {
    if bs != [] {
      SmallBatches(bs[1..]);
    }
  }

  // While no batch exceeds 25 buffers, the file followed by what is in memory is exactly the accepted lines.
  lemma LogIsComplete(acts: seq<Action>)
    requires Runs(START, acts)
    requires forall i :: 0 <= i < |Run(START, acts).written| ==> |Run(START, acts).written[i].buffers| <= MAX_BATCH
    ensures var s := Run(START, acts);
            s.file + Concat(s.toWrite) + Concat(s.buffers) + s.current == Concat(LinesOf(acts))
  {
    assert Inv(START);
    RunKeeps(START, acts);
    LinesOfRun(acts);
    SmallBatches(Run(START, acts).written);
  }

  // In general the file lacks, of each larger batch, everything after its first two buffers, and nothing else.
  lemma LogIsCompleteUpToDrops(acts: seq<Action>)
    requires Runs(START, acts)
    ensures var s := Run(START, acts);
            && s.file == FileOf(s.written)
            && FlattenBatches(s.written) + Concat(s.toWrite) + Concat(s.buffers) + s.current == Concat(LinesOf(acts))
            && forall i :: 0 <= i < |s.written| ==>
                 var q := s.written[i].buffers;
                 Output(s.written[i]) == if |q| <= 25 then Concat(q) else s.written[i].notice + (q[0] + q[1])
  {
    assert Inv(START);
    RunKeeps(START, acts);
    LinesOfRun(acts);
    hide Run, Runs, Inv;
    var s := Run(START, acts);
    forall i | 0 <= i < |s.written|
      ensures Output(s.written[i]) == var q := s.written[i].buffers; if |q| <= 25 then Concat(q) else s.written[i].notice + (q[0] + q[1])
    {
      OutputIs(s.written[i]);
    }
  }

  lemma OutputIs(b: Batch)
    ensures var q := b.buffers; Output(b) == if |q| <= 25 then Concat(q) else b.notice + (q[0] + q[1])
  {
    var q := b.buffers;
    if |q| > 25 {
      assert q[..2] == [q[0], q[1]] && q[..2][1..] == [q[1]] && [q[1]][1..] == [];
      assert Concat([q[1]]) == q[1] + Concat<char>([]) == q[1];
      assert Concat([q[0], q[1]]) == q[0] + Concat([q[1]]);
    }
  }

  // The loop-head assertions, and the one before each pop_back.
  lemma LoopHeadAssertions(acts: seq<Action>)
    requires Runs(START, acts)
    ensures var s := Run(START, acts);
            && (s.place == Head || s.place == Tested ==> s.newBuffer1 == Ptr("") && s.newBuffer2 == Ptr("") && s.toWrite == [])
            && (s.place == Writing ==> |Kept(s.toWrite)| >= if s.newBuffer2.Null? then 2 else 1)
            && (s.next.Null? ==> s.buffers != [])
  {
    assert Inv(START);
    RunKeeps(START, acts);
  }

  // What has been collected, in batches done with and in flight.
  function CollectedText(s: State): string { FlattenBatches(s.written) + Concat(s.toWrite) }

  // Collecting takes everything accepted so far.
  lemma CollectTakesAll(s: State)
    requires Inv(s) && Enabled(s, Collect)
    ensures CollectedText(Apply(s, Collect)) == Concat(Apply(s, Collect).accepted) == Concat(s.accepted)
  {
    var t := Apply(s, Collect);
    CollectKeeps(s);
    assert t.buffers == [] && t.current == "" by { hide Concat, FlattenBatches, FileOf, Fit; }
    assert Concat(t.buffers) == "";
    hide FlattenBatches, FileOf, Fit;
    assert CollectedText(t) + "" + "" == CollectedText(t);
  }

  lemma CollectedKept(s: State, a: Action)
    requires Inv(s) && Enabled(s, a) && !a.Collect?
    ensures CollectedText(Apply(s, a)) == CollectedText(s)
  {
    hide FlattenBatches, Concat, Put, Output, Kept;
    if a.Write? {
      WriteCollected(s, a.notice);
    }
  }

  lemma WriteCollected(s: State, notice: string)
    requires Enabled(s, Write(notice))
    ensures CollectedText(Apply(s, Write(notice))) == CollectedText(s)
  {
    BatchesAppend(s.written, Batch(s.toWrite, notice));
    assert Concat<char>([]) == "";
    hide FlattenBatches, Concat, Output, Kept;
    assert CollectedText(Apply(s, Write(notice))) == FlattenBatches(Apply(s, Write(notice)).written) + "";
  }

  // The text is collected, or the logging thread is on its way to collect it.
  ghost predicate Safe(s: State, text: string) {
    text <= CollectedText(s) || ((s.place == Tested || s.place == Waiting) && text <= Concat(s.accepted))
  }

  lemma SafeStays(s: State, a: Action, text: string)
    requires Inv(s) && Enabled(s, a) && Safe(s, text)
    ensures Safe(Apply(s, a), text)
  {
    hide CollectedText, Concat, Inv, AppendStep, CollectStep;
    AllAccounted(s);
    match a {
      case Collect => CollectTakesAll(s);
      case Append(line) =>
        CollectedKept(s, a);
        AppendAccepts(s, line);
      case _ => CollectedKept(s, a);
    }
  }

  lemma AppendAccepts(s: State, line: string)
    ensures AppendStep(s, line).place == s.place && Concat(s.accepted) <= Concat(AppendStep(s, line).accepted)
  {
    ConcatAppend(s.accepted, line);
  }

  // What is collected is the first part of what has been accepted.
  lemma AllAccounted(s: State)
    requires Inv(s)
    ensures Concat(s.accepted) == CollectedText(s) + (Concat(s.buffers) + s.current)
  {
    hide Concat, FlattenBatches, FileOf, Spares, Fit;
    Assoc(CollectedText(s), Concat(s.buffers), s.current);
  }

  lemma {:induction false} SafeAtTheEnd(s: State, acts: seq<Action>, text: string)
    requires Inv(s) && Runs(s, acts) && Safe(s, text) && Run(s, acts).place == Stopped
    ensures text <= FlattenBatches(Run(s, acts).written)
    decreases |acts|
  {
    if acts == [] {
      assert s.toWrite == [] && Concat(s.toWrite) == "";
      hide FlattenBatches, Concat;
      assert FlattenBatches(s.written) + "" == FlattenBatches(s.written);
    } else {
      StepKeeps(s, acts[0]);
      SafeStays(s, acts[0], text);
      hide Inv, Safe, Enabled, Apply, FlattenBatches;
      SafeAtTheEnd(Apply(s, acts[0]), acts[1..], text);
    }
  }

  // No line accepted by now is missing from the batches when the logging thread has stopped, whatever happens until then.
  ghost predicate KeptByStop(s: State) {
    forall acts :: Runs(s, [Stop] + acts) && Run(s, [Stop] + acts).place == Stopped ==>
      Concat(s.accepted) <= FlattenBatches(Run(s, [Stop] + acts).written)
  }

  // stop() loses nothing that was accepted before it, over every interleaving, if and only if the logging thread has
  // already tested running_ and not yet collected, or nothing is left in the buffers.
  lemma StopLosesNothing(s: State)
    requires Inv(s) && s.running && s.place != Stopped
    ensures KeptByStop(s) <==> s.place == Tested || s.place == Waiting || Concat(s.buffers) + s.current == ""
  {
    AllAccounted(s);
    StepKeeps(s, Stop);
    if s.place == Tested || s.place == Waiting || Concat(s.buffers) + s.current == "" {
      StopKeeps(s);
    } else {
      var acts := LeaveAtOnce(s);
      assert |Concat(s.accepted)| > |CollectedText(s)|;
      hide Concat, CollectedText, FlattenBatches, Run, Runs, Inv;
    }
  }

  lemma StopKeeps(s: State)
    requires Inv(s) && s.place != Stopped && Concat(s.accepted) == CollectedText(s) + (Concat(s.buffers) + s.current)
    requires s.place == Tested || s.place == Waiting || Concat(s.buffers) + s.current == ""
    ensures KeptByStop(s)
  {
    hide Concat, CollectedText, FlattenBatches;
    StepKeeps(s, Stop);
    CollectedKept(s, Stop);
    assert CollectedText(s) + "" == CollectedText(s);
    assert Safe(Apply(s, Stop), Concat(s.accepted));
    forall acts | Runs(s, [Stop] + acts) && Run(s, [Stop] + acts).place == Stopped
      ensures Concat(s.accepted) <= FlattenBatches(Run(s, [Stop] + acts).written)
    {
      assert ([Stop] + acts)[1..] == acts;
      SafeAtTheEnd(Apply(s, Stop), acts, Concat(s.accepted));
    }
  }

  // From the loop head, or once the batch in flight is written, the thread leaves without another look at the buffers.
  lemma LeaveAtOnce(s: State) returns (acts: seq<Action>)
    requires Inv(s) && (s.place == Head || s.place == Writing)
    ensures Runs(s, [Stop] + acts) && Run(s, [Stop] + acts).place == Stopped
    ensures FlattenBatches(Run(s, [Stop] + acts).written) == CollectedText(s)
  {
    var t := Apply(s, Stop);
    StepKeeps(s, Stop);
    CollectedKept(s, Stop);
    hide FlattenBatches, Concat, Inv, NothingLost, FileOf, Output, Kept;
    if s.place == Head {
      acts := [Leave];
      Then(t, Leave, []);
      assert [Leave] + [] == [Leave];
      HeadCollected(s);
    } else {
      var u := Apply(t, Write(""));
      acts := [Write(""), Leave];
      StepKeeps(t, Write(""));
      CollectedKept(t, Write(""));
      Then(u, Leave, []);
      Then(t, Write(""), [Leave] + []);
      assert [Write("")] + ([Leave] + []) == acts;
      HeadCollected(u);
    }
    Then(s, Stop, acts);
  }

  lemma HeadCollected(s: State)
    requires Inv(s) && s.place == Head
    ensures CollectedText(s) == FlattenBatches(s.written)
  {
    assert Concat(s.toWrite) == "";
    hide Concat, FlattenBatches, NothingLost;
    assert FlattenBatches(s.written) + "" == FlattenBatches(s.written);
  }

  lemma Then(s: State, a: Action, rest: seq<Action>)
    requires Enabled(s, a) && Runs(Apply(s, a), rest)
    ensures Runs(s, [a] + rest) && Run(s, [a] + rest) == Run(Apply(s, a), rest)
  {
    assert ([a] + rest)[1..] == rest;
  }

  // Such a run: a line appended while a batch is being written, before stop(), never reaches the file.
  lemma AcceptedLineIsLost()
    ensures var acts := [Test, StartWaiting, Collect, Append("a"), Stop, Write(""), Leave];
            && Runs(START, acts)
            && var s := Run(START, acts); s.place == Stopped && s.accepted == ["a"] && s.file == ""
  {
    hide Runs, Run;
    var s3 := CollectedOnce();
    var tail := WrittenAndLeft();
    hide AppendStep, CollectStep;
    Then(s3, Append("a"), tail);
    Then(START.(place := Waiting), Collect, [Append("a")] + tail);
    Then(START.(place := Tested), StartWaiting, [Collect] + ([Append("a")] + tail));
    Then(START, Test, [StartWaiting] + ([Collect] + ([Append("a")] + tail)));
    assert [Test, StartWaiting, Collect, Append("a"), Stop, Write(""), Leave]
        == [Test] + ([StartWaiting] + ([Collect] + ([Append("a")] + tail)));
  }

  lemma CollectedOnce() returns (s: State)
    ensures s == State("", Ptr(""), [], Null, Ptr(""), [""], Writing, true, "", [], [])
    ensures s == CollectStep(START.(place := Waiting))
    ensures AppendStep(s, "a") == s.(current := "a", accepted := ["a"])
  {
    s := State("", Ptr(""), [], Null, Ptr(""), [""], Writing, true, "", [], []);
    assert [] + [""] == [""] && "" + "a" == "a" && [] + ["a"] == ["a"];
  }

  lemma WrittenAndLeft() returns (acts: seq<Action>)
    ensures acts == [Stop, Write(""), Leave]
    ensures var s := State("a", Ptr(""), [], Null, Ptr(""), [""], Writing, true, "", [], ["a"]);
            && Runs(s, acts) && Run(s, acts).place == Stopped && Run(s, acts).accepted == ["a"] && Run(s, acts).file == ""
  {
    hide Runs, Run, AppendStep, CollectStep;
    var s := State("a", Ptr(""), [], Null, Ptr(""), [""], Writing, true, "", [], ["a"]);
    var t := s.(running := false);
    var u := t.(newBuffer1 := Ptr(""), toWrite := [], written := [Batch([""], "")], place := Head);
    assert Apply(t, Write("")) == u by { OneEmptyBuffer(); }
    Nothing(u.(place := Stopped));
    Then(u, Leave, []);
    Then(t, Write(""), [Leave] + []);
    Then(s, Stop, [Write("")] + ([Leave] + []));
    acts := [Stop] + ([Write("")] + ([Leave] + []));
  }

  lemma Nothing(s: State)
    ensures Runs(s, []) && Run(s, []) == s
  {
  }

  lemma OneEmptyBuffer()
    ensures Output(Batch([""], "")) == "" && Kept([""]) == [""]
  {
  }

  // ---------------------------------------------------------------- the class

  class AsyncLogging {
    var currentBuffer: string
    var nextBuffer: BufferPtr
    var buffers: seq<string>
    var newBuffer1: BufferPtr          // the locals of threadFunc
    var newBuffer2: BufferPtr
    var buffersToWrite: seq<string>
    var running: bool
    var output: string
    ghost var place: Place
    ghost var written: seq<Batch>
    ghost var accepted: seq<string>

    ghost function View(): State
      reads this
    {
      State(currentBuffer, nextBuffer, buffers, newBuffer1, newBuffer2, buffersToWrite, place, running, output, written, accepted)
    }

    constructor ()
      ensures View() == START && Inv(View())
    {
      currentBuffer, nextBuffer, buffers := "", Ptr(""), [];
      newBuffer1, newBuffer2, buffersToWrite, running, output := Ptr(""), Ptr(""), [], true, "";
      place, written, accepted := Head, [], [];
    }

    method Append(logline: string)
      requires Inv(View())
      modifies this
      ensures View() == Apply(old(View()), Action.Append(logline))
    {
      if |logline| < LARGE_BUFFER {
        accepted := accepted + [logline];
      }
      if Avail(currentBuffer) > |logline| {
        currentBuffer := Put(currentBuffer, logline);
      } else {
        buffers := buffers + [currentBuffer];
        if nextBuffer.Ptr? {
          currentBuffer := nextBuffer.text;
          nextBuffer := Null;
        } else {
          currentBuffer := "";
        }
        currentBuffer := Put(currentBuffer, logline);
      }
    }

    // The loop's test.
    method TestRunning()
      requires place == Head
      modifies `place
      ensures View() == Apply(old(View()), if running then Test else Leave)
    {
      place := if running then Tested else Stopped;
    }

    method StopRunning()
      modifies `running
      ensures View() == Apply(old(View()), Stop)
    {
      running := false;
    }

    // The critical section of threadFunc, after the wait if there was one.
    method Collect()
      requires Inv(View()) && Enabled(View(), Action.Collect)
      modifies this
      ensures View() == Apply(old(View()), Action.Collect)
    {
      buffers := buffers + [currentBuffer];
      currentBuffer := newBuffer1.text;
      newBuffer1 := Null;
      buffersToWrite, buffers := buffers, buffersToWrite;
      if nextBuffer.Null? {
        nextBuffer := newBuffer2;
        newBuffer2 := Null;
      }
      place := Writing;
    }

    // The rest of an iteration: the batch is cut, written and turned into spare buffers.
    method WriteBatch(notice: string)
      requires Inv(View()) && place == Writing
      modifies this
      ensures View() == Apply(old(View()), Write(notice))
    {
      hide NothingLost, Fit, Concat, FlattenBatches, FileOf;
      written := written + [Batch(buffersToWrite, notice)];
      if |buffersToWrite| > MAX_BATCH {
        output := output + notice;
        buffersToWrite := buffersToWrite[..2];
        var text := TextOf(buffersToWrite);
        Assoc(old(output), notice, text);
        output := output + text;
      } else {
        var text := TextOf(buffersToWrite);
        output := output + text;
      }
      Recycle();
    }

    // The writing loop, buffer by buffer.
    method TextOf(q: seq<string>) returns (text: string)
      ensures text == Concat(q)
    {
      text := "";
      var i := 0;
      while i < |q|
        invariant 0 <= i <= |q| && text == Concat(q[..i])
      {
        assert q[..i + 1] == q[..i] + [q[i]];
        ConcatAppend(q[..i], q[i]);
        text := text + q[i];
        i := i + 1;
      }
      assert q[..i] == q;
    }

    method Recycle()
      requires newBuffer1.Null? && buffersToWrite != [] && (newBuffer2.Null? ==> |buffersToWrite| >= 2)
      modifies `buffersToWrite, `newBuffer1, `newBuffer2, `place
      ensures buffersToWrite == [] && newBuffer1 == Ptr("") && place == Head
      ensures newBuffer2 == if old(newBuffer2).Null? then Ptr("") else old(newBuffer2)
    {
      if |buffersToWrite| > 2 {
        buffersToWrite := buffersToWrite[..2];
      }
      if newBuffer1.Null? {
        buffersToWrite := buffersToWrite[..|buffersToWrite| - 1];
        newBuffer1 := Ptr("");
      }
      if newBuffer2.Null? {
        buffersToWrite := buffersToWrite[..|buffersToWrite| - 1];
        newBuffer2 := Ptr("");
      }
      buffersToWrite := [];
      place := Head;
    }
  }
}
