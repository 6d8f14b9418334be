/**
 The append-only file pipeline: PersistenceManager's queue and background thread
 (src/astra/server/managers.hpp) and AofWriter's buffer and file
 (src/astra/persistence/aof_writer.hpp), as a state machine over all interleavings of the threads
 that append, the thread that writes, the periodic sync and the shutdown.

 The queue keeps the order of each producer and nothing more.
 */
module Aof {
  import opened Common

  const BATCH_SIZE: nat := 100

  /** One queued command: who queued it and its bytes. */
  datatype Entry = Entry(producer: nat, bytes: string)

  /** Where the background thread is. */
  datatype Phase = Top | Batch(processed: nat) | AboutToWait | Waiting | Final | Closing | Done

  /**
   `hand` is the command the thread has taken off the queue and not yet written to the buffer.
   `signals` counts condition-variable signals that are due and not sent yet. `appended` and
   `written` record the history: commands accepted, and commands moved to the buffer; `looked` is how
   many had been accepted when the thread found its queue empty for the last time.
   */
  datatype State = State(
    enabled: bool,
    running: bool,
    queue: seq<Entry>,
    signals: nat,
    phase: Phase,
    hand: Option<Entry>,
    buffer: string,
    file: string,
    appended: seq<Entry>,
    written: seq<Entry>,
    looked: nat)

  datatype Step =
    | AppendCommand(e: Entry)
    | Signal
    | CheckRunning
    | Dequeue(i: nat)
    | Append
    | EndBatch
    | Wait
    | LastLook
    | FinalFlush
    | Sync
    | RequestStop

  function Init(enabled: bool): State {
    State(enabled, true, [], 0, Top, None, "", "", [], [], 0)
  }

  /** The oldest queued command of its producer. */
  predicate IsHead(queue: seq<Entry>, i: nat) {
    i < |queue| && forall j | 0 <= j < i :: queue[j].producer != queue[i].producer
  }

  predicate Enabled(s: State, step: Step) {
    match step
    case AppendCommand(_) => true
    case Signal => s.signals > 0
    case CheckRunning => s.phase.Top?
    case Dequeue(i) =>
      && IsHead(s.queue, i) && s.hand.None?
      && (s.phase.Final? || (s.phase.Batch? && s.phase.processed < BATCH_SIZE))
    case Append => s.hand.Some?
    case EndBatch => s.phase.Batch? && s.hand.None? && (s.phase.processed >= BATCH_SIZE || s.queue == [])
    case Wait => s.phase.AboutToWait?
    case LastLook => s.phase.Final? && s.hand.None? && s.queue == []
    case FinalFlush => s.phase.Closing?
    case Sync => true
    case RequestStop => s.running
  }

  function Flushed(s: State): State { s.(file := s.file + s.buffer, buffer := "") }

  predicate SomethingToReport(s: State) { s.queue != [] || !s.running }

  function Signalled(s: State): State {
    s.(signals := if s.signals > 0 then s.signals - 1 else 0, phase := if s.phase.Waiting? then Top else s.phase)
  }

  function Dequeued(s: State, i: nat): State
    requires i < |s.queue|
  {
    s.(queue := RemoveAt(s.queue, i), hand := Some(s.queue[i]))
  }

  function Written(s: State, e: Entry): State {
    s.(hand := None, buffer := s.buffer + e.bytes, written := s.written + [e],
       phase := if s.phase.Batch? then Batch(s.phase.processed + 1) else s.phase)
  }

  function Next(s: State, step: Step): State
    requires Enabled(s, step)
  {
    match step
    case AppendCommand(e) =>
      if !s.enabled then s
      else s.(queue := s.queue + [e], appended := s.appended + [e], signals := s.signals + 1)
    case Signal => Signalled(s)
    case CheckRunning => s.(phase := if s.running then Batch(0) else Final)
    case Dequeue(i) => Dequeued(s, i)
    case Append => Written(s, s.hand.value)
    case EndBatch =>
      if s.phase.processed > 0 then Flushed(s).(phase := Top)
      else s.(phase := AboutToWait)
    case Wait => s.(phase := Waiting)
    case LastLook => s.(phase := Closing, looked := |s.appended|)
    case FinalFlush => Flushed(s).(phase := Done)
    case Sync => Flushed(s)
    case RequestStop => s.(running := false, signals := s.signals + 1)
  }

  predicate IsRun(s: State, steps: seq<Step>)
    decreases |steps|, 0
  {
    steps == []
    || (IsRun(s, steps[..|steps| - 1]) && Enabled(After(s, steps[..|steps| - 1]), steps[|steps| - 1]))
  }

  function After(s: State, steps: seq<Step>): State
    requires IsRun(s, steps)
    decreases |steps|, 1
  {
    if steps == [] then s else Next(After(s, steps[..|steps| - 1]), steps[|steps| - 1])
  }

  lemma {:induction false} RunInduction(s: State, steps: seq<Step>, allowed: Step -> bool, p: State -> bool)
    requires IsRun(s, steps) && p(s) && forall step | step in steps :: allowed(step)
    requires forall t, step | p(t) && Enabled(t, step) && allowed(step) :: p(Next(t, step))
    ensures p(After(s, steps))
  {
    if steps != [] {
      RunInduction(s, steps[..|steps| - 1], allowed, p);
    }
  }

  // ----- Nothing is lost, duplicated or reordered -----

  function Text(): Entry -> string { (e: Entry) => e.bytes }

  function Bytes(es: seq<Entry>): string { Flatten(Map(es, Text())) }

  function From(p: nat): Entry -> seq<string> {
    (e: Entry) => if e.producer == p then [e.bytes] else []
  }

  /** The commands of one producer, in order. */
  function By(es: seq<Entry>, p: nat): seq<string> { Collect(es, From(p)) }

  ghost predicate Conserved(s: State) {
    && s.file + s.buffer == Bytes(s.written)
    && forall p :: By(s.appended, p) == By(s.written, p) + By(Held(s), p) + By(s.queue, p)
  }

  function Held(s: State): seq<Entry> { if s.hand.Some? then [s.hand.value] else [] }

  lemma DequeueKeeps(s: State, i: nat)
    requires Conserved(s) && s.hand.None? && IsHead(s.queue, i)
    ensures Conserved(Dequeued(s, i))
  {
    var t, e := Dequeued(s, i), s.queue[i];
    forall p ensures By(t.appended, p) == By(t.written, p) + By(Held(t), p) + By(t.queue, p) {
      CollectTake(s.queue, i, From(p));
      CollectOne(e, From(p));
      Regroup(By(s.written, p), From(p)(e), By(t.queue, p));
    }
  }

  lemma CollectOne<T, U>(x: T, f: T -> seq<U>)
    ensures Collect([x], f) == f(x) && Collect<T, U>([], f) == []
  {
    assert [x][..0] == [];
  }

  lemma Regroup(a: seq<string>, b: seq<string>, c: seq<string>)
    ensures a + b + c == a + (b + c) && a + [] == a
  {
  }

  lemma AppendKeeps(s: State)
    requires Conserved(s) && s.hand.Some?
    ensures Conserved(Written(s, s.hand.value))
  {
    var t, e := Written(s, s.hand.value), s.hand.value;
    FlattenMapPush(s.written, e, Text());
    assert s.file + (s.buffer + e.bytes) == s.file + s.buffer + e.bytes;
    forall p ensures By(t.appended, p) == By(t.written, p) + By(Held(t), p) + By(t.queue, p) {
      CollectPush(s.written, e, From(p));
      CollectOne(e, From(p));
      Regroup(By(t.written, p), [], []);
    }
  }

  lemma AcceptKeeps(s: State, e: Entry)
    requires Conserved(s)
    ensures Conserved(s.(queue := s.queue + [e], appended := s.appended + [e], signals := s.signals + 1))
  {
    var t := s.(queue := s.queue + [e], appended := s.appended + [e], signals := s.signals + 1);
    forall p ensures By(t.appended, p) == By(t.written, p) + By(Held(t), p) + By(t.queue, p) {
      CollectPush(s.appended, e, From(p));
      CollectPush(s.queue, e, From(p));
    }
  }

  lemma FlushKeeps(s: State)
    requires Conserved(s)
    ensures Conserved(Flushed(s))
  {
    assert s.file + s.buffer + "" == s.file + s.buffer;
  }

  predicate SameData(s: State, t: State) {
    && t.file == s.file && t.buffer == s.buffer && t.queue == s.queue && t.hand == s.hand
    && t.appended == s.appended && t.written == s.written
  }

  lemma SameDataKeeps(s: State, t: State)
    requires Conserved(s) && SameData(s, t)
    ensures Conserved(t)
  {
  }

  lemma StepConserves(s: State, step: Step)
    requires Conserved(s) && Enabled(s, step)
    ensures Conserved(Next(s, step))
  {
    match step
    case AppendCommand(e) => AcceptKeeps(s, e);
    case Dequeue(i) => DequeueKeeps(s, i);
    case Append => AppendKeeps(s);
    case EndBatch => FlushKeeps(s); EndBatchData(s);
    case FinalFlush => FlushKeeps(s); SameDataKeeps(Flushed(s), Next(s, step));
    case Sync => FlushKeeps(s);
    case _ => SameDataKeeps(s, Next(s, step));
  }

  lemma EndBatchData(s: State)
    requires Conserved(s) && Conserved(Flushed(s)) && Enabled(s, EndBatch)
    ensures Conserved(Next(s, EndBatch))
  {
    SameDataKeeps(if s.phase.processed > 0 then Flushed(s) else s, Next(s, EndBatch));
  }

  lemma ConservedRun(enabled: bool, steps: seq<Step>)
    requires IsRun(Init(enabled), steps)
    ensures Conserved(After(Init(enabled), steps))
  {
    var p := t => Conserved(t);
    assert Conserved(Init(enabled)) by {
      assert Map([], Text()) == [];
      assert forall q :: By([], q) == By([], q) + By([], q) + By([], q);
    }
    forall t, step | p(t) && Enabled(t, step) ensures p(Next(t, step)) {
      StepConserves(t, step);
    }
    RunInduction(Init(enabled), steps, _ => true, p);
  }

  /** The commands handed to the log in a run, in order. */
  function Logged(steps: seq<Step>): seq<Entry> {
    if steps == [] then []
    else
      var before, last := Logged(steps[..|steps| - 1]), steps[|steps| - 1];
      if last.AppendCommand? then before + [last.e] else before
  }

  /** How many of them there were when the thread last looked at its queue. */
  function LoggedAtLook(steps: seq<Step>): nat {
    if steps == [] then 0
    else if steps[|steps| - 1].LastLook? then |Logged(steps)|
    else LoggedAtLook(steps[..|steps| - 1])
  }

  lemma StepEnters(s: State, step: Step)
    requires Enabled(s, step)
    ensures var t := Next(s, step);
      && t.enabled == s.enabled
      && t.appended == (if step.AppendCommand? && s.enabled then s.appended + [step.e] else s.appended)
      && t.looked == if step.LastLook? then |s.appended| else s.looked
  {
  }

  lemma LoggedLast(steps: seq<Step>)
    requires steps != []
    ensures var init, last := steps[..|steps| - 1], steps[|steps| - 1];
      && Logged(steps) == (if last.AppendCommand? then Logged(init) + [last.e] else Logged(init))
      && LoggedAtLook(steps) == if last.LastLook? then |Logged(init)| else LoggedAtLook(init)
  {
  }

  /** A log that is enabled takes in every command, one that is not takes in none. */
  lemma {:induction false} EveryCommandEnters(enabled: bool, steps: seq<Step>)
    requires IsRun(Init(enabled), steps)
    ensures After(Init(enabled), steps).enabled == enabled
    ensures After(Init(enabled), steps).appended == if enabled then Logged(steps) else []
    ensures enabled ==> After(Init(enabled), steps).looked == LoggedAtLook(steps)
  {
    if steps != [] {
      var init := steps[..|steps| - 1];
      EveryCommandEnters(enabled, init);
      StepEnters(After(Init(enabled), init), steps[|steps| - 1]);
      LoggedLast(steps);
    }
  }

  /**
   In every run of an enabled log the file followed by the buffer is the written commands whole and in
   order, and what each producer handed in is its written commands, then the one in hand, then its
   queued ones. A disabled log writes nothing.
   */
  lemma AofConservation(enabled: bool, steps: seq<Step>, p: nat)
    requires IsRun(Init(enabled), steps)
    ensures var s := After(Init(enabled), steps);
      && s.file + s.buffer == Bytes(s.written)
      && By(s.written, p) + By(Held(s), p) + By(s.queue, p) == if enabled then By(Logged(steps), p) else []
  {
    ConservedRun(enabled, steps);
    EveryCommandEnters(enabled, steps);
  }

  /** Between batches the buffer is empty. */
  predicate BatchesFlushed(s: State) {
    s.phase.Top? || s.phase.AboutToWait? || s.phase.Waiting? || s.phase == Batch(0) ==> s.buffer == ""
  }

  predicate HandInUse(s: State) { s.hand.Some? ==> s.phase.Batch? || s.phase.Final? }

  /** Whenever the thread waits, every command it took off the queue is in the file. */
  lemma NothingHeldBackWhileWaiting(enabled: bool, steps: seq<Step>)
    requires IsRun(Init(enabled), steps)
    ensures var s := After(Init(enabled), steps);
      s.phase.AboutToWait? || s.phase.Waiting? ==> s.file == Bytes(s.written) && s.hand.None?
  {
    RunInduction(Init(enabled), steps, _ => true, s => BatchesFlushed(s) && HandInUse(s));
    ConservedRun(enabled, steps);
    var s := After(Init(enabled), steps);
    assert s.file + "" == s.file;
  }

  /**
   The thread holds a command only while it works. Once it has looked at its queue for the last time,
   the queue is what was accepted since, and what was accepted before is written; when it is done
   the buffer is flushed.
   */
  ghost predicate StopOk(s: State) {
    && (s.hand.Some? ==> s.phase.Batch? || s.phase.Final?)
    && (s.phase.Done? ==> s.buffer == "")
    && (s.phase.Closing? || s.phase.Done? ==> Drained(s))
  }

  ghost predicate Drained(s: State) {
    && s.looked <= |s.appended|
    && s.queue == s.appended[s.looked..]
    && forall p :: By(s.written, p) == By(s.appended[..s.looked], p)
  }

  /** When the thread finds its queue empty for the last time, every accepted command is written. */
  lemma LastLookDrains(s: State)
    requires Conserved(s) && Enabled(s, LastLook)
    ensures Drained(Next(s, LastLook))
  {
    var t := Next(s, LastLook);
    forall p ensures By(t.written, p) == By(t.appended[..t.looked], p) {
      Regroup(By(s.written, p), [], []);
      assert t.appended[..t.looked] == s.appended;
    }
  }

  lemma StepKeepsStopOk(s: State, step: Step)
    requires Conserved(s) && StopOk(s) && Enabled(s, step)
    ensures StopOk(Next(s, step))
  {
    match step
    case LastLook => LastLookDrains(s);
    case AppendCommand(e) =>
      if s.enabled && Drained(s) {
        assert (s.appended + [e])[..s.looked] == s.appended[..s.looked];
        assert (s.appended + [e])[s.looked..] == s.appended[s.looked..] + [e];
      }
    case _ =>
  }

  /**
   Once the background thread of an enabled log has stopped, the file is exactly the written commands.
   What a producer had handed in when the thread last looked at the queue is in it, whole and in
   order, and what is left in the queue is what was handed in after that look.
   */
  lemma StopWritesEverything(steps: seq<Step>, p: nat)
    requires IsRun(Init(true), steps) && After(Init(true), steps).phase.Done?
    ensures LoggedAtLook(steps) <= |Logged(steps)|
    ensures var s := After(Init(true), steps);
      && s.file == Bytes(s.written)
      && By(s.written, p) == By(Logged(steps)[..LoggedAtLook(steps)], p)
      && s.queue == Logged(steps)[LoggedAtLook(steps)..]
  {
    ConservedRun(true, steps);
    StopInvariant(true, steps);
    EveryCommandEnters(true, steps);
    var s := After(Init(true), steps);
    assert s.file + "" == s.file;
  }

  lemma StopInvariant(enabled: bool, steps: seq<Step>)
    requires IsRun(Init(enabled), steps)
    ensures StopOk(After(Init(enabled), steps))
  {
    var q := t => Conserved(t) && StopOk(t);
    ConservedRun(enabled, []);
    forall t, step | q(t) && Enabled(t, step) ensures q(Next(t, step)) {
      StepConserves(t, step);
      StepKeepsStopOk(t, step);
    }
    RunInduction(Init(enabled), steps, _ => true, q);
  }

  // ----- Lost signals -----

  /** Since the thread last looked at its flag, something was reported to it before it was asleep. */
  predicate SignalledSinceLook(s: State, steps: seq<Step>)
    requires IsRun(s, steps)
  {
    && steps != [] && !steps[|steps| - 1].CheckRunning?
    && var before := steps[..|steps| - 1];
    SignalledSinceLook(s, before) || TooEarly(After(s, before), steps[|steps| - 1])
  }

  /** A signal with something to report, while the thread is not waiting for it. */
  predicate TooEarly(s: State, step: Step) {
    step.Signal? && !s.phase.Waiting? && (s.queue != [] || !s.running)
  }

  predicate Covered(s: State, early: bool) {
    (SomethingToReport(s) ==> s.signals > 0 || early) && (early ==> SomethingToReport(s))
  }

  /**
   When the thread is about to sleep or asleep, anything to report is covered by a signal still due,
   or its signal came too early; and an early signal did have something to report.
   */
  predicate WakeupInv(s: State, early: bool) {
    match s.phase
    case Waiting => Covered(s, early)
    case AboutToWait => Covered(s, early)
    case Batch(n) =>
      n == 0 && s.hand.None? ==>
        (!s.running ==> s.signals > 0 || early) && (early ==> SomethingToReport(s))
    case _ => true
  }

  lemma WakeupStep(s: State, step: Step, early: bool)
    requires WakeupInv(s, early) && Enabled(s, step)
    ensures WakeupInv(Next(s, step), !step.CheckRunning? && (early || TooEarly(s, step)))
  {
  }

  lemma {:induction false} RunWakeup(enabled: bool, steps: seq<Step>)
    requires IsRun(Init(enabled), steps)
    ensures WakeupInv(After(Init(enabled), steps), SignalledSinceLook(Init(enabled), steps))
  {
    if steps != [] {
      var before := steps[..|steps| - 1];
      RunWakeup(enabled, before);
      WakeupStep(After(Init(enabled), before), steps[|steps| - 1], SignalledSinceLook(Init(enabled), before));
    }
  }

  /**
   The thread sleeps on work or on a shutdown request with no signal to come exactly when a signal
   was sent between its last look and its wait: the wait does not re-check what it waits for.
   */
  lemma AsleepExactlyIfMissed(enabled: bool, steps: seq<Step>)
    requires IsRun(Init(enabled), steps)
    ensures var s := After(Init(enabled), steps);
      s.phase.Waiting? && s.signals == 0 ==>
        (s.queue != [] || !s.running <==> SignalledSinceLook(Init(enabled), steps))
  {
    RunWakeup(enabled, steps);
  }

  /** Asleep with no signal due, the thread stays asleep until somebody appends again. */
  lemma StaysAsleep(s: State, steps: seq<Step>)
    requires IsRun(s, steps) && s.phase.Waiting? && s.signals == 0 && !s.running
    requires forall step | step in steps :: !step.AppendCommand?
    ensures After(s, steps).phase.Waiting? && After(s, steps).queue == s.queue
  {
    var p := (t: State) => t.phase.Waiting? && t.signals == 0 && !t.running && t.queue == s.queue;
    var allowed := (step: Step) => !step.AppendCommand?;
    RunInduction(s, steps, allowed, p);
  }

  /** Both kinds of missed signal happen: a shutdown that never returns, a command never written. */
  lemma SignalsCanBeMissed(e: Entry)
    ensures var start := After(Init(true), [CheckRunning, EndBatch]);
      && IsRun(start, [RequestStop, Signal, Wait])
      && IsRun(start, [AppendCommand(e), Signal, Wait])
      && var stopping := After(start, [RequestStop, Signal, Wait]);
      && var appended := After(start, [AppendCommand(e), Signal, Wait]);
      && stopping.phase.Waiting? && stopping.signals == 0 && !stopping.running
      && appended.phase.Waiting? && appended.signals == 0 && appended.queue == [e]
  {
    assert IsRun(Init(true), []);
    assert [CheckRunning, EndBatch][..1] == [CheckRunning] && [CheckRunning][..0] == [];
    var start := After(Init(true), [CheckRunning, EndBatch]);
    assert start == Init(true).(phase := AboutToWait);
    var queued := start.(queue := [e], appended := [e], signals := 1);
    assert Next(start, AppendCommand(e)) == queued;
    assert Next(queued, Signal) == queued.(signals := 0);
    Three(start, RequestStop, Signal, Wait);
    Three(start, AppendCommand(e), Signal, Wait);
  }

  lemma Three(s: State, a: Step, b: Step, c: Step)
    requires Enabled(s, a) && Enabled(Next(s, a), b) && Enabled(Next(Next(s, a), b), c)
    ensures IsRun(s, [a, b, c]) && After(s, [a, b, c]) == Next(Next(Next(s, a), b), c)
  {
    assert [a, b, c][..2] == [a, b] && [a, b][..1] == [a] && [a][..0] == [];
    assert IsRun(s, []) && IsRun(s, [a]);
    assert After(s, [a]) == Next(s, a);
    assert IsRun(s, [a, b]) && After(s, [a, b]) == Next(Next(s, a), b);
  }
}
