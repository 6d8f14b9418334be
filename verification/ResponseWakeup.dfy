/**
 The reply-queue wakeup protocol between a worker's executor thread and its IO thread:
 NotifyResponseQueue and ProcessResponseQueue (src/astra/server/worker.hpp). Every atomic access
 (enqueue, compare-exchange, post, bulk dequeue, store, size check) is its own step.
 */
module ResponseWakeup {
  import opened Common

  const MAX_BATCH: nat := 8192
  const DEQUEUE_BATCH: nat := 256

  /** What the IO thread is doing inside the drain handler. */
  datatype Phase =
    | Idle
    | Draining(taken: nat)   // ProcessResponseQueue, after `taken` replies
    | BeforeStore            // about to reset the scheduled flag
    | BeforeCheck            // about to look at the queue size once more
    | BeforeCas              // about to notify again
    | Posting                // won the exchange, about to post

  /** The executor owes a notify from its first enqueue until NotifyResponseQueue returns. */
  datatype Debt = Clear | Owes | OwesPost

  datatype State = State(queued: nat, scheduled: bool, posted: nat, io: Phase, exec: Debt)

  datatype Step =
    | Enqueue                     // the executor queues a reply it will notify about
    | EnqueueQuietly(byIo: bool)  // a reply without a notify: a pub/sub copy, or an error found by the IO thread
    | ExecCas
    | ExecPost
    | StartHandler
    | Dequeue(n: nat)
    | StopDraining
    | StoreFalse
    | CheckSize
    | IoCas
    | IoPost

  const INIT: State := State(0, false, 0, Idle, Clear)

  predicate Enabled(s: State, st: Step) {
    match st
    case Enqueue => !s.exec.OwesPost?
    case EnqueueQuietly(byIo) => if byIo then s.io.Idle? else !s.exec.OwesPost?
    case ExecCas => s.exec.Owes?
    case ExecPost => s.exec.OwesPost?
    case StartHandler => s.io.Idle? && s.posted > 0
    case Dequeue(n) =>
      && s.io.Draining? && s.io.taken < MAX_BATCH
      && 0 < n <= s.queued && n <= DEQUEUE_BATCH && s.io.taken + n <= MAX_BATCH
    case StopDraining => s.io.Draining? && (s.io.taken >= MAX_BATCH || s.queued == 0)
    case StoreFalse => s.io.BeforeStore?
    case CheckSize => s.io.BeforeCheck?
    case IoCas => s.io.BeforeCas?
    case IoPost => s.io.Posting?
  }

  function Next(s: State, st: Step): State
    requires Enabled(s, st)
  {
    match st
    case Enqueue => s.(queued := s.queued + 1, exec := Owes)
    case EnqueueQuietly(_) => s.(queued := s.queued + 1)
    case ExecCas =>
      if s.scheduled then s.(exec := Clear) else s.(scheduled := true, exec := OwesPost)
    case ExecPost => s.(posted := s.posted + 1, exec := Clear)
    case StartHandler => s.(posted := s.posted - 1, io := Draining(0))
    case Dequeue(n) => s.(queued := s.queued - n, io := Draining(s.io.taken + n))
    case StopDraining => s.(io := BeforeStore)
    case StoreFalse => s.(scheduled := false, io := BeforeCheck)
    case CheckSize => s.(io := if s.queued > 0 then BeforeCas else Idle)
    case IoCas =>
      if s.scheduled then s.(io := Idle) else s.(scheduled := true, io := Posting)
    case IoPost => s.(posted := s.posted + 1, io := Idle)
  }

  predicate IsRun(steps: seq<Step>)
    decreases |steps|, 0
  {
    steps == [] ||
    (IsRun(steps[..|steps| - 1]) && Enabled(After(steps[..|steps| - 1]), steps[|steps| - 1]))
  }

  function After(steps: seq<Step>): State
    requires IsRun(steps)
    decreases |steps|, 1
  {
    if steps == [] then INIT else Next(After(steps[..|steps| - 1]), steps[|steps| - 1])
  }

  /** Handlers that still will reset the flag: posted, about to be posted, or before their store. */
  function Tokens(s: State): nat {
    s.posted + One(s.exec.OwesPost?) + One(s.io.Posting? || s.io.Draining? || s.io.BeforeStore?)
  }

  /** A drain handler is posted or running and has not yet made its final size check, or is posting another. */
  predicate WakeupPending(s: State) {
    s.posted > 0 || !s.io.Idle?
  }

  predicate NoLostWakeup(s: State) {
    s.queued > 0 && s.exec.Clear? ==> WakeupPending(s)
  }

  predicate Arrival(st: Step) { st.Enqueue? || st.EnqueueQuietly? }

  /** Nothing but a new reply can happen. */
  ghost predicate AtRest(s: State) {
    forall st | Enabled(s, st) :: Arrival(st)
  }

  lemma RestIs(s: State)
    ensures AtRest(s) <==> s.io.Idle? && s.posted == 0 && s.exec.Clear?
  {
    if AtRest(s) {
      var st :=
        match s.exec
        case Owes => ExecCas
        case OwesPost => ExecPost
        case Clear =>
          match s.io
          case Idle => StartHandler
          case Draining(taken) => if taken < MAX_BATCH && s.queued > 0 then Dequeue(1) else StopDraining
          case BeforeStore => StoreFalse
          case BeforeCheck => CheckSize
          case BeforeCas => IoCas
          case Posting => IoPost;
      assert !Arrival(st) && !Enabled(s, st);
    }
  }

  /** The flag is the number of tokens, and an unattended reply implies an active handler. */
  predicate Inv(s: State) {
    && Tokens(s) == One(s.scheduled)
    && (s.queued > 0 && s.exec.Clear? ==> s.scheduled || s.io.BeforeCheck? || s.io.BeforeCas?)
    && (s.io.BeforeCas? || s.io.Posting? ==> s.queued > 0)
  }

  /** Replies are queued and neither thread will do anything about them. */
  predicate Stranded(s: State) {
    s.queued > 0 && s.io.Idle? && s.posted == 0 && s.exec.Clear? && !s.scheduled
  }

  /** A reply queued without a notify while the protocol is at rest. */
  ghost predicate Unattended(s: State, st: Step) { st.EnqueueQuietly? && AtRest(s) }

  /** The protocol's own steps never strand a reply; a quiet one does exactly at rest. */
  lemma StepKeepsInv(s: State, st: Step)
    requires Inv(s) && Enabled(s, st)
    ensures if Unattended(s, st) then Stranded(Next(s, st)) else Inv(Next(s, st))
  {
    RestIs(s);
  }

  /** Nothing but another reply happens to a stranded one, and a notify ends its wait. */
  lemma StrandedStep(s: State, st: Step)
    requires Stranded(s) && Enabled(s, st)
    ensures Arrival(st)
    ensures if Unattended(s, st) then Stranded(Next(s, st)) else Inv(Next(s, st))
    ensures st.EnqueueQuietly? ==> Unattended(s, st)
  {
    RestIs(s);
  }

  /** Replies are stranded after a run exactly when it ends with a reply queued quietly at rest. */
  lemma {:induction false} RunInvariant(steps: seq<Step>)
    requires IsRun(steps)
    ensures if steps != [] && Unattended(After(steps[..|steps| - 1]), steps[|steps| - 1])
            then Stranded(After(steps)) else Inv(After(steps))
    decreases |steps|
  {
    if steps != [] {
      var s, st := After(steps[..|steps| - 1]), steps[|steps| - 1];
      RunInvariant(steps[..|steps| - 1]);
      if Inv(s) {
        StepKeepsInv(s, st);
      } else {
        StrandedStep(s, st);
      }
    }
  }

  /**
   In every interleaving, some queued reply is left without a handler that will look at the queue
   again if and only if the last step queued a reply without a notify while the protocol was at rest.
   */
  lemma StrandsExactly(steps: seq<Step>)
    requires IsRun(steps)
    ensures !NoLostWakeup(After(steps)) <==>
            steps != [] && Unattended(After(steps[..|steps| - 1]), steps[|steps| - 1])
  {
    RunInvariant(steps);
  }

  /** With every reply notified, none is ever left without a handler that will look at the queue again. */
  lemma RepliesNeverStrand(steps: seq<Step>)
    requires IsRun(steps) && forall st | st in steps :: !st.EnqueueQuietly?
    ensures NoLostWakeup(After(steps))
  {
    StrandsExactly(steps);
    if steps != [] {
      assert steps[|steps| - 1] in steps;
    }
  }

  /** A stranded reply stays until the executor queues a notified one: nothing else can happen meanwhile. */
  lemma {:induction false} StrandedStays(steps: seq<Step>, more: seq<Step>)
    requires IsRun(steps) && IsRun(steps + more) && !NoLostWakeup(After(steps))
    requires forall st | st in more :: !st.Enqueue?
    ensures !NoLostWakeup(After(steps + more)) && After(steps + more).queued == After(steps).queued + |more|
  {
    if more == [] {
      assert steps + more == steps;
    } else {
      var init, last := more[..|more| - 1], more[|more| - 1];
      assert (steps + more)[..|steps + more| - 1] == steps + init;
      assert last in more;
      StrandedStays(steps, init);
      RunInvariant(steps + init);
      StrandedStep(After(steps + init), last);
    }
  }

  /** The failing case: a pub/sub copy queued on an idle worker. */
  lemma QuietReplyOnIdleWorkerStrands(byIo: bool)
    ensures IsRun([EnqueueQuietly(byIo)]) && !NoLostWakeup(After([EnqueueQuietly(byIo)]))
  {
    assert [EnqueueQuietly(byIo)][..0] == [];
    assert IsRun([]);
  }

  // ----- Progress: the protocol drains the queue -----

  /** Work left in the handler, given whether replies remain. */
  function PhaseRank(io: Phase, more: bool): nat {
    match io
    case Idle => 0
    case Draining(taken) => if !more then 4 else if taken >= MAX_BATCH then 16 else 6
    case BeforeStore => if more then 15 else 3
    case BeforeCheck => if more then 14 else 2
    case BeforeCas => 13
    case Posting => 12
  }

  function Rank(s: State): nat {
    40 * s.queued + PhaseRank(s.io, s.queued > 0) + 10 * s.posted
    + match s.exec case Clear => 0 case Owes => 22 case OwesPost => 11
  }

  /** Every step other than a new reply brings the protocol closer to rest. */
  lemma StepsRun(s: State, st: Step)
    requires (Inv(s) || Stranded(s)) && Enabled(s, st) && !Arrival(st)
    ensures Rank(Next(s, st)) < Rank(s)
  {
  }

  /** At rest the queue is empty, unless the last reply came quietly at rest. */
  lemma RestIsEmpty(steps: seq<Step>)
    requires IsRun(steps) && AtRest(After(steps))
    ensures After(steps).queued == 0 <==>
            !(steps != [] && Unattended(After(steps[..|steps| - 1]), steps[|steps| - 1]))
  {
    RunInvariant(steps);
    RestIs(After(steps));
  }

  /** Steps after `steps` that queue no new reply number at most the rank of the state reached. */
  lemma {:induction false} DrainingEnds(steps: seq<Step>, more: seq<Step>)
    requires IsRun(steps + more) && IsRun(steps)
    requires forall k | 0 <= k < |more| :: !Arrival(more[k])
    ensures |more| + Rank(After(steps + more)) <= Rank(After(steps))
    decreases |more|
  {
    if more == [] {
      assert steps + more == steps;
    } else {
      var init, last := more[..|more| - 1], more[|more| - 1];
      assert (steps + more)[..|steps + more| - 1] == steps + init;
      DrainingEnds(steps, init);
      RunInvariant(steps + init);
      StepsRun(After(steps + init), last);
    }
  }
}
