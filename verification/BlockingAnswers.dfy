/** What a step of the blocking manager ends, and who is answered, over every run. */
module BlockingAnswers {
  import opened Common
  import opened Blocking
  import opened BlockingRuns

  // ----- What a step ends -----

  function Tickets(q: Queue): set<nat> { set r | r in q :: r.ticket }

  /** The waits a step ends. */
  function Ends(s: Sys, step: Step): set<nat>
    requires Enabled(s, step)
  {
    var qs := s.book.queues;
    match step
    case Wake(key) => if QueueOf(qs, key) == [] then {} else {qs[key][0].ticket}
    case Fire(i, found) =>
      if found.Some? then {Ended(s.book, found.value, s.clock.posted[i].client).ticket} else {}
    case Sweep(client, found) => if found.Some? then Tickets(Where(qs[found.value], IsOf(client))) else {}
    case Clean(key, at) => Tickets(Where(qs[key], ExpiredAt(at)))
    case _ => {}
  }

  lemma WaitsIsTickets(q: Queue, t: nat)
    ensures Waits(q, t) <==> t in Tickets(q)
  {
    if t in Tickets(q) {
      var r :| r in q && r.ticket == t;
      var i :| 0 <= i < |q| && q[i] == r;
    }
  }

  lemma QueuedIsOpen(b: Book, key: string, t: nat)
    requires QueueOk(b, key) && Waits(QueueOf(b.queues, key), t)
    ensures t in b.waits && t !in b.done
  {
  }

  lemma WhereIsOpen(b: Book, key: string, p: Test, t: nat)
    requires key in b.queues && QueueOk(b, key)
    ensures t in Tickets(Where(b.queues[key], p)) <==> Waits(Where(b.queues[key], p), t)
    ensures t in Tickets(Where(b.queues[key], p)) ==> t in b.waits && t !in b.done
  {
    var q := b.queues[key];
    SplitTickets(q, p);
    WaitsIsTickets(Where(q, p), t);
    if Waits(Where(q, p), t) {
      QueuedIsOpen(b, key, t);
    }
  }

  /** How the waits that a step ends end. */
  function HowEnded(step: Step): Outcome {
    match step
    case Wake(_) => Served
    case Sweep(_, _) => Gone
    case _ => Nil
  }

  lemma AllEnd(b: Book, key: string, p: Test, how: Outcome, t: nat)
    requires key in b.queues && QueueOk(b, key)
    ensures var out := Where(b.queues[key], p);
      var m := MarkAll(b.done, out, how);
      && (t in m <==> t in b.done || t in Tickets(out))
      && (t in Tickets(out) ==> t !in b.done && t in b.waits && m[t] == how)
      && (t in b.done ==> m[t] == b.done[t])
  {
    WhereIsOpen(b, key, p, t);
    MarkAllIs(b.done, Where(b.queues[key], p), how);
  }

  /** A step ends open waits only, and leaves what had ended as it was. */
  lemma StepEnds(s: Sys, step: Step, t: nat)
    requires BookInv(s.book) && Enabled(s, step)
    ensures var b, n := s.book, Next(s, step).book;
      && (t in n.done <==> t in b.done || t in Ends(s, step))
      && (t in Ends(s, step) ==> t !in b.done && t in b.waits && n.done[t] == HowEnded(step))
      && (t in b.done ==> n.done[t] == b.done[t])
  {
    var b := s.book;
    match step
    case Wake(key) =>
      if QueueOf(b.queues, key) != [] {
        assert QueueOk(b, key);
      }
    case Fire(i, found) =>
      if found.Some? {
        assert QueueOk(b, found.value);
      }
    case Sweep(client, found) =>
      if found.Some? {
        assert QueueOk(b, found.value);
        AllEnd(b, found.value, IsOf(client), Gone, t);
      }
    case Clean(key, at) =>
      assert QueueOk(b, key);
      AllEnd(b, key, ExpiredAt(at), Nil, t);
    case _ =>
  }

  /** A wait ends once: nothing later in the run changes how it ended. */
  lemma {:induction false} EndingsAreFinal(steps: seq<Step>, more: seq<Step>, ticket: nat)
    requires IsRun(INIT, steps) && IsRun(INIT, steps + more) && ticket in After(INIT, steps).book.done
    ensures ticket in After(INIT, steps + more).book.done
    ensures After(INIT, steps + more).book.done[ticket] == After(INIT, steps).book.done[ticket]
    decreases |more|
  {
    if more == [] {
      assert steps + more == steps;
    } else {
      var before := more[..|more| - 1];
      assert (steps + more)[..|steps + more| - 1] == steps + before;
      EndingsAreFinal(steps, before, ticket);
      RunKeepsBook(steps + before);
      StepEnds(After(INIT, steps + before), more[|more| - 1], ticket);
    }
  }

  // ----- Answers -----

  function IsTo(t: nat): Answer -> bool { (a: Answer) => a.ticket == t }

  /** A timeout has taken the wait off its queue and not answered yet. */
  predicate AboutToAnswer(s: Sys, t: nat) { s.firing.Some? && s.firing.value.ended == Some(t) }

  /** One answer to every wait that ended with one, sent or about to be, and none to any other. */
  predicate AnswersOk(s: Sys, t: nat) {
    var done := s.book.done;
    && Count(s.answers, IsTo(t)) + One(AboutToAnswer(s, t)) == One(t in done && done[t] != Gone)
    && (AboutToAnswer(s, t) ==> t in done && done[t] == Nil)
    && (forall a | a in s.answers && a.ticket == t :: t in done && a.how == done[t])
  }

  lemma {:induction false} CountNils(answers: seq<Answer>, q: Queue, t: nat)
    requires Increasing(q)
    ensures Count(answers + Map(q, NilTo()), IsTo(t)) == Count(answers, IsTo(t)) + One(Waits(q, t))
  {
    if q == [] {
      assert answers + Map(q, NilTo()) == answers;
    } else {
      var init, r := q[..|q| - 1], q[|q| - 1];
      CountNils(answers, init, t);
      assert q == init + [r];
      MapPush(init, r, NilTo());
      assert answers + Map(q, NilTo()) == answers + Map(init, NilTo()) + [Answer(r.ticket, Nil)];
      CountPush(answers + Map(init, NilTo()), Answer(r.ticket, Nil), IsTo(t));
      WaitsPush(init, r, t);
    }
  }

  lemma NilsAre(q: Queue)
    ensures forall a | a in Map(q, NilTo()) :: a.how == Nil && Waits(q, a.ticket)
  {
    forall a | a in Map(q, NilTo()) ensures a.how == Nil && Waits(q, a.ticket) {
      var i :| 0 <= i < |q| && Map(q, NilTo())[i] == a;
      assert q[i].ticket == a.ticket;
    }
  }

  lemma WaitsPush(q: Queue, r: Registration, t: nat)
    requires Increasing(q + [r])
    ensures One(Waits(q + [r], t)) == One(Waits(q, t)) + One(r.ticket == t)
  {
    var grown := q + [r];
    assert grown[|q|] == r && forall i | 0 <= i < |q| :: grown[i] == q[i];
    if Waits(q, t) {
      var i :| 0 <= i < |q| && q[i].ticket == t;
      assert grown[i].ticket == t && grown[i].ticket < grown[|q|].ticket;
    } else if Waits(grown, t) {
      var i :| 0 <= i < |grown| && grown[i].ticket == t;
      assert i == |q|;
    }
  }

  lemma OneAnswered(s: Sys, n: Sys, x: nat, how: Outcome, t: nat)
    requires AnswersOk(s, t) && n.firing == s.firing && n.answers == s.answers + [Answer(x, how)]
    requires how != Gone && x !in s.book.done && n.book.done == s.book.done[x := how]
    ensures AnswersOk(n, t)
  {
    CountPush(s.answers, Answer(x, how), IsTo(t));
  }

  lemma CleanAnswers(s: Sys, step: Step, t: nat)
    requires AnswersOk(s, t) && BookInv(s.book) && step.Clean? && Enabled(s, step)
    ensures AnswersOk(Next(s, step), t)
  {
    var q := s.book.queues[step.key];
    var out := Where(q, ExpiredAt(step.at));
    assert QueueOk(s.book, step.key);
    SplitTickets(q, ExpiredAt(step.at));
    CountNils(s.answers, out, t);
    NilsAre(out);
    StepEnds(s, step, t);
    WaitsIsTickets(out, t);
  }

  lemma FinishAnswers(s: Sys, t: nat)
    requires AnswersOk(s, t) && s.firing.Some?
    ensures AnswersOk(Next(s, Finish), t)
  {
    var ended := s.firing.value.ended;
    if ended.Some? {
      CountPush(s.answers, Answer(ended.value, Nil), IsTo(t));
    } else {
      assert s.answers + [] == s.answers;
    }
  }

  lemma StepAnswers(s: Sys, step: Step, t: nat)
    requires AnswersOk(s, t) && BookInv(s.book) && Enabled(s, step)
    ensures AnswersOk(Next(s, step), t)
  {
    StepEnds(s, step, t);
    match step
    case Wake(key) =>
      if QueueOf(s.book.queues, key) != [] {
        assert QueueOk(s.book, key);
        OneAnswered(s, Next(s, step), s.book.queues[key][0].ticket, Served, t);
      }
    case Finish => FinishAnswers(s, t);
    case Clean(_, _) => CleanAnswers(s, step, t);
    case _ =>
  }

  lemma {:induction false} RunAnswers(steps: seq<Step>, t: nat)
    requires IsRun(INIT, steps)
    ensures AnswersOk(After(INIT, steps), t)
  {
    if steps != [] {
      RunAnswers(steps[..|steps| - 1], t);
      RunKeepsBook(steps[..|steps| - 1]);
      StepAnswers(After(INIT, steps[..|steps| - 1]), steps[|steps| - 1], t);
    }
  }

  /**
   In every run nobody is answered twice: once no timeout is at work, a wait that was served or timed
   out has exactly one answer, saying how it ended, and any other wait has none.
   */
  lemma AnsweredOnce(steps: seq<Step>, t: nat)
    requires IsRun(INIT, steps)
    ensures var s := After(INIT, steps);
      && Count(s.answers, IsTo(t)) <= 1
      && (t !in s.book.done || s.book.done[t] == Gone ==> Count(s.answers, IsTo(t)) == 0)
      && (t in s.book.done && s.book.done[t] != Gone && s.firing.None? ==>
            exists i :: 0 <= i < |s.answers| && s.answers[i] == Answer(t, s.book.done[t])
                        && forall j | 0 <= j < |s.answers| && s.answers[j].ticket == t :: j == i)
  {
    RunAnswers(steps, t);
    var s := After(INIT, steps);
    if t in s.book.done && s.book.done[t] != Gone && s.firing.None? {
      CountOne(s.answers, IsTo(t));
      var i :| IsOnly(s.answers, IsTo(t), i);
      assert s.answers[i] in s.answers;
      assert s.answers[i] == Answer(t, s.book.done[t]);
    }
  }

  // ----- Whose wait a step ends -----

  /** The registrations made in a run, in order. */
  function Made(steps: seq<Step>): seq<Wait> {
    if steps == [] then []
    else
      var before, last := Made(steps[..|steps| - 1]), steps[|steps| - 1];
      if last.Arm? then before + [Wait(last.key, Registration(|before|, last.client, last.timeout, last.now))]
      else before
  }

  /** What is remembered of a registration is what was registered. */
  lemma {:induction false} RegistrationsAreKept(steps: seq<Step>, t: nat)
    requires IsRun(INIT, steps)
    ensures var b := After(INIT, steps).book;
      && b.next == |Made(steps)|
      && (t in b.waits <==> t < |Made(steps)|)
      && (t in b.waits ==> b.waits[t] == Made(steps)[t])
  {
    if steps != [] {
      RegistrationsAreKept(steps[..|steps| - 1], t);
    }
  }

  /** The registration waits in the queue of the key. */
  predicate WaitingOn(b: Book, key: string, t: nat) {
    t in b.waits && b.waits[t].key == key && t !in b.done && !IsArriving(b, t)
  }

  lemma WaitingIsQueued(b: Book, key: string, t: nat)
    requires BookInv(b)
    ensures WaitingOn(b, key, t) <==> Waits(QueueOf(b.queues, key), t)
    ensures forall i | 0 <= i < |QueueOf(b.queues, key)| && QueueOf(b.queues, key)[i].ticket == t ::
      t in b.waits && QueueOf(b.queues, key)[i] == b.waits[t].reg
  {
    assert QueueOk(b, key);
    if WaitingOn(b, key, t) {
      assert TicketOk(b, t);
    }
  }

  /** Among the registrations waiting on a key, the oldest that passes the test. */
  ghost predicate IsOldest(b: Book, key: string, p: Test, t: nat) {
    && WaitingOn(b, key, t) && p(b.waits[t].reg)
    && forall u | WaitingOn(b, key, u) && p(b.waits[u].reg) :: t <= u
  }

  function Anyone(): Test { (r: Registration) => true }

  /** The first in a queue to pass the test is the oldest. */
  lemma FirstIsOldest(b: Book, key: string, p: Test, i: nat, t: nat)
    requires BookInv(b) && key in b.queues && i < |b.queues[key]| && p(b.queues[key][i])
    requires forall j | 0 <= j < i :: !p(b.queues[key][j])
    ensures t == b.queues[key][i].ticket <==> IsOldest(b, key, p, t)
  {
    var q := b.queues[key];
    var first := q[i].ticket;
    assert QueueOk(b, key);
    WaitingIsQueued(b, key, first);
    forall u | WaitingOn(b, key, u) && p(b.waits[u].reg) ensures first <= u {
      WaitingIsQueued(b, key, u);
      var j :| 0 <= j < |q| && q[j].ticket == u;
    }
    assert WaitingOn(b, key, first) && p(b.waits[first].reg);
  }

  /** Those of a queue that pass the test are those waiting that do. */
  lemma WherePasses(b: Book, key: string, p: Test, t: nat)
    requires BookInv(b) && key in b.queues
    ensures t in Tickets(Where(b.queues[key], p)) <==> WaitingOn(b, key, t) && p(b.waits[t].reg)
  {
    var q := b.queues[key];
    SplitIs(q, p);
    WaitingIsQueued(b, key, t);
    if t in Tickets(Where(q, p)) {
      var r :| r in Where(q, p) && r.ticket == t;
      var i :| 0 <= i < |q| && q[i] == r;
    }
    if WaitingOn(b, key, t) && p(b.waits[t].reg) {
      var i :| 0 <= i < |q| && q[i].ticket == t;
      assert q[i] in Where(q, p);
    }
  }

  /** The waits a step must end. */
  ghost predicate MustEnd(s: Sys, step: Step, t: nat)
    requires Enabled(s, step)
  {
    var b := s.book;
    match step
    case Wake(key) => IsOldest(b, key, Anyone(), t)
    case Fire(i, found) => found.Some? && IsOldest(b, found.value, IsOf(s.clock.posted[i].client), t)
    case Sweep(client, found) =>
      found.Some? && WaitingOn(b, found.value, t) && b.waits[t].reg.client == client
    case Clean(key, at) =>
      && WaitingOn(b, key, t) && b.waits[t].reg.timeout > 0.0
      && at - b.waits[t].reg.started > b.waits[t].reg.timeout
    case _ => false
  }

  lemma WakeEnds(b: Book, key: string, t: nat)
    requires BookInv(b)
    ensures IsOldest(b, key, Anyone(), t) <==> QueueOf(b.queues, key) != [] && t == b.queues[key][0].ticket
  {
    if QueueOf(b.queues, key) == [] {
      WaitingIsQueued(b, key, t);
    } else {
      FirstIsOldest(b, key, Anyone(), 0, t);
    }
  }

  /**
   In every run a wakeup serves exactly the registration that has waited longest on the key; a timeout
   answers nil to the client's oldest registration on the key where it is found; a removal ends all of
   the client's on that key; and a cleaning exactly those whose time is up. Nothing else ends a wait.
   */
  lemma EndsExactly(steps: seq<Step>, step: Step, t: nat)
    requires IsRun(INIT, steps) && Enabled(After(INIT, steps), step)
    ensures var s := After(INIT, steps);
      var n := Next(s, step);
      && (t in n.book.done <==> t in s.book.done || MustEnd(s, step, t))
      && (MustEnd(s, step, t) ==>
            n.book.done[t] == if step.Wake? then Served else if step.Sweep? then Gone else Nil)
  {
    RunKeepsBook(steps);
    var s := After(INIT, steps);
    var b := s.book;
    StepEnds(s, step, t);
    match step
    case Wake(key) => WakeEnds(b, key, t);
    case Fire(i, found) =>
      if found.Some? {
        var client := s.clock.posted[i].client;
        FirstIsOldest(b, found.value, IsOf(client), FirstOf(b.queues[found.value], client), t);
      }
    case Sweep(client, found) =>
      if found.Some? {
        WherePasses(b, found.value, IsOf(client), t);
      }
    case Clean(key, at) => WherePasses(b, key, ExpiredAt(at), t);
    case _ =>
  }
}
