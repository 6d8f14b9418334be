/**
 What clients that wait one at a time can rely on: every wait with a timeout keeps its timer until it
 ends, and a timer never ends another wait than its own.
 */
module BlockingOrder {
  import opened Blocking
  import opened BlockingRuns
  import opened BlockingAnswers
  import opened BlockingTimers

  predicate IsOpenFor(b: Book, t: nat, client: nat) {
    t in b.waits && t !in b.done && b.waits[t].reg.client == client
  }

  predicate ArrivesFor(b: Book, client: nat) { b.arriving.Some? && b.arriving.value.reg.client == client }

  /**
   A client registers only when it has no open wait and no callback that is posted or at work; and no
   callback and no removal looks for it while it is being registered.
   */
  predicate Orderly(s: Sys, step: Step) {
    match step
    case Arm(_, client, _, _) =>
      && (forall t | t in s.book.waits :: !IsOpenFor(s.book, t, client))
      && (forall i | 0 <= i < |s.clock.posted| :: s.clock.posted[i].client != client)
      && (s.firing.Some? ==> s.firing.value.client != client)
    case Fire(i, _) => i < |s.clock.posted| && !ArrivesFor(s.book, s.clock.posted[i].client)
    case Sweep(client, _) => !ArrivesFor(s.book, client)
    case _ => true
  }

  function OrderlySteps(): (Sys, Step) -> bool { (s: Sys, step: Step) => Orderly(s, step) }

  /** The callback ends its own wait or none. */
  function OwnCallbacks(): (Sys, Step) -> bool {
    (s: Sys, step: Step) =>
      Enabled(s, step) && step.Fire? && step.found.Some? ==>
        Ended(s.book, step.found.value, s.clock.posted[step.i].client).ticket == s.clock.posted[step.i].ticket
  }

  /** The client waits once; its timer and its callbacks are those of that wait, and none is at work. */
  predicate OnlyWait(s: Sys, t: nat, client: nat) {
    && (forall u | u in s.book.waits && IsOpenFor(s.book, u, client) :: u == t)
    && (forall i | 0 <= i < |s.clock.posted| && s.clock.posted[i].client == client :: s.clock.posted[i].ticket == t)
    && (client in s.clock.timers && s.clock.timers[client].Armed? ==> s.clock.timers[client].ticket == t)
    && (s.firing.Some? ==> s.firing.value.client != client)
  }

  predicate OneAtATime(s: Sys) {
    forall t | t in s.book.waits && t !in s.book.done :: OnlyWait(s, t, s.book.waits[t].reg.client)
  }

  // ----- What is in a queue is an open wait -----

  lemma QueuedIsOpenFor(b: Book, key: string, r: Registration)
    requires QueueOk(b, key) && key in b.queues && r in b.queues[key]
    ensures r.ticket in b.waits && b.waits[r.ticket].reg == r && IsOpenFor(b, r.ticket, r.client)
  {
    var i :| 0 <= i < |b.queues[key]| && b.queues[key][i] == r;
  }

  /** An open wait that is queued makes the search find its client. */
  lemma OpenIsFound(b: Book, t: nat, client: nat)
    requires BookInv(b) && IsOpenFor(b, t, client) && !ArrivesFor(b, client)
    ensures IsBlocked(b.queues, client)
  {
    assert TicketOk(b, t);
    var key := b.waits[t].key;
    assert QueueOk(b, key) && ArrivingOk(b);
    var q := QueueOf(b.queues, key);
    var i :| 0 <= i < |q| && q[i].ticket == t;
    assert key in b.queues && Holds(b.queues[key], client);
  }

  lemma EndedIsOpen(b: Book, key: string, client: nat)
    requires BookInv(b) && key in b.queues && Holds(b.queues[key], client)
    ensures IsOpenFor(b, Ended(b, key, client).ticket, client)
  {
    assert QueueOk(b, key);
    QueuedIsOpenFor(b, key, Ended(b, key, client));
  }

  // ----- Callbacks -----

  /** An orderly callback ends its own wait, or finds nobody because the client does not wait. */
  lemma OwnCallback(s: Sys, step: Step)
    requires BookInv(s.book) && OneAtATime(s) && step.Fire? && Enabled(s, step) && Orderly(s, step)
    ensures OwnCallbacks()(s, step)
    ensures forall t | t in s.book.waits && IsOpenFor(s.book, t, s.clock.posted[step.i].client) ::
      step.found.Some? && Ended(s.book, step.found.value, s.clock.posted[step.i].client).ticket == t
  {
    var b, cb := s.book, s.clock.posted[step.i];
    if step.found.Some? {
      EndedIsOpen(b, step.found.value, cb.client);
      var u := Ended(b, step.found.value, cb.client).ticket;
      assert OnlyWait(s, u, cb.client);
    }
    forall t | t in b.waits && IsOpenFor(b, t, cb.client)
      ensures step.found.Some? && Ended(b, step.found.value, cb.client).ticket == t
    {
      OpenIsFound(b, t, cb.client);
      assert OnlyWait(s, t, cb.client);
    }
  }

  // ----- One wait at a time stays that way -----

  lemma StaysOnly(s: Sys, n: Sys, t: nat, client: nat)
    requires OnlyWait(s, t, client)
    requires forall u | u in n.book.waits && IsOpenFor(n.book, u, client) ::
      u in s.book.waits && IsOpenFor(s.book, u, client)
    requires n.clock.posted == s.clock.posted
    requires client in n.clock.timers && n.clock.timers[client].Armed? ==>
      client in s.clock.timers && s.clock.timers[client] == n.clock.timers[client]
    requires n.firing.None? || n.firing == s.firing
    ensures OnlyWait(n, t, client)
  {
  }

  lemma ArmStays(s: Sys, step: Step)
    requires BookInv(s.book) && OneAtATime(s) && step.Arm? && Enabled(s, step) && Orderly(s, step)
    ensures OneAtATime(Next(s, step))
  {
    var n := Next(s, step);
    assert s.book.next !in s.book.waits && s.book.next !in s.book.done;
    forall t | t in n.book.waits && t !in n.book.done ensures OnlyWait(n, t, n.book.waits[t].reg.client) {
      if t != s.book.next {
        assert IsOpenFor(s.book, t, s.book.waits[t].reg.client);
        StaysOnly(s, n, t, s.book.waits[t].reg.client);
      }
    }
  }

  lemma ExpireStays(s: Sys, step: Step)
    requires OneAtATime(s) && step.Expire? && Enabled(s, step)
    ensures OneAtATime(Next(s, step))
  {
    var n := Next(s, step);
    forall t | t in n.book.waits && t !in n.book.done ensures OnlyWait(n, t, n.book.waits[t].reg.client) {
      assert OnlyWait(s, t, s.book.waits[t].reg.client);
    }
  }

  lemma FireStays(s: Sys, step: Step)
    requires BookInv(s.book) && OneAtATime(s) && step.Fire? && Enabled(s, step) && Orderly(s, step)
    ensures OneAtATime(Next(s, step))
  {
    var n, cb := Next(s, step), s.clock.posted[step.i];
    OwnCallback(s, step);
    forall t | t in n.book.waits && t !in n.book.done ensures OnlyWait(n, t, n.book.waits[t].reg.client) {
      StepEnds(s, step, t);
      var client := s.book.waits[t].reg.client;
      assert OnlyWait(s, t, client) && client != cb.client;
      forall u | u in n.book.waits && IsOpenFor(n.book, u, client) ensures u == t {
        StepEnds(s, step, u);
      }
      forall i | 0 <= i < |n.clock.posted| && n.clock.posted[i].client == client ensures n.clock.posted[i].ticket == t {
        assert n.clock.posted[i] == s.clock.posted[if i < step.i then i else i + 1];
      }
    }
  }

  /** Every other step only ends waits and drops timers. */
  lemma OtherStays(s: Sys, step: Step)
    requires BookInv(s.book) && OneAtATime(s) && Enabled(s, step) && !step.Arm? && !step.Expire? && !step.Fire?
    ensures OneAtATime(Next(s, step))
  {
    var n := Next(s, step);
    forall t | t in n.book.waits && t !in n.book.done ensures OnlyWait(n, t, n.book.waits[t].reg.client) {
      var client := s.book.waits[t].reg.client;
      StepEnds(s, step, t);
      assert OnlyWait(s, t, client);
      forall u | u in n.book.waits && IsOpenFor(n.book, u, client)
        ensures u in s.book.waits && IsOpenFor(s.book, u, client)
      {
        StepEnds(s, step, u);
      }
      StaysOnly(s, n, t, client);
    }
  }

  lemma StepStays(s: Sys, step: Step)
    requires BookInv(s.book) && OneAtATime(s) && Enabled(s, step) && Orderly(s, step)
    ensures OneAtATime(Next(s, step))
  {
    if step.Arm? {
      ArmStays(s, step);
    } else if step.Expire? {
      ExpireStays(s, step);
    } else if step.Fire? {
      FireStays(s, step);
    } else {
      OtherStays(s, step);
    }
  }

  // ----- Timers are kept -----

  lemma OnlyOneOpen(s: Sys, t: nat, u: nat, client: nat)
    requires OneAtATime(s) && IsOpenFor(s.book, t, client) && IsOpenFor(s.book, u, client)
    ensures t == u
  {
    assert OnlyWait(s, t, client);
  }

  lemma ArmedIsOwn(s: Sys, client: nat, t: nat)
    requires ClockInv(s.clock, s.book.waits) && Timed(s.book, t) && ArmedFor(s.clock, client, t)
    ensures IsOpenFor(s.book, t, client)
  {
    assert CallbackOk(s.book.waits, client, t);
  }

  lemma SweepEnds(s: Sys, step: Step, t: nat)
    requires BookInv(s.book) && OneAtATime(s) && step.Sweep? && Enabled(s, step) && Orderly(s, step)
    requires IsOpenFor(s.book, t, step.client)
    ensures t in Ends(s, step)
  {
    var b := s.book;
    OpenIsFound(b, t, step.client);
    var q := b.queues[step.found.value];
    var r := q[FirstOf(q, step.client)];
    assert QueueOk(b, step.found.value);
    QueuedIsOpenFor(b, step.found.value, r);
    OnlyOneOpen(s, t, r.ticket, step.client);
    SplitIs(q, IsOf(step.client));
    assert r in Where(q, IsOf(step.client));
  }

  lemma CleanEnds(s: Sys, step: Step, t: nat, client: nat)
    requires BookInv(s.book) && OneAtATime(s) && step.Clean? && Enabled(s, step) && IsOpenFor(s.book, t, client)
    requires client in Clients(Where(s.book.queues[step.key], ExpiredAt(step.at)))
    ensures t in Ends(s, step)
  {
    var q := s.book.queues[step.key];
    var r :| r in Where(q, ExpiredAt(step.at)) && r.client == client;
    SplitIs(q, ExpiredAt(step.at));
    assert QueueOk(s.book, step.key);
    QueuedIsOpenFor(s.book, step.key, r);
    OnlyOneOpen(s, t, r.ticket, client);
  }

  lemma WakeEnds(s: Sys, key: string, t: nat)
    requires BookInv(s.book) && OneAtATime(s) && QueueOf(s.book.queues, key) != []
    requires IsOpenFor(s.book, t, s.book.queues[key][0].client)
    ensures t in Ends(s, Wake(key))
  {
    var r := s.book.queues[key][0];
    assert QueueOk(s.book, key);
    QueuedIsOpenFor(s.book, key, r);
    OnlyOneOpen(s, t, r.ticket, r.client);
  }

  /** An orderly step that takes what watches an open wait ends that wait. */
  lemma OrderlyEnds(s: Sys, step: Step, t: nat)
    requires BookInv(s.book) && ClockInv(s.clock, s.book.waits) && OneAtATime(s)
    requires Enabled(s, step) && Orderly(s, step)
    requires t in s.book.waits && Timed(s.book, t) && Unwatches(s, step, t)
    ensures t in Ends(s, step)
  {
    match step
    case Arm(_, client, _, _) => ArmedIsOwn(s, client, t);
    case Wake(key) =>
      ArmedIsOwn(s, s.book.queues[key][0].client, t);
      WakeEnds(s, key, t);
    case Fire(i, _) =>
      assert CallbackOk(s.book.waits, s.clock.posted[i].client, t);
      assert IsOpenFor(s.book, t, s.clock.posted[i].client);
      OwnCallback(s, step);
    case Finish => ArmedIsOwn(s, s.firing.value.client, t);
    case Sweep(client, _) => SweepEnds(s, step, t);
    case Clean(key, at) =>
      var client :| client in Clients(Where(s.book.queues[key], ExpiredAt(at))) && ArmedFor(s.clock, client, t);
      ArmedIsOwn(s, client, t);
      CleanEnds(s, step, t, client);
    case _ =>
  }

  lemma {:induction false} OrderlyRun(steps: seq<Step>)
    requires IsRun(INIT, steps) && Along(INIT, steps, OrderlySteps())
    ensures OneAtATime(After(INIT, steps))
    ensures Along(INIT, steps, KeepsWatch()) && Along(INIT, steps, OwnCallbacks())
  {
    if steps != [] {
      var before, step := steps[..|steps| - 1], steps[|steps| - 1];
      var s := After(INIT, before);
      OrderlyRun(before);
      RunKeepsBook(before);
      RunKeepsClock(before);
      StepStays(s, step);
      forall t | t in s.book.waits && Timed(s.book, t) && Unwatches(s, step, t) ensures t in Ends(s, step) {
        OrderlyEnds(s, step, t);
      }
      if step.Fire? {
        OwnCallback(s, step);
      }
    }
  }

  /**
   In every run in which clients wait one at a time, and are not looked for while they are being
   registered, every open wait with a timeout is watched until it ends and every callback ends its
   own wait or none.
   */
  lemma OrderlyWaitsKeepTimers(steps: seq<Step>)
    requires IsRun(INIT, steps) && Along(INIT, steps, OrderlySteps())
    ensures Throughout(INIT, steps, AllWatched()) && Along(INIT, steps, OwnCallbacks())
  {
    OrderlyRun(steps);
    WaitsKeepTimersExactly(steps);
  }
}
