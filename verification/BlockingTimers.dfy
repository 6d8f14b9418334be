/**
 Timers of blocked clients over every run of the blocking manager. A timer is kept per client and its
 callback looks for the client, not for the registration that set it.
 */
module BlockingTimers {
  import opened Common
  import opened Blocking
  import opened BlockingRuns
  import opened BlockingAnswers

  // ----- Whose timer it is -----

  /** A callback names a registration of its client with a timeout. */
  predicate CallbackOk(waits: map<nat, Wait>, client: nat, ticket: nat) {
    ticket in waits && waits[ticket].reg.client == client && waits[ticket].reg.timeout > 0.0
  }

  predicate ArmedOk(c: Clock, waits: map<nat, Wait>) {
    forall client | client in c.timers && c.timers[client].Armed? ::
      CallbackOk(waits, client, c.timers[client].ticket) && !IsPosted(c, c.timers[client].ticket)
  }

  predicate IsPosted(c: Clock, t: nat) { exists i :: 0 <= i < |c.posted| && c.posted[i].ticket == t }

  predicate PostedOk(c: Clock, waits: map<nat, Wait>) {
    && (forall i | 0 <= i < |c.posted| :: CallbackOk(waits, c.posted[i].client, c.posted[i].ticket))
    && (forall i, j | 0 <= i < j < |c.posted| :: c.posted[i].ticket != c.posted[j].ticket)
  }

  /** Every timer and callback belongs to one registration with a timeout, and no two to the same. */
  predicate ClockInv(c: Clock, waits: map<nat, Wait>) { ArmedOk(c, waits) && PostedOk(c, waits) }

  lemma ExpireKeeps(c: Clock, waits: map<nat, Wait>, client: nat)
    requires ClockInv(c, waits) && client in c.timers && c.timers[client].Armed?
    ensures ClockInv(Clock(c.timers[client := Idle], c.posted + [Callback(client, c.timers[client].ticket)]), waits)
  {
    var t := c.timers[client].ticket;
    var n := Clock(c.timers[client := Idle], c.posted + [Callback(client, t)]);
    forall i | 0 <= i < |c.posted| ensures c.posted[i].ticket != t {
      assert !IsPosted(c, t);
    }
    forall other | other in n.timers && n.timers[other].Armed? ensures !IsPosted(n, n.timers[other].ticket) {
      assert !IsPosted(c, c.timers[other].ticket);
    }
  }

  lemma TakenKeeps(c: Clock, waits: map<nat, Wait>, i: nat)
    requires ClockInv(c, waits) && i < |c.posted|
    ensures ClockInv(c.(posted := RemoveAt(c.posted, i)), waits)
    ensures forall t: nat :: IsPosted(c.(posted := RemoveAt(c.posted, i)), t) <==>
      IsPosted(c, t) && t != c.posted[i].ticket
  {
    var n := c.(posted := RemoveAt(c.posted, i));
    assert forall j | 0 <= j < |n.posted| :: n.posted[j] == c.posted[if j < i then j else j + 1];
    forall t: nat | IsPosted(c, t) && t != c.posted[i].ticket ensures IsPosted(n, t) {
      var j :| 0 <= j < |c.posted| && c.posted[j].ticket == t;
      assert n.posted[if j < i then j else j - 1] == c.posted[j];
    }
    forall t: nat | IsPosted(n, t) ensures IsPosted(c, t) && t != c.posted[i].ticket {
      var j :| 0 <= j < |n.posted| && n.posted[j].ticket == t;
      assert c.posted[if j < i then j else j + 1].ticket == t;
    }
  }

  lemma ArmKeeps(c: Clock, waits: map<nat, Wait>, w: Wait)
    requires ClockInv(c, waits) && w.reg.ticket !in waits
    ensures ClockInv(c.(timers := c.timers[w.reg.client := TimerFor(w.reg)]), waits[w.reg.ticket := w])
  {
    var n := c.(timers := c.timers[w.reg.client := TimerFor(w.reg)]);
    assert !IsPosted(c, w.reg.ticket);
    forall client | client in n.timers && n.timers[client].Armed?
      ensures !IsPosted(n, n.timers[client].ticket)
      ensures CallbackOk(waits[w.reg.ticket := w], client, n.timers[client].ticket)
    {
      if client != w.reg.client {
        assert !IsPosted(c, c.timers[client].ticket);
      }
    }
  }

  lemma CancelKeeps(c: Clock, waits: map<nat, Wait>, clients: set<nat>)
    requires ClockInv(c, waits)
    ensures ClockInv(Cancelled(c, clients), waits)
  {
    var n := Cancelled(c, clients);
    forall client | client in n.timers && n.timers[client].Armed? ensures !IsPosted(n, n.timers[client].ticket) {
      assert !IsPosted(c, c.timers[client].ticket);
    }
  }

  lemma StepKeepsClock(s: Sys, step: Step)
    requires BookInv(s.book) && ClockInv(s.clock, s.book.waits) && Enabled(s, step)
    ensures ClockInv(Next(s, step).clock, Next(s, step).book.waits)
  {
    var c, waits := s.clock, s.book.waits;
    match step
    case Arm(key, client, timeout, now) =>
      ArmKeeps(c, waits, Wait(key, Registration(s.book.next, client, timeout, now)));
    case Expire(client) => ExpireKeeps(c, waits, client);
    case Wake(key) =>
      if QueueOf(s.book.queues, key) != [] {
        CancelKeeps(c, waits, {s.book.queues[key][0].client});
      }
    case Fire(i, _) => TakenKeeps(c, waits, i);
    case Finish => CancelKeeps(c, waits, {s.firing.value.client});
    case Remove(client) => CancelKeeps(c, waits, {client});
    case Clean(key, at) => CancelKeeps(c, waits, Clients(Where(s.book.queues[key], ExpiredAt(at))));
    case _ =>
  }

  /** In every run a callback is that of a registration of its client with a timeout, and is posted once. */
  lemma {:induction false} RunKeepsClock(steps: seq<Step>)
    requires IsRun(INIT, steps)
    ensures ClockInv(After(INIT, steps).clock, After(INIT, steps).book.waits)
  {
    if steps != [] {
      RunKeepsClock(steps[..|steps| - 1]);
      RunKeepsBook(steps[..|steps| - 1]);
      StepKeepsClock(After(INIT, steps[..|steps| - 1]), steps[|steps| - 1]);
    }
  }

  // ----- Whose wait a callback ends -----

  /** The client waits at most once. */
  predicate WaitsOnce(qs: Queues, client: nat) {
    forall k1, k2 | k1 in qs && k2 in qs ::
      forall r1, r2 | r1 in qs[k1] && r2 in qs[k2] && r1.client == r2.client == client :: r1 == r2
  }

  /** Its own wait is still in that queue, before any other of the client. */
  predicate OwnIsFirst(q: Queue, cb: Callback) {
    Waits(q, cb.ticket) && forall r | r in q && r.client == cb.client :: cb.ticket <= r.ticket
  }

  lemma FirstIsOwn(b: Book, key: string, cb: Callback)
    requires QueueOk(b, key) && key in b.queues && Holds(b.queues[key], cb.client)
    requires CallbackOk(b.waits, cb.client, cb.ticket)
    ensures Ended(b, key, cb.client).ticket == cb.ticket <==> OwnIsFirst(b.queues[key], cb)
  {
    var q := b.queues[key];
    var first := FirstOf(q, cb.client);
    forall r | r in q && r.client == cb.client ensures q[first].ticket <= r.ticket {
      var i :| 0 <= i < |q| && q[i] == r;
    }
    if OwnIsFirst(q, cb) {
      var i :| 0 <= i < |q| && q[i].ticket == cb.ticket;
      assert q[i] in q && q[first] in q && q[i].client == cb.client;
    }
  }

  lemma OwnIsOver(b: Book, key: string, cb: Callback)
    requires BookInv(b) && key in b.queues && Holds(b.queues[key], cb.client)
    requires CallbackOk(b.waits, cb.client, cb.ticket) && WaitsOnce(b.queues, cb.client)
    ensures Ended(b, key, cb.client).ticket != cb.ticket <==> cb.ticket in b.done || IsArriving(b, cb.ticket)
  {
    var r := Ended(b, key, cb.client);
    assert QueueOk(b, key) && TicketOk(b, cb.ticket);
    if cb.ticket !in b.done && !IsArriving(b, cb.ticket) {
      var home := b.waits[cb.ticket].key;
      assert QueueOk(b, home);
      var q := QueueOf(b.queues, home);
      var j :| 0 <= j < |q| && q[j].ticket == cb.ticket;
      assert q[j] in b.queues[home] && r in b.queues[key];
    }
  }

  /**
   In every run, a callback ends the wait whose timer it was if and only if that wait is still in the
   queue the search finds, before any other of the client. For a client that waits once at a time this
   means: a callback ends another wait exactly when its own has ended already or is not queued yet.
   */
  lemma CallbackEndsOwnExactly(steps: seq<Step>, s: Sys, i: nat, key: string)
    requires IsRun(INIT, steps) && s == After(INIT, steps) && Enabled(s, Fire(i, Some(key)))
    ensures var b, cb := s.book, s.clock.posted[i];
      && (Ended(b, key, cb.client).ticket == cb.ticket <==> OwnIsFirst(b.queues[key], cb))
      && (WaitsOnce(b.queues, cb.client) ==>
            (Ended(b, key, cb.client).ticket != cb.ticket <==> cb.ticket in b.done || IsArriving(b, cb.ticket)))
  {
    RunKeepsBook(steps);
    RunKeepsClock(steps);
    var cb := s.clock.posted[i];
    assert CallbackOk(s.book.waits, cb.client, cb.ticket);
    assert QueueOk(s.book, key);
    FirstIsOwn(s.book, key, cb);
    if WaitsOnce(s.book.queues, cb.client) {
      OwnIsOver(s.book, key, cb);
    }
  }

  // ----- Which waits keep a timer -----

  predicate ArmedFor(c: Clock, client: nat, t: nat) { client in c.timers && c.timers[client] == Armed(t) }

  /** A timer or a callback that has not run is still there for the registration. */
  predicate HasTimer(s: Sys, t: nat) {
    IsPosted(s.clock, t) || (t in s.book.waits && ArmedFor(s.clock, s.book.waits[t].reg.client, t))
  }

  predicate IsRemoved(s: Sys, t: nat) { t in s.book.waits && s.book.waits[t].reg.client in s.removing }

  /** Something will end the wait if nothing interferes: its timer, its callback or a removal under way. */
  predicate IsWatched(s: Sys, t: nat) { HasTimer(s, t) || IsRemoved(s, t) }

  /** The step replaces or cancels the registration's timer or uses up its callback. */
  predicate TakesTimer(s: Sys, step: Step, t: nat)
    requires Enabled(s, step)
  {
    var qs, c := s.book.queues, s.clock;
    match step
    case Arm(_, client, _, _) => ArmedFor(c, client, t)
    case Wake(key) => QueueOf(qs, key) != [] && ArmedFor(c, qs[key][0].client, t)
    case Fire(i, _) => c.posted[i].ticket == t
    case Finish => ArmedFor(c, s.firing.value.client, t)
    case Remove(client) => ArmedFor(c, client, t)
    case Clean(key, at) => exists client :: client in Clients(Where(qs[key], ExpiredAt(at))) && ArmedFor(c, client, t)
    case _ => false
  }

  /** The step takes the last thing that watches the registration. */
  predicate Unwatches(s: Sys, step: Step, t: nat)
    requires Enabled(s, step) && t in s.book.waits
  {
    match step
    case Remove(_) => false
    case Sweep(client, _) => s.book.waits[t].reg.client == client && !HasTimer(s, t)
    case _ => TakesTimer(s, step, t) && !IsRemoved(s, t)
  }

  lemma CancelUnwatches(c: Clock, waits: map<nat, Wait>, clients: set<nat>, t: nat)
    requires ClockInv(c, waits) && t in waits
    ensures var n := Cancelled(c, clients);
      IsPosted(n, t) || ArmedFor(n, waits[t].reg.client, t) <==>
        (IsPosted(c, t) || ArmedFor(c, waits[t].reg.client, t))
        && !(exists client :: client in clients && ArmedFor(c, client, t))
  {
    forall client | ArmedFor(c, client, t) ensures client == waits[t].reg.client && !IsPosted(c, t) {
      assert CallbackOk(waits, client, t);
    }
    assert IsPosted(Cancelled(c, clients), t) == IsPosted(c, t);
  }

  lemma ArmUnwatches(s: Sys, step: Step, t: nat)
    requires BookInv(s.book) && ClockInv(s.clock, s.book.waits) && step.Arm? && Enabled(s, step)
    requires t in s.book.waits
    ensures HasTimer(Next(s, step), t) <==> HasTimer(s, t) && !TakesTimer(s, step, t)
    ensures HasTimer(Next(s, step), s.book.next) <==> step.timeout > 0.0
  {
    var c, n := s.clock, Next(s, step).clock;
    assert t < s.book.next && s.book.next !in s.book.waits;
    assert IsPosted(n, t) == IsPosted(c, t) && IsPosted(n, s.book.next) == IsPosted(c, s.book.next);
    if ArmedFor(c, step.client, t) {
      assert CallbackOk(s.book.waits, step.client, t) && !IsPosted(c, t);
    }
  }

  lemma ExpireWatches(s: Sys, step: Step, t: nat)
    requires ClockInv(s.clock, s.book.waits) && step.Expire? && Enabled(s, step) && t in s.book.waits
    ensures HasTimer(Next(s, step), t) <==> HasTimer(s, t)
  {
    var c, n := s.clock, Next(s, step).clock;
    var ticket := c.timers[step.client].ticket;
    assert CallbackOk(s.book.waits, step.client, ticket);
    assert n.posted[|c.posted|].ticket == ticket;
    if IsPosted(c, t) {
      var i :| 0 <= i < |c.posted| && c.posted[i].ticket == t;
      assert n.posted[i].ticket == t;
    }
  }

  lemma TimerStep(s: Sys, step: Step, t: nat)
    requires BookInv(s.book) && ClockInv(s.clock, s.book.waits) && Enabled(s, step) && t in s.book.waits
    ensures t in Next(s, step).book.waits && Next(s, step).book.waits[t] == s.book.waits[t]
    ensures HasTimer(Next(s, step), t) <==> HasTimer(s, t) && !TakesTimer(s, step, t)
  {
    var c, waits, qs := s.clock, s.book.waits, s.book.queues;
    match step
    case Arm(_, _, _, _) => ArmUnwatches(s, step, t);
    case Expire(_) => ExpireWatches(s, step, t);
    case Wake(key) =>
      if QueueOf(qs, key) != [] {
        CancelUnwatches(c, waits, {qs[key][0].client}, t);
      }
    case Fire(i, _) =>
      TakenKeeps(c, waits, i);
      assert IsPosted(c, c.posted[i].ticket);
    case Finish => CancelUnwatches(c, waits, {s.firing.value.client}, t);
    case Remove(client) => CancelUnwatches(c, waits, {client}, t);
    case Clean(key, at) => CancelUnwatches(c, waits, Clients(Where(qs[key], ExpiredAt(at))), t);
    case _ =>
  }

  /** A registration loses the last thing that watches it exactly in these steps. */
  lemma WatchStep(s: Sys, step: Step, t: nat)
    requires BookInv(s.book) && ClockInv(s.clock, s.book.waits) && Enabled(s, step) && t in s.book.waits
    requires IsWatched(s, t)
    ensures t in Next(s, step).book.waits && Next(s, step).book.waits[t] == s.book.waits[t]
    ensures IsWatched(Next(s, step), t) <==> !Unwatches(s, step, t)
  {
    TimerStep(s, step, t);
    if step.Remove? && TakesTimer(s, step, t) {
      assert CallbackOk(s.book.waits, step.client, t);
    }
  }

  /** An open wait with a timeout. */
  predicate Timed(b: Book, t: nat) { t in b.waits && t !in b.done && b.waits[t].reg.timeout > 0.0 }

  /** Every open wait with a timeout has a timer, a callback or a removal that will end it. */
  ghost function AllWatched(): Sys -> bool {
    (s: Sys) => forall t | t in s.book.waits :: Timed(s.book, t) ==> IsWatched(s, t)
  }

  /** The step leaves no open wait with a timeout without a timer: if it takes one, it ends the wait. */
  ghost function KeepsWatch(): (Sys, Step) -> bool {
    (s: Sys, step: Step) =>
      Enabled(s, step) ==>
        forall t | t in s.book.waits :: Timed(s.book, t) && Unwatches(s, step, t) ==> t in Ends(s, step)
  }

  lemma WatchExactly(s: Sys, step: Step)
    requires BookInv(s.book) && ClockInv(s.clock, s.book.waits) && Enabled(s, step) && AllWatched()(s)
    ensures AllWatched()(Next(s, step)) <==> KeepsWatch()(s, step)
  {
    var n := Next(s, step);
    forall t | t in s.book.waits
      ensures t in n.book.waits
      ensures (Timed(n.book, t) ==> IsWatched(n, t)) <==>
        (Timed(s.book, t) && Unwatches(s, step, t) ==> t in Ends(s, step))
    {
      TimerStep(s, step, t);
      StepEnds(s, step, t);
      if Timed(s.book, t) {
        WatchStep(s, step, t);
      }
    }
    forall t | t in n.book.waits && t !in s.book.waits ensures Timed(n.book, t) ==> IsWatched(n, t) {
      NewIsWatched(s, step, t);
    }
  }

  lemma NewIsWatched(s: Sys, step: Step, t: nat)
    requires Enabled(s, step) && t in Next(s, step).book.waits && t !in s.book.waits
    ensures Timed(Next(s, step).book, t) ==> IsWatched(Next(s, step), t)
  {
  }

  /**
   All along a run every open wait with a timeout is watched by its timer, its callback or a removal
   under way, if and only if no step took the last of these without ending the wait: by registering
   the client again, serving another of its waits, running another of its callbacks, or letting its
   own callback or removal run before the wait is queued or on another wait.
   */
  lemma {:induction false} WaitsKeepTimersExactly(steps: seq<Step>)
    requires IsRun(INIT, steps)
    ensures Throughout(INIT, steps, AllWatched()) <==> Along(INIT, steps, KeepsWatch())
  {
    if steps != [] {
      var before := steps[..|steps| - 1];
      WaitsKeepTimersExactly(before);
      RunKeepsBook(before);
      RunKeepsClock(before);
      if Throughout(INIT, before, AllWatched()) {
        WatchExactly(After(INIT, before), steps[|steps| - 1]);
      }
    }
  }

  // ----- The failing cases -----

  /** A wait of one second on `a` is served after its timer expired and before the callback ran. */
  function ServedLate(a: string, client: nat): seq<Step> {
    [Arm(a, client, 1.0, 0.0), Enqueue, Expire(client), Wake(a)]
  }

  function AfterServedLate(a: string, client: nat): Sys {
    Sys(Book(map[], None, 1, map[0 := Wait(a, Registration(0, client, 1.0, 0.0))], map[0 := Served]),
        Clock(map[], [Callback(client, 0)]), None, {}, [Answer(0, Served)])
  }

  lemma ServedLateRuns(a: string, client: nat)
    ensures IsRun(INIT, ServedLate(a, client)) && After(INIT, ServedLate(a, client)) == AfterServedLate(a, client)
  {
    var r := Registration(0, client, 1.0, 0.0);
    var steps := ServedLate(a, client);
    var s1 := Next(INIT, steps[0]);
    var s2 := Next(s1, steps[1]);
    assert QueueOf(s1.book.queues, a) + [r] == [r];
    assert s2.book.queues == map[a := [r]];
    var s3 := Next(s2, steps[2]);
    assert s3.clock == Clock(map[client := Idle], [Callback(client, 0)]);
    var s4 := Next(s3, steps[3]);
    assert s4.book.queues == map[] && s4.clock.timers == map[];
    assert s4 == AfterServedLate(a, client);
    RunOfFour(INIT, steps[0], steps[1], steps[2], steps[3]);
  }

  lemma RunOfThree(s: Sys, steps: seq<Step>, a: Step, b: Step, c: Step)
    requires IsRun(s, steps) && Enabled(After(s, steps), a) && Enabled(Next(After(s, steps), a), b)
    requires Enabled(Next(Next(After(s, steps), a), b), c)
    ensures IsRun(s, steps + [a, b, c])
    ensures After(s, steps + [a, b, c]) == Next(Next(Next(After(s, steps), a), b), c)
  {
    RunPush(s, steps, a);
    RunPush(s, steps + [a], b);
    assert steps + [a] + [b] + [c] == steps + [a, b, c];
    RunPush(s, steps + [a] + [b], c);
  }

  lemma RunOfFour(s: Sys, a: Step, b: Step, c: Step, d: Step)
    requires Enabled(s, a) && Enabled(Next(s, a), b) && Enabled(Next(Next(s, a), b), c)
    requires Enabled(Next(Next(Next(s, a), b), c), d)
    ensures IsRun(s, [a, b, c, d]) && After(s, [a, b, c, d]) == Next(Next(Next(Next(s, a), b), c), d)
  {
    assert [] + [a, b, c] == [a, b, c] && [a, b, c] + [d] == [a, b, c, d];
    RunOfThree(s, [], a, b, c);
    RunPush(s, [a, b, c], d);
  }

  /** The late callback then ends the client's next wait, here one without any timeout. */
  lemma LateCallbackEndsNextWait(a: string, b: string, client: nat)
    ensures var steps := ServedLate(a, client) + [Arm(b, client, 0.0, 2.0), Enqueue, Fire(0, Some(b))];
      && IsRun(INIT, steps)
      && var s := After(INIT, steps);
      && s.book.done == map[0 := Served, 1 := Nil]
      && 1 in s.book.waits && s.book.waits[1].reg.timeout == 0.0
  {
    ServedLateRuns(a, client);
    var s, r := AfterServedLate(a, client), Registration(1, client, 0.0, 2.0);
    var s1 := Next(s, Arm(b, client, 0.0, 2.0));
    assert QueueOf(s1.book.queues, b) + [r] == [r];
    var s2 := Next(s1, Enqueue);
    assert s2.book.queues == map[b := [r]] && s2.book.queues[b][0].client == client;
    RunOfThree(INIT, ServedLate(a, client), Arm(b, client, 0.0, 2.0), Enqueue, Fire(0, Some(b)));
  }

  /** Or, run while the next wait is being registered, it finds nobody and drops that wait's timer. */
  lemma LateCallbackDropsNextTimer(a: string, b: string, client: nat)
    ensures var steps := ServedLate(a, client) + [Arm(b, client, 5.0, 2.0), Fire(0, None), Finish];
      && IsRun(INIT, steps)
      && var s := After(INIT, steps);
      Timed(s.book, 1) && !IsWatched(s, 1) && !AllWatched()(s)
  {
    ServedLateRuns(a, client);
    var s := AfterServedLate(a, client);
    var s1 := Next(s, Arm(b, client, 5.0, 2.0));
    var s2 := Next(s1, Fire(0, None));
    assert s2.clock.posted == [];
    var s3 := Next(s2, Finish);
    assert Timed(s3.book, 1) && !IsWatched(s3, 1);
    RunOfThree(INIT, ServedLate(a, client), Arm(b, client, 5.0, 2.0), Fire(0, None), Finish);
  }

  /** One registration alone loses its own callback, if that runs before the wait is queued. */
  lemma OwnCallbackIsLost(a: string, client: nat)
    ensures var steps := [Arm(a, client, 1.0, 0.0), Expire(client), Fire(0, None), Finish];
      && IsRun(INIT, steps + [Enqueue])
      && var s := After(INIT, steps + [Enqueue]);
      Waits(QueueOf(s.book.queues, a), 0) && Timed(s.book, 0) && !IsWatched(s, 0)
  {
    var r := Registration(0, client, 1.0, 0.0);
    var s1 := Next(INIT, Arm(a, client, 1.0, 0.0));
    var s2 := Next(s1, Expire(client));
    assert s2.clock == Clock(map[client := Idle], [Callback(client, 0)]);
    var s3 := Next(s2, Fire(0, None));
    assert s3.clock.posted == [];
    var s4 := Next(s3, Finish);
    RunOfFour(INIT, Arm(a, client, 1.0, 0.0), Expire(client), Fire(0, None), Finish);
    RunPush(INIT, [Arm(a, client, 1.0, 0.0), Expire(client), Fire(0, None), Finish], Enqueue);
    var s5 := Next(s4, Enqueue);
    assert QueueOf(s5.book.queues, a) == [r] && [r][0].ticket == 0;
  }
}
