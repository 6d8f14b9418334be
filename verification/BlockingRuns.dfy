/**
 What every run of the blocking manager guarantees to those who wait. The executor thread registers
 and wakes clients; timers expire and their callbacks run on the IO thread. A registration sets its
 timer before it is queued, a timeout leaves the queue before it drops the timer, and a removal cancels
 the timer before it leaves the queue: these are steps of their own.
 */
module BlockingRuns {
  import opened Common
  import opened Blocking

  /** How a wait ended: with the data, with nil, or because the client went away. */
  datatype Outcome = Served | Nil | Gone

  datatype Wait = Wait(key: string, reg: Registration)

  /**
   The queues, and a registration that is not queued yet. `waits` records every registration by its
   ticket and `done` how the finished ones ended.
   */
  datatype Book = Book(
    queues: Queues, arriving: Option<Wait>, next: nat, waits: map<nat, Wait>, done: map<nat, Outcome>)

  /** The callback of an expired timer: the client it will look for and the registration that set the timer. */
  datatype Callback = Callback(client: nat, ticket: nat)

  /** `posted` are callbacks of expired timers that have not run; cancelling a timer no longer stops them. */
  datatype Clock = Clock(timers: Timers, posted: seq<Callback>)

  /** A callback at work: its client, and the wait it took off a queue. */
  datatype Firing = Firing(client: nat, ended: Option<nat>)

  datatype Answer = Answer(ticket: nat, how: Outcome)

  /** `removing` are the clients whose removal has cancelled the timer and not reached the queues yet. */
  datatype Sys = Sys(book: Book, clock: Clock, firing: Option<Firing>, removing: set<nat>, answers: seq<Answer>)

  datatype Step =
    | Arm(key: string, client: nat, timeout: real, now: real)
    | Enqueue
    | Expire(client: nat)
    | Wake(key: string)
    | Fire(i: nat, found: Option<string>)
    | Finish
    | Remove(client: nat)
    | Sweep(client: nat, found: Option<string>)
    | Clean(key: string, at: real)

  const INIT := Sys(Book(map[], None, 0, map[], map[]), Clock(map[], []), None, {}, [])

  /** The queue in which a search over all queues finds the client, if any does. */
  predicate Found(qs: Queues, client: nat, key: Option<string>) {
    if key.Some? then key.value in qs && Holds(qs[key.value], client) else !IsBlocked(qs, client)
  }

  predicate Enabled(s: Sys, step: Step) {
    match step
    case Arm(_, _, _, _) => s.book.arriving.None?
    case Enqueue => s.book.arriving.Some?
    case Expire(client) => client in s.clock.timers && s.clock.timers[client].Armed?
    case Wake(_) => true
    case Fire(i, key) =>
      s.firing.None? && i < |s.clock.posted| && Found(s.book.queues, s.clock.posted[i].client, key)
    case Finish => s.firing.Some?
    case Remove(_) => true
    case Sweep(client, key) => client in s.removing && Found(s.book.queues, client, key)
    case Clean(key, _) => key in s.book.queues
  }

  // ----- What the steps do to the book -----

  function Registered(b: Book, key: string, client: nat, timeout: real, now: real): Book {
    var w := Wait(key, Registration(b.next, client, timeout, now));
    b.(arriving := Some(w), next := b.next + 1, waits := b.waits[b.next := w])
  }

  function Arrived(b: Book): Book
    requires b.arriving.Some?
  {
    b.(queues := Queued(b.queues, b.arriving.value.key, b.arriving.value.reg), arriving := None)
  }

  function WokenUp(b: Book, key: string): Book
    requires QueueOf(b.queues, key) != []
  {
    b.(queues := Woken(b.queues, key), done := b.done[b.queues[key][0].ticket := Served])
  }

  /** The registration a timeout of the client ends in the queue of `key`. */
  function Ended(b: Book, key: string, client: nat): Registration
    requires key in b.queues && Holds(b.queues[key], client)
  {
    b.queues[key][FirstOf(b.queues[key], client)]
  }

  function TimedOutOf(b: Book, key: string, client: nat): Book
    requires key in b.queues && Holds(b.queues[key], client)
  {
    b.(queues := TimedOut(b.queues, key, client), done := b.done[Ended(b, key, client).ticket := Nil])
  }

  function WithdrawnFrom(b: Book, key: string, client: nat): Book
    requires key in b.queues
  {
    b.(queues := Withdrawn(b.queues, key, client), done := MarkAll(b.done, Where(b.queues[key], IsOf(client)), Gone))
  }

  function CleanedOf(b: Book, key: string, at: real): Book
    requires key in b.queues
  {
    b.(queues := Cleaned(b.queues, key, at), done := MarkAll(b.done, Where(b.queues[key], ExpiredAt(at)), Nil))
  }

  function MarkAll(done: map<nat, Outcome>, q: Queue, how: Outcome): map<nat, Outcome> {
    if q == [] then done else MarkAll(done, q[..|q| - 1], how)[q[|q| - 1].ticket := how]
  }

  function NilTo(): Registration -> Answer { (r: Registration) => Answer(r.ticket, Nil) }

  function Cancelled(c: Clock, clients: set<nat>): Clock { c.(timers := c.timers - clients) }

  function Next(s: Sys, step: Step): Sys
    requires Enabled(s, step)
  {
    var b, c := s.book, s.clock;
    match step
    case Arm(key, client, timeout, now) =>
      var timer := TimerFor(Registration(b.next, client, timeout, now));
      s.(book := Registered(b, key, client, timeout, now), clock := c.(timers := c.timers[client := timer]))
    case Enqueue => s.(book := Arrived(b))
    case Expire(client) =>
      s.(clock := Clock(c.timers[client := Idle], c.posted + [Callback(client, c.timers[client].ticket)]))
    case Wake(key) =>
      if QueueOf(b.queues, key) == [] then s
      else
        var r := b.queues[key][0];
        s.(book := WokenUp(b, key), clock := Cancelled(c, {r.client}),
           answers := s.answers + [Answer(r.ticket, Served)])
    case Fire(i, key) =>
      var client := c.posted[i].client;
      s.(book := if key.Some? then TimedOutOf(b, key.value, client) else b,
         clock := c.(posted := RemoveAt(c.posted, i)),
         firing := Some(Firing(client, if key.Some? then Some(Ended(b, key.value, client).ticket) else None)))
    case Finish =>
      var f := s.firing.value;
      s.(clock := Cancelled(c, {f.client}), firing := None,
         answers := s.answers + if f.ended.Some? then [Answer(f.ended.value, Nil)] else [])
    case Remove(client) => s.(clock := Cancelled(c, {client}), removing := s.removing + {client})
    case Sweep(client, key) =>
      s.(book := if key.Some? then WithdrawnFrom(b, key.value, client) else b, removing := s.removing - {client})
    case Clean(key, at) =>
      var expired := Where(b.queues[key], ExpiredAt(at));
      s.(book := CleanedOf(b, key, at), clock := Cancelled(c, Clients(expired)),
         answers := s.answers + Map(expired, NilTo()))
  }

  predicate IsRun(s: Sys, steps: seq<Step>)
    decreases |steps|, 0
  {
    steps == []
    || (IsRun(s, steps[..|steps| - 1]) && Enabled(After(s, steps[..|steps| - 1]), steps[|steps| - 1]))
  }

  function After(s: Sys, steps: seq<Step>): Sys
    requires IsRun(s, steps)
    decreases |steps|, 1
  {
    if steps == [] then s else Next(After(s, steps[..|steps| - 1]), steps[|steps| - 1])
  }

  lemma RunPush(s: Sys, steps: seq<Step>, step: Step)
    requires IsRun(s, steps) && Enabled(After(s, steps), step)
    ensures IsRun(s, steps + [step]) && After(s, steps + [step]) == Next(After(s, steps), step)
  {
    assert (steps + [step])[..|steps|] == steps;
  }

  /** `p` holds after every prefix of the run. */
  ghost predicate Throughout(s: Sys, steps: seq<Step>, p: Sys -> bool)
    requires IsRun(s, steps)
  {
    p(After(s, steps)) && (steps == [] || Throughout(s, steps[..|steps| - 1], p))
  }

  /** `p` holds of every step of the run in the state it is taken in. */
  ghost predicate Along(s: Sys, steps: seq<Step>, p: (Sys, Step) -> bool)
    requires IsRun(s, steps)
  {
    steps == []
    || (Along(s, steps[..|steps| - 1], p) && p(After(s, steps[..|steps| - 1]), steps[|steps| - 1]))
  }

  // ----- Every wait is open or has ended -----

  predicate Increasing(q: Queue) { forall i, j | 0 <= i < j < |q| :: q[i].ticket < q[j].ticket }

  predicate Waits(q: Queue, ticket: nat) { exists i :: 0 <= i < |q| && q[i].ticket == ticket }

  predicate IsArriving(b: Book, ticket: nat) { b.arriving.Some? && b.arriving.value.reg.ticket == ticket }

  /** A queue is in order of registration and holds only open waits on its key. */
  predicate QueueOk(b: Book, key: string) {
    var q := QueueOf(b.queues, key);
    && Increasing(q)
    && forall i | 0 <= i < |q| ::
      && q[i].ticket in b.waits && b.waits[q[i].ticket] == Wait(key, q[i])
      && q[i].ticket !in b.done && q[i].ticket < Limit(b)
  }

  /** Tickets of queued registrations are below this. */
  function Limit(b: Book): nat { if b.arriving.Some? then b.arriving.value.reg.ticket else b.next }

  /** A wait is about to be queued, open on its key, or has ended. */
  predicate TicketOk(b: Book, t: nat) {
    && t in b.waits && b.waits[t].reg.ticket == t
    && (t in b.done || IsArriving(b, t) || Waits(QueueOf(b.queues, b.waits[t].key), t))
  }

  predicate ArrivingOk(b: Book) {
    b.arriving.Some? ==>
      var t := b.arriving.value.reg.ticket;
      t < b.next && t in b.waits && b.waits[t] == b.arriving.value && t !in b.done
  }

  ghost predicate BookInv(b: Book) {
    && (forall key :: QueueOk(b, key))
    && (forall t | 0 <= t < b.next :: TicketOk(b, t))
    && (forall t | t in b.done || t in b.waits :: t < b.next)
    && ArrivingOk(b)
  }

  lemma {:induction false} SplitIs(q: Queue, p: Test)
    ensures Increasing(q) ==> Increasing(Unless(q, p)) && Increasing(Where(q, p))
    ensures forall r :: r in Unless(q, p) <==> r in q && !p(r)
    ensures forall r :: r in Where(q, p) <==> r in q && p(r)
  {
    if q != [] {
      var init := q[..|q| - 1];
      SplitIs(init, p);
      assert q == init + [q[|q| - 1]];
      if Increasing(q) {
        forall i | 0 <= i < |Unless(init, p)| ensures Unless(init, p)[i].ticket < q[|q| - 1].ticket {
          assert Unless(init, p)[i] in init;
        }
        forall i | 0 <= i < |Where(init, p)| ensures Where(init, p)[i].ticket < q[|q| - 1].ticket {
          assert Where(init, p)[i] in init;
        }
      }
    }
  }

  lemma {:induction false} MarkAllIs(done: map<nat, Outcome>, q: Queue, how: Outcome)
    ensures var m := MarkAll(done, q, how);
      && (forall t :: t in m <==> t in done || Waits(q, t))
      && (forall t | t in done && !Waits(q, t) :: m[t] == done[t])
      && (forall t | Waits(q, t) :: m[t] == how)
  {
    if q != [] {
      var init := q[..|q| - 1];
      MarkAllIs(done, init, how);
      assert forall t :: Waits(q, t) <==> Waits(init, t) || t == q[|q| - 1].ticket by {
        forall t | Waits(init, t) ensures Waits(q, t) {
          var i :| 0 <= i < |init| && init[i].ticket == t;
          assert q[i].ticket == t;
        }
        assert q[|q| - 1].ticket == q[|q| - 1].ticket;
      }
    }
  }

  /** Waits leave one queue and end; everything else stays. */
  ghost predicate Leaves(b: Book, t: Book, key: string) {
    var q, rest := QueueOf(b.queues, key), QueueOf(t.queues, key);
    && t.next == b.next && t.waits == b.waits && t.arriving == b.arriving && b.done.Keys <= t.done.Keys
    && Increasing(rest)
    && (forall r | r in rest :: r in q && r.ticket !in t.done)
    && (forall r | r in q :: r in rest || r.ticket in t.done)
    && (forall x | x in t.done :: x in b.done || Waits(q, x))
    && (forall k | k != key :: QueueOf(t.queues, k) == QueueOf(b.queues, k))
  }

  lemma LeavesKeeps(b: Book, t: Book, key: string)
    requires BookInv(b) && Leaves(b, t, key)
    ensures BookInv(t)
  {
    var q := QueueOf(b.queues, key);
    assert QueueOk(b, key);
    forall x: nat | Waits(q, x) ensures x < b.next && !IsArriving(b, x) {
      var i :| 0 <= i < |q| && q[i].ticket == x;
    }
    forall k ensures QueueOk(t, k) {
      assert QueueOk(b, k);
      if k == key {
        SameQueue(b, t, key);
      } else {
        OtherQueue(b, t, key, k);
      }
    }
    forall x | 0 <= x < t.next ensures TicketOk(t, x) {
      StillTicketOk(b, t, key, x);
    }
  }

  lemma SameQueue(b: Book, t: Book, key: string)
    requires QueueOk(b, key) && Leaves(b, t, key)
    ensures QueueOk(t, key)
  {
    var q, rest := QueueOf(b.queues, key), QueueOf(t.queues, key);
    forall i | 0 <= i < |rest|
      ensures rest[i].ticket in t.waits && t.waits[rest[i].ticket] == Wait(key, rest[i])
      ensures rest[i].ticket !in t.done && rest[i].ticket < Limit(t)
    {
      assert rest[i] in rest && rest[i] in q;
    }
  }

  lemma OtherQueue(b: Book, t: Book, key: string, k: string)
    requires QueueOk(b, k) && QueueOk(b, key) && k != key && Leaves(b, t, key)
    ensures QueueOk(t, k)
  {
    var q, mine := QueueOf(b.queues, key), QueueOf(b.queues, k);
    forall i | 0 <= i < |mine| ensures mine[i].ticket !in t.done {
      assert forall j | 0 <= j < |q| :: q[j].ticket != mine[i].ticket;
    }
  }

  lemma StillTicketOk(b: Book, t: Book, key: string, x: nat)
    requires TicketOk(b, x) && Leaves(b, t, key)
    ensures TicketOk(t, x)
  {
    var q, rest := QueueOf(b.queues, key), QueueOf(t.queues, key);
    if x !in t.done && !IsArriving(b, x) && b.waits[x].key == key {
      var i :| 0 <= i < |q| && q[i].ticket == x;
      assert q[i] in rest;
      var j :| 0 <= j < |rest| && rest[j] == q[i];
    }
  }

  lemma TakeOneTickets(q: Queue, i: nat)
    requires i < |q| && Increasing(q)
    ensures var rest := RemoveAt(q, i);
      && Increasing(rest)
      && (forall r | r in rest :: r in q && r.ticket != q[i].ticket)
      && (forall r | r in q :: r in rest || r.ticket == q[i].ticket)
  {
    var rest := RemoveAt(q, i);
    assert q == q[..i] + [q[i]] + q[i + 1..];
    forall r | r in rest ensures r in q && r.ticket != q[i].ticket {
      var j :| 0 <= j < |rest| && rest[j] == r;
      assert r == q[if j < i then j else j + 1];
    }
  }

  lemma TakeOneLeaves(b: Book, t: Book, key: string, i: nat, how: Outcome)
    requires QueueOk(b, key) && key in b.queues && i < |b.queues[key]|
    requires t == b.(queues := PutBack(b.queues, key, RemoveAt(b.queues[key], i)),
                     done := b.done[b.queues[key][i].ticket := how])
    ensures Leaves(b, t, key)
  {
    var q := b.queues[key];
    TakeOneTickets(q, i);
    assert QueueOf(t.queues, key) == RemoveAt(q, i);
    forall r | r in q ensures r.ticket !in b.done {
      var j :| 0 <= j < |q| && q[j] == r;
    }
    assert Waits(q, q[i].ticket);
  }

  /** Taking out the registrations that pass a test separates the tickets. */
  lemma SplitTickets(q: Queue, p: Test)
    requires Increasing(q)
    ensures Increasing(Unless(q, p)) && Increasing(Where(q, p))
    ensures forall r | r in Unless(q, p) :: r in q && !Waits(Where(q, p), r.ticket)
    ensures forall r | r in q :: r in Unless(q, p) || Waits(Where(q, p), r.ticket)
    ensures forall x | Waits(Where(q, p), x) :: Waits(q, x)
  {
    var out := Where(q, p);
    SplitIs(q, p);
    forall j | 0 <= j < |out| ensures out[j] in q && p(out[j]) {
      assert out[j] in out;
    }
    forall r | r in Unless(q, p) ensures !Waits(out, r.ticket) {
      forall j | 0 <= j < |out| ensures out[j].ticket != r.ticket {
        SameTicket(q, r, out[j]);
      }
    }
    forall r | r in out ensures Waits(out, r.ticket) {
      var j :| 0 <= j < |out| && out[j] == r;
    }
    forall x | Waits(out, x) ensures Waits(q, x) {
      var j :| 0 <= j < |out| && out[j].ticket == x;
      var i :| 0 <= i < |q| && q[i] == out[j];
    }
  }

  lemma SameTicket(q: Queue, a: Registration, b: Registration)
    requires Increasing(q) && a in q && b in q
    ensures a.ticket == b.ticket ==> a == b
  {
    var i :| 0 <= i < |q| && q[i] == a;
    var j :| 0 <= j < |q| && q[j] == b;
  }

  lemma OutLeaves(b: Book, t: Book, key: string, rest: Queue, out: Queue)
    requires QueueOk(b, key) && key in b.queues && Increasing(rest)
    requires t.next == b.next && t.waits == b.waits && t.arriving == b.arriving && t.queues == b.queues[key := rest]
    requires forall x: nat :: x in t.done <==> x in b.done || Waits(out, x)
    requires forall r | r in rest :: r in b.queues[key] && !Waits(out, r.ticket)
    requires forall r | r in b.queues[key] :: r in rest || Waits(out, r.ticket)
    requires forall x: nat | Waits(out, x) :: Waits(b.queues[key], x)
    ensures Leaves(b, t, key)
  {
    var q := b.queues[key];
    forall r | r in rest ensures r.ticket !in b.done {
      var i :| 0 <= i < |q| && q[i] == r;
    }
  }

  lemma TakeAllLeaves(b: Book, t: Book, key: string, p: Test, how: Outcome)
    requires QueueOk(b, key) && key in b.queues
    requires t == b.(queues := b.queues[key := Unless(b.queues[key], p)],
                     done := MarkAll(b.done, Where(b.queues[key], p), how))
    ensures Leaves(b, t, key)
  {
    var q := b.queues[key];
    SplitTickets(q, p);
    MarkAllIs(b.done, Where(q, p), how);
    OutLeaves(b, t, key, Unless(q, p), Where(q, p));
  }

  lemma RegisterKeeps(b: Book, key: string, client: nat, timeout: real, now: real)
    requires BookInv(b) && b.arriving.None?
    ensures BookInv(Registered(b, key, client, timeout, now))
  {
    var t := Registered(b, key, client, timeout, now);
    forall k ensures QueueOk(t, k) {
      assert QueueOk(b, k);
    }
    forall x | 0 <= x < t.next ensures TicketOk(t, x) {
      assert x < b.next ==> TicketOk(b, x);
    }
  }

  lemma ArriveKeeps(b: Book)
    requires BookInv(b) && b.arriving.Some?
    ensures BookInv(Arrived(b))
  {
    var t, w := Arrived(b), b.arriving.value;
    var q := QueueOf(b.queues, w.key);
    var grown := q + [w.reg];
    assert QueueOf(t.queues, w.key) == grown && grown[|q|] == w.reg;
    forall k ensures QueueOk(t, k) {
      assert QueueOk(b, k) && QueueOk(b, w.key);
    }
    forall x | 0 <= x < t.next ensures TicketOk(t, x) {
      assert TicketOk(b, x);
      if x !in b.done && !IsArriving(b, x) && b.waits[x].key == w.key {
        var i :| 0 <= i < |q| && q[i].ticket == x;
        assert grown[i].ticket == x;
      }
    }
  }

  lemma WakeLeaves(b: Book, key: string)
    requires QueueOk(b, key) && QueueOf(b.queues, key) != []
    ensures Leaves(b, WokenUp(b, key), key)
  {
    assert RemoveAt(b.queues[key], 0) == b.queues[key][1..];
    TakeOneLeaves(b, WokenUp(b, key), key, 0, Served);
  }

  lemma StepKeepsBook(s: Sys, step: Step)
    requires BookInv(s.book) && Enabled(s, step)
    ensures BookInv(Next(s, step).book)
  {
    var b, t := s.book, Next(s, step).book;
    match step
    case Arm(key, client, timeout, now) => RegisterKeeps(b, key, client, timeout, now);
    case Enqueue => ArriveKeeps(b);
    case Wake(key) =>
      if QueueOf(b.queues, key) != [] {
        assert QueueOk(b, key);
        WakeLeaves(b, key);
        LeavesKeeps(b, t, key);
      }
    case Fire(i, key) =>
      if key.Some? {
        var client := s.clock.posted[i].client;
        assert QueueOk(b, key.value);
        TakeOneLeaves(b, t, key.value, FirstOf(b.queues[key.value], client), Nil);
        LeavesKeeps(b, t, key.value);
      }
    case Sweep(client, key) =>
      if key.Some? {
        assert QueueOk(b, key.value);
        TakeAllLeaves(b, t, key.value, IsOf(client), Gone);
        LeavesKeeps(b, t, key.value);
      }
    case Clean(key, at) =>
      assert QueueOk(b, key);
      TakeAllLeaves(b, t, key, ExpiredAt(at), Nil);
      LeavesKeeps(b, t, key);
    case _ =>
  }

  lemma {:induction false} RunKeepsBook(steps: seq<Step>)
    requires IsRun(INIT, steps)
    ensures BookInv(After(INIT, steps).book)
  {
    if steps != [] {
      RunKeepsBook(steps[..|steps| - 1]);
      StepKeepsBook(After(INIT, steps[..|steps| - 1]), steps[|steps| - 1]);
    }
  }

  /** The registration is queued on the key it was made for, or about to be. */
  predicate IsOpen(b: Book, t: nat) {
    t in b.waits && (IsArriving(b, t) || Waits(QueueOf(b.queues, b.waits[t].key), t))
  }

  /**
   In every run, with any timers firing at any time, each registration is waiting on its own key or
   has ended, and never both.
   */
  lemma EveryWaitIsOpenOrEnded(steps: seq<Step>, ticket: nat)
    requires IsRun(INIT, steps) && ticket < After(INIT, steps).book.next
    ensures var b := After(INIT, steps).book;
      && ticket in b.waits
      && (ticket in b.done <==> !IsOpen(b, ticket))
      && forall key | Waits(QueueOf(b.queues, key), ticket) :: key == b.waits[ticket].key && !IsArriving(b, ticket)
  {
    RunKeepsBook(steps);
    var b := After(INIT, steps).book;
    assert TicketOk(b, ticket);
    forall key | Waits(QueueOf(b.queues, key), ticket)
      ensures key == b.waits[ticket].key && ticket !in b.done && !IsArriving(b, ticket)
    {
      assert QueueOk(b, key);
    }
  }

  /** Waking a key serves the registration that has waited on it longest. */
  lemma WakeIsFifo(steps: seq<Step>, key: string)
    requires IsRun(INIT, steps) && QueueOf(After(INIT, steps).book.queues, key) != []
    ensures var s := After(INIT, steps);
      var q, b := QueueOf(s.book.queues, key), s.book;
      && Next(s, Wake(key)).book.done == b.done[q[0].ticket := Served]
      && forall t | t in b.waits && b.waits[t].key == key && t !in b.done :: q[0].ticket <= t
  {
    RunKeepsBook(steps);
    var b := After(INIT, steps).book;
    var q := QueueOf(b.queues, key);
    assert QueueOk(b, key);
    forall t | t in b.waits && b.waits[t].key == key && t !in b.done ensures q[0].ticket <= t {
      assert TicketOk(b, t);
      if !IsArriving(b, t) {
        var i :| 0 <= i < |q| && q[i].ticket == t;
      }
    }
  }
}
