/**
 The wait queues and timeout timers of blocking commands: BlockingManager (src/astra/commands/blocking_manager.cpp).
 A registration carries a ticket, its number in the order of registration, which the program does not
 store; hash-map iteration visits the queues in an arbitrary order.
 */
module Blocking {
  import opened Common

  datatype Registration = Registration(ticket: nat, client: nat, timeout: real, started: real)

  type Queue = seq<Registration>
  type Queues = map<string, Queue>

  // ----- One queue -----

  predicate Holds(q: Queue, client: nat) { exists i :: 0 <= i < |q| && q[i].client == client }

  /** Position of the first registration of a client. */
  function FirstOf(q: Queue, client: nat): (i: nat)
    requires Holds(q, client)
    ensures i < |q| && q[i].client == client && forall j | 0 <= j < i :: q[j].client != client
  {
    if q[0].client == client then 0
    else
      assert Holds(q[1..], client) by {
        var j :| 0 <= j < |q| && q[j].client == client;
        assert q[1..][j - 1].client == client;
      }
      1 + FirstOf(q[1..], client)
  }

  predicate Expired(r: Registration, now: real) { now - r.started > r.timeout && r.timeout > 0.0 }

  type Test = Registration -> bool

  function IsOf(client: nat): Test { (r: Registration) => r.client == client }

  function ExpiredAt(now: real): Test { (r: Registration) => Expired(r, now) }

  /** The registrations that pass a test, in order. */
  function Where(q: Queue, p: Test): Queue {
    if q == [] then []
    else Where(q[..|q| - 1], p) + (if p(q[|q| - 1]) then [q[|q| - 1]] else [])
  }

  /** Those that do not. */
  function Unless(q: Queue, p: Test): Queue {
    if q == [] then []
    else Unless(q[..|q| - 1], p) + (if p(q[|q| - 1]) then [] else [q[|q| - 1]])
  }

  method RemoveIf(q: Queue, p: Test) returns (kept: Queue, removed: Queue)
    ensures kept == Unless(q, p) && removed == Where(q, p)
  {
    kept, removed := [], [];
    for i := 0 to |q|
      invariant kept == Unless(q[..i], p) && removed == Where(q[..i], p)
    {
      assert q[..i + 1][..i] == q[..i];
      if p(q[i]) {
        removed := removed + [q[i]];
      } else {
        kept := kept + [q[i]];
      }
    }
    assert q[..|q|] == q;
  }

  // ----- All queues -----

  function QueueOf(qs: Queues, key: string): Queue { if key in qs then qs[key] else [] }

  /** Put back a queue; an empty one is dropped. */
  function PutBack(qs: Queues, key: string, q: Queue): Queues {
    if q == [] then qs - {key} else qs[key := q]
  }

  function Queued(qs: Queues, key: string, r: Registration): Queues {
    qs[key := QueueOf(qs, key) + [r]]
  }

  function Woken(qs: Queues, key: string): Queues {
    if QueueOf(qs, key) == [] then qs else PutBack(qs, key, qs[key][1..])
  }

  /** A timeout of `client` that finds it first in the queue of `key`. */
  function TimedOut(qs: Queues, key: string, client: nat): Queues
    requires key in qs && Holds(qs[key], client)
  {
    PutBack(qs, key, RemoveAt(qs[key], FirstOf(qs[key], client)))
  }

  /** A removal of `client` that finds it in the queue of `key`: all its entries there, none elsewhere. */
  function Withdrawn(qs: Queues, key: string, client: nat): Queues
    requires key in qs
  {
    qs[key := Unless(qs[key], IsOf(client))]
  }

  function Cleaned(qs: Queues, key: string, now: real): Queues
    requires key in qs
  {
    qs[key := Unless(qs[key], ExpiredAt(now))]
  }

  // ----- Timers -----

  /** The timer object kept for a client: waiting for the timeout of a registration, or for nothing. */
  datatype Timer = Idle | Armed(ticket: nat)

  type Timers = map<nat, Timer>

  function TimerFor(r: Registration): Timer { if r.timeout > 0.0 then Armed(r.ticket) else Idle }

  function Clients(q: Queue): set<nat> { set r | r in q :: r.client }

  predicate IsBlocked(qs: Queues, client: nat) { exists key :: key in qs && Holds(qs[key], client) }

  class BlockingManager {
    var queues: Queues
    var timers: Timers

    constructor ()
      ensures queues == map[] && timers == map[]
    {
      queues, timers := map[], map[];
    }

    /** The client's new timer takes the place of its old one, which is cancelled with it. */
    method AddBlockedClient(key: string, r: Registration)
      modifies this
      ensures queues == Queued(old(queues), key, r)
      ensures timers == old(timers)[r.client := TimerFor(r)]
    {
      var timer := Idle;
      if r.timeout > 0.0 {
        timer := Armed(r.ticket);
      }
      timers := timers[r.client := timer];
      queues := queues[key := (if key in queues then queues[key] else []) + [r]];
    }

    /** Serve the client that has waited longest on the key, if any, and cancel the client's timer. */
    method WakeUpBlockedClients(key: string) returns (served: Option<Registration>)
      modifies this
      ensures queues == Woken(old(queues), key)
      ensures served == if QueueOf(old(queues), key) == [] then None else Some(old(queues)[key][0])
      ensures timers == if served.Some? then old(timers) - {served.value.client} else old(timers)
    {
      if key !in queues || queues[key] == [] {
        return None;
      }
      served := Some(queues[key][0]);
      var rest := queues[key][1..];
      queues := queues[key := rest];
      if rest == [] {
        queues := queues - {key};
      }
      timers := timers - {served.value.client};
    }

    /** Some queue that holds the client, in the order the hash map happens to have. */
    method FindQueue(client: nat) returns (found: Option<string>)
      ensures found.Some? ==> found.value in queues && Holds(queues[found.value], client)
      ensures found.None? <==> !IsBlocked(queues, client)
    {
      var keys := queues.Keys;
      while keys != {}
        invariant keys <= queues.Keys && forall k | k in queues && k !in keys :: !Holds(queues[k], client)
        decreases keys
      {
        var key :| key in keys;
        var q := queues[key];
        for i := 0 to |q|
          invariant forall j | 0 <= j < i :: q[j].client != client
        {
          if q[i].client == client {
            return Some(key);
          }
        }
        keys := keys - {key};
      }
      found := None;
    }

    method IsClientBlocked(client: nat) returns (blocked: bool)
      ensures blocked == IsBlocked(queues, client)
    {
      var key := FindQueue(client);
      blocked := key.Some?;
    }

    method RemoveBlockedClient(client: nat) returns (from: Option<string>)
      modifies this
      ensures timers == old(timers) - {client}
      ensures from.None? ==> queues == old(queues) && !IsBlocked(queues, client)
      ensures from.Some? ==> from.value in old(queues) && Holds(old(queues)[from.value], client)
      ensures from.Some? ==> queues == Withdrawn(old(queues), from.value, client)
    {
      timers := timers - {client};
      from := FindQueue(client);
      if from.Some? {
        var kept, _ := RemoveIf(queues[from.value], IsOf(client));
        queues := queues[from.value := kept];
      }
    }

    /**
     A timer fired for a client: its first registration in some queue is answered with nil, and
     whatever timer the client has by now is dropped.
     */
    method HandleTimeout(client: nat) returns (from: Option<string>)
      modifies this
      ensures timers == old(timers) - {client}
      ensures from.None? ==> queues == old(queues) && !IsBlocked(queues, client)
      ensures from.Some? ==> from.value in old(queues) && Holds(old(queues)[from.value], client)
      ensures from.Some? ==> queues == TimedOut(old(queues), from.value, client)
    {
      from := FindQueue(client);
      if from.Some? {
        var key := from.value;
        var rest := RemoveAt(queues[key], FirstOf(queues[key], client));
        queues := queues[key := rest];
        if rest == [] {
          queues := queues - {key};
        }
      }
      timers := timers - {client};
    }

    /** The part of CleanExpiredRequests that visits one queue. */
    method CleanQueue(key: string, now: real) returns (expired: Queue)
      requires key in queues
      modifies this
      ensures queues == Cleaned(old(queues), key, now)
      ensures expired == Where(old(queues)[key], ExpiredAt(now))
      ensures timers == old(timers) - Clients(expired)
    {
      var kept;
      kept, expired := RemoveIf(queues[key], ExpiredAt(now));
      queues := queues[key := kept];
      timers := timers - Clients(expired);
    }
  }

  /**
   After a removal the client is blocked nowhere exactly when it was waiting on one key only: the
   loop stops at the first queue that held it.
   */
  lemma RemovalExact(qs: Queues, key: string, client: nat)
    requires key in qs
    ensures !IsBlocked(Withdrawn(qs, key, client), client) <==>
      forall k | k in qs && k != key :: !Holds(qs[k], client)
  {
    var t := Withdrawn(qs, key, client);
    UnlessHolds(qs[key], client);
    forall k | k in qs && k != key ensures t[k] == qs[k] {}
    if k :| k in qs && k != key && Holds(qs[k], client) {
      assert k in t && Holds(t[k], client);
    }
  }

  lemma {:induction false} UnlessHolds(q: Queue, client: nat)
    ensures !Holds(Unless(q, IsOf(client)), client)
  {
    if q != [] {
      UnlessHolds(q[..|q| - 1], client);
    }
  }
}
