/**
 Multi-shard SINTER: Worker::SendBatchRequest, ProcessBatchRequest and ProcessBatchResponses
 (src/astra/server/worker.hpp), as a state machine over any number of workers.

 A worker whose executor is inside SendBatchRequest only drains its response queue: it neither runs
 commands nor serves other workers' batch requests until it has every answer or gives up.
 */
module ScatterGather {
  import opened Common
  import opened SetIntersection

  /** A request as its sender remembers it; `view` is the server's data at the moment it was served. */
  datatype Ask = Ask(worker: nat, keys: seq<string>, view: Option<Sets>)

  datatype Request = Request(source: nat, id: nat, keys: seq<string>)

  datatype Response = Response(id: nat, result: seq<string>)

  /** One entry of all_results, with the keys and the data it was computed from. */
  datatype Part = Part(worker: nat, keys: seq<string>, view: Sets, result: seq<string>, late: bool)

  datatype Batch = Batch(keys: seq<string>, todo: set<nat>, futures: seq<nat>, parts: seq<Part>)

  datatype Worker = Worker(
    sets: Sets,
    requests: seq<Request>,
    responses: seq<Response>,
    asked: map<nat, Ask>,
    pending: set<nat>,
    promises: map<nat, seq<string>>,
    nextId: nat,
    batch: Option<Batch>)

  type Sys = seq<Worker>

  /** How each worker routes keys; workers need not agree, and on the empty key they do not. */
  type Router = nat -> (string -> nat)

  datatype Step =
    | Write(w: nat, sets: Sets)
    | Start(w: nat, keys: seq<string>)
    | SendLocal(w: nat, result: seq<string>)
    | SendRemote(w: nat, target: nat)
    | Serve(w: nat, i: nat, result: seq<string>)
    | Receive(w: nat, i: nat)
    | Collect(w: nat, i: nat)
    | Timeout(w: nat)
    | Finish(w: nat, result: seq<string>)

  /** What SInterLocal promises. */
  predicate IsLocalResult(sets: Sets, keys: seq<string>, result: seq<string>) {
    keys != [] && NoDuplicates(result) && Elems(result) == Intersection(sets, keys)
  }

  /** What the aggregation loop promises. */
  predicate IsAggregate(parts: seq<Part>, result: seq<string>) {
    NoDuplicates(result)
    && Elems(result) == if parts == [] then {} else InAll(Results(parts))
  }

  function Results(parts: seq<Part>): seq<seq<string>> {
    seq(|parts|, i requires 0 <= i < |parts| => parts[i].result)
  }

  predicate Ready(b: Batch) { b.todo == {} && b.futures == [] }

  predicate Enabled(route: Router, s: Sys, step: Step) {
    && step.w < |s|
    && var w := s[step.w];
    match step
    case Write(_, _) => w.batch.None?
    case Start(self, keys) => w.batch.None? && forall k | k in keys :: route(self)(k) < |s|
    case SendLocal(self, result) =>
      && w.batch.Some? && self in w.batch.value.todo
      && IsLocalResult(w.sets, KeysOf(route(self), w.batch.value.keys, self), result)
    case SendRemote(self, target) =>
      w.batch.Some? && target in w.batch.value.todo && target < |s| && target != self
    case Serve(_, i, result) =>
      && w.batch.None? && i < |w.requests|
      && w.requests[i].source < |s| && w.requests[i].id in s[w.requests[i].source].asked
      && IsLocalResult(w.sets, w.requests[i].keys, result)
    case Receive(_, i) => i < |w.responses|
    case Collect(_, i) =>
      && w.batch.Some? && w.batch.value.todo == {} && i < |w.batch.value.futures|
      && var id := w.batch.value.futures[i];
      id in w.promises && id in w.asked && w.asked[id].view.Some?
    case Timeout(_) =>
      && w.batch.Some? && w.batch.value.todo == {} && w.batch.value.futures != []
      && forall id | id in w.batch.value.futures :: id in w.asked
    case Finish(_, result) =>
      w.batch.Some? && Ready(w.batch.value) && IsAggregate(w.batch.value.parts, result)
  }

  function Sent(route: string -> nat, w: Worker, target: nat): Worker
    requires w.batch.Some?
  {
    var b := w.batch.value;
    w.(asked := w.asked[w.nextId := Ask(target, KeysOf(route, b.keys, target), None)],
       pending := w.pending + {w.nextId},
       nextId := w.nextId + 1,
       batch := Some(b.(todo := b.todo - {target}, futures := b.futures + [w.nextId])))
  }

  function Answered(source: Worker, id: nat, view: Sets, result: seq<string>): Worker
    requires id in source.asked
  {
    source.(asked := source.asked[id := source.asked[id].(view := Some(view))],
            responses := source.responses + [Response(id, result)])
  }

  /** ProcessBatchResponses on one response; one that matches no pending request is dropped. */
  function Received(w: Worker, i: nat): Worker
    requires i < |w.responses|
  {
    var resp := w.responses[i];
    var rest := w.(responses := RemoveAt(w.responses, i));
    if resp.id in w.pending then
      rest.(pending := w.pending - {resp.id}, promises := w.promises[resp.id := resp.result])
    else rest
  }

  function Collected(w: Worker, i: nat): Worker
    requires w.batch.Some? && i < |w.batch.value.futures|
    requires w.batch.value.futures[i] in w.promises && w.batch.value.futures[i] in w.asked
    requires w.asked[w.batch.value.futures[i]].view.Some?
  {
    var b := w.batch.value;
    var id := b.futures[i];
    var part := Part(w.asked[id].worker, w.asked[id].keys, w.asked[id].view.value, w.promises[id], false);
    w.(batch := Some(b.(futures := RemoveAt(b.futures, i), parts := b.parts + [part])))
  }

  /** The empty results added for the futures that are still open after five seconds. */
  function LateParts(w: Worker, futures: seq<nat>): (r: seq<Part>)
    requires forall id | id in futures :: id in w.asked
    ensures |r| == |futures|
    ensures forall i | 0 <= i < |r| :: r[i].late && r[i].result == []
    ensures forall i | 0 <= i < |r| ::
      r[i].worker == w.asked[futures[i]].worker && r[i].keys == w.asked[futures[i]].keys
  {
    seq(|futures|, i requires 0 <= i < |futures| =>
      Part(w.asked[futures[i]].worker, w.asked[futures[i]].keys, map[], [], true))
  }

  function Next(route: Router, s: Sys, step: Step): Sys
    requires Enabled(route, s, step)
  {
    var w := s[step.w];
    match step
    case Write(self, sets) => s[self := w.(sets := sets)]
    case Start(self, keys) =>
      s[self := w.(batch := Some(Batch(keys, set k | k in keys :: route(self)(k), [], [])))]
    case SendLocal(self, result) =>
      var b := w.batch.value;
      var part := Part(self, KeysOf(route(self), b.keys, self), w.sets, result, false);
      s[self := w.(batch := Some(b.(todo := b.todo - {self}, parts := b.parts + [part])))]
    case SendRemote(self, target) =>
      var req := Request(self, w.nextId, KeysOf(route(self), w.batch.value.keys, target));
      s[self := Sent(route(self), w, target)][target := s[target].(requests := s[target].requests + [req])]
    case Serve(self, i, result) =>
      var req := w.requests[i];
      var popped := s[self := w.(requests := RemoveAt(w.requests, i))];
      popped[req.source := Answered(popped[req.source], req.id, w.sets, result)]
    case Receive(self, i) => s[self := Received(w, i)]
    case Collect(self, i) => s[self := Collected(w, i)]
    case Timeout(self) =>
      var b := w.batch.value;
      s[self := w.(batch := Some(b.(futures := [], parts := b.parts + LateParts(w, b.futures))))]
    case Finish(self, _) => s[self := w.(batch := None)]
  }

  predicate IsRun(route: Router, s: Sys, steps: seq<Step>)
    decreases |steps|, 0
  {
    steps == []
    || (IsRun(route, s, steps[..|steps| - 1])
        && Enabled(route, After(route, s, steps[..|steps| - 1]), steps[|steps| - 1]))
  }

  function After(route: Router, s: Sys, steps: seq<Step>): Sys
    requires IsRun(route, s, steps)
    decreases |steps|, 1
  {
    if steps == [] then s
    else Next(route, After(route, s, steps[..|steps| - 1]), steps[|steps| - 1])
  }

  // ----- Every request is in exactly one place -----

  predicate RequestOk(s: Sys, w: nat, req: Request) {
    req.source < |s| && req.id in s[req.source].asked && s[req.source].asked[req.id] == Ask(w, req.keys, None)
  }

  predicate SameTicket(a: Request, b: Request) { a.source == b.source && a.id == b.id }

  /** Requests waiting at a worker are unserved requests to it, each at most once. */
  predicate QueueOk(s: Sys, w: nat)
    requires w < |s|
  {
    && (forall i | 0 <= i < |s[w].requests| :: RequestOk(s, w, s[w].requests[i]))
    && (forall i, j | 0 <= i < j < |s[w].requests| :: !SameTicket(s[w].requests[i], s[w].requests[j]))
  }

  predicate Answers(ask: Ask, result: seq<string>) {
    ask.view.Some? && IsLocalResult(ask.view.value, ask.keys, result)
  }

  /** Answers on their way to a worker: each correct, each to an unfulfilled request, each at most once. */
  predicate InboxOk(w: Worker) {
    && (forall i | 0 <= i < |w.responses| ::
          w.responses[i].id in w.pending && w.responses[i].id in w.asked
          && Answers(w.asked[w.responses[i].id], w.responses[i].result))
    && (forall i, j | 0 <= i < j < |w.responses| :: w.responses[i].id != w.responses[j].id)
  }

  predicate TicketsOk(w: Worker) {
    && (forall id | id in w.asked :: id < w.nextId && (id in w.pending || id in w.promises))
    && w.pending <= w.asked.Keys && w.promises.Keys <= w.asked.Keys
    && w.pending !! w.promises.Keys
    && (forall id | id in w.promises :: Answers(w.asked[id], w.promises[id]))
  }

  predicate Answering(w: Worker, id: nat) {
    exists i :: 0 <= i < |w.responses| && w.responses[i].id == id
  }

  /** An unserved request is in its target's queue; a served one is answered or fulfilled. */
  predicate Placed(s: Sys, w: nat, id: nat)
    requires w < |s| && id in s[w].asked
  {
    var ask := s[w].asked[id];
    && ask.worker < |s|
    && (ask.view.None? ==> Request(w, id, ask.keys) in s[ask.worker].requests)
    && (ask.view.Some? ==> id in s[w].promises || Answering(s[w], id))
  }

  predicate NothingLost(s: Sys, w: nat)
    requires w < |s|
  {
    forall id | id in s[w].asked :: Placed(s, w, id)
  }

  /** The parts and open futures of a batch cover its keys, and every part that arrived is right. */
  ghost predicate BatchOk(route: string -> nat, w: Worker, b: Batch) {
    && (forall g | g in b.todo :: KeysOf(route, b.keys, g) != [])
    && (forall i | 0 <= i < |b.futures| :: FutureOk(route, w, b, b.futures[i]))
    && (forall i | 0 <= i < |b.parts| :: PartOk(route, b, b.parts[i]))
    && (forall k | k in b.keys :: Covered(w, b, route(k)))
  }

  ghost predicate FutureOk(route: string -> nat, w: Worker, b: Batch, id: nat) {
    id in w.asked && w.asked[id].keys == KeysOf(route, b.keys, w.asked[id].worker) != []
  }

  ghost predicate PartOk(route: string -> nat, b: Batch, p: Part) {
    && p.keys == KeysOf(route, b.keys, p.worker) != []
    && if p.late then p.result == [] else IsLocalResult(p.view, p.keys, p.result)
  }

  ghost predicate Covered(w: Worker, b: Batch, g: nat) {
    || g in b.todo
    || (exists i :: 0 <= i < |b.parts| && b.parts[i].worker == g)
    || (exists i :: 0 <= i < |b.futures| && b.futures[i] in w.asked && w.asked[b.futures[i]].worker == g)
  }

  ghost predicate Inv(route: Router, s: Sys) {
    forall w | 0 <= w < |s| ::
      && QueueOk(s, w) && InboxOk(s[w]) && TicketsOk(s[w]) && NothingLost(s, w)
      && (s[w].batch.Some? ==> BatchOk(route(w), s[w], s[w].batch.value))
  }

  /** A worker may change anything but its tickets, its queue and its answers without touching the others. */
  lemma FrameQueues(route: Router, s: Sys, self: nat, n: Worker)
    requires Inv(route, s) && self < |s|
    requires n.asked == s[self].asked && n.requests == s[self].requests
    requires forall id | id in n.asked && n.asked[id].view.Some? :: id in n.promises || Answering(n, id)
    requires InboxOk(n) && TicketsOk(n) && (n.batch.Some? ==> BatchOk(route(self), n, n.batch.value))
    ensures Inv(route, s[self := n])
  {
    var t := s[self := n];
    assert forall w | 0 <= w < |t| :: t[w].asked == s[w].asked && t[w].requests == s[w].requests;
    forall w | 0 <= w < |t| ensures QueueOk(t, w) && NothingLost(t, w) {
      assert QueueOk(s, w) && NothingLost(s, w);
      forall i | 0 <= i < |t[w].requests| ensures RequestOk(t, w, t[w].requests[i]) {
        assert RequestOk(s, w, s[w].requests[i]);
      }
      forall id | id in t[w].asked ensures Placed(t, w, id) {
        assert Placed(s, w, id);
      }
    }
  }

  lemma ReceiveKeeps(w: Worker, i: nat)
    requires i < |w.responses| && InboxOk(w) && TicketsOk(w)
    ensures w.responses[i].id in w.pending && w.responses[i].id !in w.promises
    ensures InboxOk(Received(w, i)) && TicketsOk(Received(w, i))
    ensures forall id | Answering(w, id) :: id in Received(w, i).promises || Answering(Received(w, i), id)
  {
    var n := Received(w, i);
    forall id | Answering(w, id) ensures id in n.promises || Answering(n, id) {
      var j :| 0 <= j < |w.responses| && w.responses[j].id == id;
      if j < i {
        assert n.responses[j] == w.responses[j];
      } else if j > i {
        assert n.responses[j - 1] == w.responses[j];
      }
    }
  }

  lemma CollectKeeps(route: string -> nat, w: Worker, i: nat)
    requires TicketsOk(w) && w.batch.Some? && i < |w.batch.value.futures| && BatchOk(route, w, w.batch.value)
    requires w.batch.value.futures[i] in w.promises && w.batch.value.futures[i] in w.asked
    requires w.asked[w.batch.value.futures[i]].view.Some?
    ensures BatchOk(route, w, Collected(w, i).batch.value)
  {
    var b, n := w.batch.value, Collected(w, i).batch.value;
    forall j | 0 <= j < |n.futures| ensures FutureOk(route, w, n, n.futures[j]) {
      assert FutureOk(route, w, b, b.futures[if j < i then j else j + 1]);
    }
    assert FutureOk(route, w, b, b.futures[i]);
    forall j | 0 <= j < |n.parts| ensures PartOk(route, n, n.parts[j]) {
      if j < |b.parts| {
        assert PartOk(route, b, b.parts[j]);
      }
    }
    forall k | k in n.keys ensures Covered(w, n, route(k)) {
      CoverCollected(w, i, route(k));
    }
  }

  lemma CoverCollected(w: Worker, i: nat, g: nat)
    requires w.batch.Some? && i < |w.batch.value.futures|
    requires w.batch.value.futures[i] in w.promises && w.batch.value.futures[i] in w.asked
    requires w.asked[w.batch.value.futures[i]].view.Some?
    requires Covered(w, w.batch.value, g)
    ensures Covered(w, Collected(w, i).batch.value, g)
  {
    var b, n := w.batch.value, Collected(w, i).batch.value;
    if j :| 0 <= j < |b.parts| && b.parts[j].worker == g {
      assert n.parts[j].worker == g;
    } else if j :| 0 <= j < |b.futures| && b.futures[j] in w.asked && w.asked[b.futures[j]].worker == g {
      if j == i {
        assert n.parts[|b.parts|].worker == g;
      } else {
        assert n.futures[if j < i then j else j - 1] == b.futures[j];
      }
    }
  }

  lemma TimeoutKeeps(route: string -> nat, w: Worker, b: Batch)
    requires BatchOk(route, w, b)
    ensures forall id | id in b.futures :: id in w.asked
    ensures BatchOk(route, w, b.(futures := [], parts := b.parts + LateParts(w, b.futures)))
  {
    assert forall i | 0 <= i < |b.futures| :: FutureOk(route, w, b, b.futures[i]);
    var late := LateParts(w, b.futures);
    var n := b.(futures := [], parts := b.parts + late);
    forall j | 0 <= j < |n.parts| ensures PartOk(route, n, n.parts[j]) {
      if j < |b.parts| {
        assert PartOk(route, b, b.parts[j]);
      } else {
        assert n.parts[j] == late[j - |b.parts|];
      }
    }
    forall k | k in n.keys ensures Covered(w, n, route(k)) {
      if i :| 0 <= i < |b.parts| && b.parts[i].worker == route(k) {
        assert n.parts[i].worker == route(k);
      } else if i :| 0 <= i < |b.futures| && b.futures[i] in w.asked && w.asked[b.futures[i]].worker == route(k) {
        assert n.parts[|b.parts| + i] == late[i];
      }
    }
  }

  lemma SendLocalKeeps(route: string -> nat, w: Worker, b: Batch, self: nat, result: seq<string>)
    requires BatchOk(route, w, b) && self in b.todo
    requires IsLocalResult(w.sets, KeysOf(route, b.keys, self), result)
    ensures BatchOk(route, w, b.(todo := b.todo - {self},
                                 parts := b.parts + [Part(self, KeysOf(route, b.keys, self), w.sets, result, false)]))
  {
    var n := b.(todo := b.todo - {self},
                parts := b.parts + [Part(self, KeysOf(route, b.keys, self), w.sets, result, false)]);
    forall j | 0 <= j < |n.futures| ensures FutureOk(route, w, n, n.futures[j]) {
      assert FutureOk(route, w, b, b.futures[j]);
    }
    forall j | 0 <= j < |n.parts| ensures PartOk(route, n, n.parts[j]) {
      if j < |b.parts| {
        assert PartOk(route, b, b.parts[j]);
      }
    }
    forall k | k in n.keys ensures Covered(w, n, route(k)) {
      assert Covered(w, b, route(k));
      if i :| 0 <= i < |b.parts| && b.parts[i].worker == route(k) {
        assert n.parts[i].worker == route(k);
      } else if route(k) == self {
        assert n.parts[|b.parts|].worker == self;
      }
    }
  }

  lemma StartKeeps(route: string -> nat, w: Worker, keys: seq<string>)
    ensures BatchOk(route, w, Batch(keys, set k | k in keys :: route(k), [], []))
  {
    var b := Batch(keys, set k | k in keys :: route(k), [], []);
    forall g | g in b.todo ensures KeysOf(route, keys, g) != [] {
      var k :| k in keys && route(k) == g;
      KeysOfMembers(route, keys, g, k);
    }
  }

  /** Tickets grow: a batch that was covered stays covered. */
  lemma BatchFrame(route: string -> nat, w: Worker, n: Worker, b: Batch)
    requires BatchOk(route, w, b)
    requires forall id | id in w.asked ::
      id in n.asked && n.asked[id].worker == w.asked[id].worker && n.asked[id].keys == w.asked[id].keys
    ensures BatchOk(route, n, b)
  {
    forall j | 0 <= j < |b.futures| ensures FutureOk(route, n, b, b.futures[j]) {
      assert FutureOk(route, w, b, b.futures[j]);
    }
    forall k | k in b.keys ensures Covered(n, b, route(k)) {
      assert Covered(w, b, route(k));
    }
  }

  lemma SentBatch(route: string -> nat, w: Worker, target: nat)
    requires TicketsOk(w) && w.batch.Some? && target in w.batch.value.todo && BatchOk(route, w, w.batch.value)
    ensures BatchOk(route, Sent(route, w, target), Sent(route, w, target).batch.value)
  {
    var n, b := Sent(route, w, target), w.batch.value;
    var c := n.batch.value;
    BatchFrame(route, w, n, b);
    forall j | 0 <= j < |c.futures| ensures FutureOk(route, n, c, c.futures[j]) {
      if j < |b.futures| {
        assert FutureOk(route, n, b, b.futures[j]);
      }
    }
    forall j | 0 <= j < |c.parts| ensures PartOk(route, c, c.parts[j]) {
      assert PartOk(route, b, b.parts[j]);
    }
    forall k | k in c.keys ensures Covered(n, c, route(k)) {
      assert Covered(n, b, route(k));
      if i :| 0 <= i < |b.futures| && b.futures[i] in n.asked && n.asked[b.futures[i]].worker == route(k) {
        assert c.futures[i] == b.futures[i];
      } else if route(k) == target {
        assert c.futures[|b.futures|] == w.nextId;
      }
    }
  }

  lemma SentWorker(route: string -> nat, w: Worker, target: nat)
    requires TicketsOk(w) && InboxOk(w) && w.batch.Some?
    ensures TicketsOk(Sent(route, w, target)) && InboxOk(Sent(route, w, target))
  {
  }

  /** The queues and tickets after one request was sent. */
  predicate Grew(s: Sys, t: Sys, self: nat, id: nat, ask: Ask) {
    && |t| == |s| && self < |s| && ask.worker < |s| && id !in s[self].asked && ask.view.None?
    && forall v | 0 <= v < |s| ::
      && t[v].asked == (if v == self then s[v].asked[id := ask] else s[v].asked)
      && t[v].requests == s[v].requests + (if v == ask.worker then [Request(self, id, ask.keys)] else [])
      && t[v].responses == s[v].responses && t[v].promises == s[v].promises
  }

  lemma SendQueues(s: Sys, t: Sys, self: nat, id: nat, ask: Ask, v: nat)
    requires Grew(s, t, self, id, ask) && v < |s| && QueueOk(s, v)
    ensures QueueOk(t, v)
  {
    forall i | 0 <= i < |t[v].requests| ensures RequestOk(t, v, t[v].requests[i]) {
      if i < |s[v].requests| {
        assert RequestOk(s, v, s[v].requests[i]);
      }
    }
    forall i, j | 0 <= i < j < |t[v].requests| ensures !SameTicket(t[v].requests[i], t[v].requests[j]) {
      assert RequestOk(s, v, s[v].requests[i]);
    }
  }

  lemma SendLosesNothing(s: Sys, t: Sys, self: nat, id: nat, ask: Ask, v: nat)
    requires Grew(s, t, self, id, ask) && v < |s| && NothingLost(s, v)
    ensures NothingLost(t, v)
  {
    forall j | j in t[v].asked ensures Placed(t, v, j) {
      if v != self || j != id {
        assert Placed(s, v, j);
      }
    }
  }

  lemma SendKeeps(route: Router, s: Sys, self: nat, target: nat)
    requires Inv(route, s) && Enabled(route, s, SendRemote(self, target))
    ensures Inv(route, Next(route, s, SendRemote(self, target)))
  {
    var t := Next(route, s, SendRemote(self, target));
    SentBatch(route(self), s[self], target);
    SentWorker(route(self), s[self], target);
    assert TicketsOk(s[target]) && InboxOk(s[target]);
    if s[target].batch.Some? {
      BatchFrame(route(target), s[target], t[target], s[target].batch.value);
    }
    forall v | 0 <= v < |t| ensures QueueOk(t, v) && NothingLost(t, v) {
      var ask := t[self].asked[s[self].nextId];
      assert QueueOk(s, v) && NothingLost(s, v);
      SendQueues(s, t, self, s[self].nextId, ask, v);
      SendLosesNothing(s, t, self, s[self].nextId, ask, v);
    }
  }

  lemma AnsweredKeeps(route: string -> nat, w: Worker, id: nat, view: Sets, result: seq<string>)
    requires TicketsOk(w) && InboxOk(w) && id in w.asked && w.asked[id].view.None?
    requires IsLocalResult(view, w.asked[id].keys, result)
    requires w.batch.Some? ==> BatchOk(route, w, w.batch.value)
    ensures TicketsOk(Answered(w, id, view, result)) && InboxOk(Answered(w, id, view, result))
    ensures w.batch.Some? ==> BatchOk(route, Answered(w, id, view, result), w.batch.value)
  {
    if w.batch.Some? {
      BatchFrame(route, w, Answered(w, id, view, result), w.batch.value);
    }
  }

  /** The queues and tickets after the request at position `i` of worker `self` was served. */
  predicate Shrank(s: Sys, t: Sys, self: nat, i: nat, view: Sets) {
    && |t| == |s| && self < |s| && i < |s[self].requests| && RequestOk(s, self, s[self].requests[i])
    && var req := s[self].requests[i];
    && Answering(t[req.source], req.id)
    && forall v | 0 <= v < |s| ::
      && t[v].asked == (if v == req.source then s[v].asked[req.id := s[v].asked[req.id].(view := Some(view))]
                        else s[v].asked)
      && t[v].requests == (if v == self then RemoveAt(s[v].requests, i) else s[v].requests)
      && s[v].responses <= t[v].responses && t[v].promises == s[v].promises
  }

  /** No other queued request is for the same ticket. */
  lemma OnlyRequest(s: Sys, self: nat, i: nat, v: nat, k: nat)
    requires self < |s| && v < |s| && QueueOk(s, v) && QueueOk(s, self)
    requires i < |s[self].requests| && k < |s[v].requests| && (v != self || k != i)
    ensures !SameTicket(s[v].requests[k], s[self].requests[i])
  {
    assert RequestOk(s, v, s[v].requests[k]) && RequestOk(s, self, s[self].requests[i]);
    if v == self {
      assert k < i ==> !SameTicket(s[v].requests[k], s[v].requests[i]);
      assert i < k ==> !SameTicket(s[v].requests[i], s[v].requests[k]);
    }
  }

  lemma RequestStays(s: Sys, t: Sys, self: nat, i: nat, view: Sets, v: nat, r: Request)
    requires Shrank(s, t, self, i, view) && RequestOk(s, v, r) && !SameTicket(r, s[self].requests[i])
    ensures RequestOk(t, v, r)
  {
    assert t[r.source].asked[r.id] == s[r.source].asked[r.id];
  }

  predicate Distinct(q: seq<Request>) { forall i, j | 0 <= i < j < |q| :: !SameTicket(q[i], q[j]) }

  lemma DistinctWithout(q: seq<Request>, i: nat)
    requires i < |q| && Distinct(q)
    ensures Distinct(RemoveAt(q, i))
  {
    var r := RemoveAt(q, i);
    forall j, k | 0 <= j < k < |r| ensures !SameTicket(r[j], r[k]) {
      assert r[j] == q[if j < i then j else j + 1] && r[k] == q[if k < i then k else k + 1];
    }
  }

  lemma ServeQueues(s: Sys, t: Sys, self: nat, i: nat, view: Sets, v: nat)
    requires Shrank(s, t, self, i, view) && v < |s| && QueueOk(s, v) && QueueOk(s, self)
    ensures QueueOk(t, v)
  {
    var q, r := s[v].requests, t[v].requests;
    assert Distinct(q);
    if v == self {
      DistinctWithout(q, i);
    }
    assert Distinct(r);
    forall j | 0 <= j < |r| ensures RequestOk(t, v, r[j]) {
      var k := if v == self && j >= i then j + 1 else j;
      assert r[j] == q[k] && RequestOk(s, v, q[k]);
      OnlyRequest(s, self, i, v, k);
      RequestStays(s, t, self, i, view, v, q[k]);
    }
  }

  lemma OthersStay(q: seq<Request>, i: nat, r: Request)
    requires i < |q| && r in q && r != q[i]
    ensures r in RemoveAt(q, i)
  {
    var j :| 0 <= j < |q| && q[j] == r;
    assert RemoveAt(q, i)[if j > i then j - 1 else j] == r;
  }

  lemma ServeLosesNothing(s: Sys, t: Sys, self: nat, i: nat, view: Sets, v: nat)
    requires Shrank(s, t, self, i, view) && v < |s| && NothingLost(s, v)
    ensures NothingLost(t, v)
  {
    var req := s[self].requests[i];
    forall id | id in t[v].asked ensures Placed(t, v, id) {
      if v != req.source || id != req.id {
        assert Placed(s, v, id);
        var ask := s[v].asked[id];
        if ask.view.None? && ask.worker == self {
          OthersStay(s[self].requests, i, Request(v, id, ask.keys));
        } else if ask.view.Some? && Answering(s[v], id) {
          var j :| 0 <= j < |s[v].responses| && s[v].responses[j].id == id;
          assert t[v].responses[j].id == id;
        }
      }
    }
  }

  /** Taking a request off its queue disturbs nothing else. */
  lemma PopKeeps(route: string -> nat, w: Worker, requests: seq<Request>)
    requires TicketsOk(w) && InboxOk(w) && (w.batch.Some? ==> BatchOk(route, w, w.batch.value))
    ensures var n := w.(requests := requests);
      TicketsOk(n) && InboxOk(n) && (n.batch.Some? ==> BatchOk(route, n, n.batch.value))
  {
    if w.batch.Some? {
      BatchFrame(route, w, w.(requests := requests), w.batch.value);
    }
  }

  lemma ServeKeeps(route: Router, s: Sys, self: nat, i: nat, result: seq<string>)
    requires Inv(route, s) && Enabled(route, s, Serve(self, i, result))
    ensures Inv(route, Next(route, s, Serve(self, i, result)))
  {
    var t := Next(route, s, Serve(self, i, result));
    var req := s[self].requests[i];
    assert QueueOk(s, self) && RequestOk(s, self, req);
    var popped := s[self := s[self].(requests := RemoveAt(s[self].requests, i))];
    forall v | 0 <= v < |t|
      ensures TicketsOk(popped[v]) && InboxOk(popped[v])
      ensures popped[v].batch.Some? ==> BatchOk(route(v), popped[v], popped[v].batch.value)
    {
      if v == self {
        PopKeeps(route(v), s[v], RemoveAt(s[v].requests, i));
      }
    }
    AnsweredKeeps(route(req.source), popped[req.source], req.id, s[self].sets, result);
    assert t[req.source].responses[|s[req.source].responses|].id == req.id;
    forall v | 0 <= v < |t| ensures QueueOk(t, v) && NothingLost(t, v) {
      assert QueueOk(s, v) && NothingLost(s, v);
      ServeQueues(s, t, self, i, s[self].sets, v);
      ServeLosesNothing(s, t, self, i, s[self].sets, v);
    }
  }

  /** A step that concerns one worker leaves that worker in order. */
  lemma LocalWorkerOk(route: Router, s: Sys, step: Step)
    requires Enabled(route, s, step) && !step.SendRemote? && !step.Serve?
    requires var w := s[step.w];
      InboxOk(w) && TicketsOk(w) && (w.batch.Some? ==> BatchOk(route(step.w), w, w.batch.value))
    ensures var n := Next(route, s, step)[step.w];
      InboxOk(n) && TicketsOk(n) && (n.batch.Some? ==> BatchOk(route(step.w), n, n.batch.value))
  {
    var w := s[step.w];
    var n := Next(route, s, step)[step.w];
    if w.batch.Some? {
      BatchFrame(route(step.w), w, n, w.batch.value);
    }
    match step {
      case Write(_, _) =>
      case Start(_, keys) => StartKeeps(route(step.w), n, keys);
      case SendLocal(self, result) =>
        SendLocalKeeps(route(step.w), w, w.batch.value, self, result);
        BatchFrame(route(step.w), w, n, n.batch.value);
      case Receive(_, i) => ReceiveKeeps(w, i);
      case Collect(_, i) =>
        CollectKeeps(route(step.w), w, i);
        BatchFrame(route(step.w), w, n, n.batch.value);
      case Timeout(_) =>
        TimeoutKeeps(route(step.w), w, w.batch.value);
        BatchFrame(route(step.w), w, n, n.batch.value);
      case Finish(_, _) =>
    }
  }

  lemma LocalStepKeeps(route: Router, s: Sys, step: Step)
    requires Inv(route, s) && Enabled(route, s, step) && !step.SendRemote? && !step.Serve?
    ensures Inv(route, Next(route, s, step))
  {
    var w, n := s[step.w], Next(route, s, step)[step.w];
    LocalWorkerOk(route, s, step);
    forall id | id in n.asked && n.asked[id].view.Some? ensures id in n.promises || Answering(n, id) {
      assert Placed(s, step.w, id) && InboxOk(w) && TicketsOk(w);
      if step.Receive? {
        ReceiveKeeps(w, step.i);
      }
    }
    FrameQueues(route, s, step.w, n);
  }
}
