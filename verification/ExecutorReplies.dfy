/**
 Reply conservation over every run of the executor: each accepted command is in exactly one
 place and is answered at most once, to the worker and connection it came from.
 */
module ExecutorReplies {
  import opened Common
  import opened Commands
  import opened Executor

  // ----- Counting ids -----

  function IsItem(id: nat): Item -> bool { (x: Item) => x.id == id }

  function IsResponse(id: nat): Response -> bool { (x: Response) => x.id == id }

  /** Occurrences of `id` in one queue. */
  function InCommands(q: seq<Item>, id: nat): nat { Count(q, IsItem(id)) }

  function InResponses(q: seq<Response>, id: nat): nat { Count(q, IsResponse(id)) }

  /** Occurrences of `id` among the commands waiting anywhere. */
  function Waiting(ws: seq<Worker>, id: nat): nat {
    if ws == [] then 0 else Waiting(ws[..|ws| - 1], id) + InCommands(ws[|ws| - 1].cmds, id)
  }

  /** Occurrences of `id` among one worker's replies: cross-worker, queued for clients, or handed over. */
  function RepliesAt(wk: Worker, id: nat): nat {
    InResponses(wk.crossReplies, id) + InResponses(wk.replies, id) + InResponses(wk.handed, id)
  }

  function Replied(ws: seq<Worker>, id: nat): nat {
    if ws == [] then 0 else Replied(ws[..|ws| - 1], id) + RepliesAt(ws[|ws| - 1], id)
  }

  /** Replacing one worker changes the totals by the difference at that worker. */
  lemma {:induction false} Replace(ws: seq<Worker>, w: nat, x: Worker, id: nat)
    requires w < |ws|
    ensures Waiting(ws[w := x], id) + InCommands(ws[w].cmds, id) == Waiting(ws, id) + InCommands(x.cmds, id)
    ensures Replied(ws[w := x], id) + RepliesAt(ws[w], id) == Replied(ws, id) + RepliesAt(x, id)
  {
    var init := ws[..|ws| - 1];
    if w < |ws| - 1 {
      assert ws[w := x][..|ws| - 1] == init[w := x];
      Replace(init, w, x, id);
    } else {
      assert ws[w := x][..|ws| - 1] == init;
    }
  }

  /** Every outcome answers the client, except that a forwarded command is answered where it runs. */
  predicate Answering(o: Outcome) { !o.Forwarded? && !o.Closed? }

  function IsAnswer(id: nat): Event -> bool { (e: Event) => Answering(e.outcome) && e.id == id }

  /** How often the trace answers command `id`. */
  function Answers(trace: seq<Event>, id: nat): nat { Count(trace, IsAnswer(id)) }

  // ----- Addressing -----

  /** What the client is sent for an outcome. */
  predicate SentFor(o: Outcome, reply: Reply) {
    match o
    case Ran(text) => reply == Text(text)
    case RanForwarded(text) => reply == Text(text)
    case Control(text) => reply == Text(text)
    case CrossSlot(text) => reply == Text(text)
    case Queued => reply == Text("+QUEUED")
    case Aborted => reply == NullArray
    case Executed(_, items) => reply == ExecArray(items)
    case Forwarded(_) => false
    case Closed => false
  }

  ghost predicate Answered(trace: seq<Event>, id: nat, reply: Reply) {
    exists k | 0 <= k < |trace| :: trace[k].id == id && SentFor(trace[k].outcome, reply)
  }

  lemma AnsweredMono(trace: seq<Event>, e: Event, id: nat, reply: Reply)
    requires Answered(trace, id, reply)
    ensures Answered(trace + [e], id, reply)
  {
    var k :| 0 <= k < |trace| && trace[k].id == id && SentFor(trace[k].outcome, reply);
    assert (trace + [e])[k] == trace[k];
  }

  /** A processed command is one that a client sent, on that connection and, unless forwarded, to that worker. */
  predicate EventOk(accepted: seq<Client>, e: Event) {
    e.outcome.Closed? ||
    (&& e.id < |accepted| && accepted[e.id].cmd == e.cmd && accepted[e.id].conn == e.conn
     && (e.outcome.RanForwarded? || accepted[e.id].worker == e.worker))
  }

  /** A queued command still names its client; a forwarded one sits at the owner of its key. */
  predicate ItemOk(cfg: Config, accepted: seq<Client>, w: nat, it: Item)
  {
    && it.id < |accepted|
    && it.source < cfg.workers
    && accepted[it.id] == Client(it.source, it.conn, it.cmd)
    && if it.forwarded then
         KeyOf(cfg, it.cmd).Some? && cfg.route(it.source, KeyOf(cfg, it.cmd).value) == w != it.source
       else it.source == w
  }

  /** A reply held by worker `w` answers a command that arrived at `w` on that connection. */
  ghost predicate ResponseOk(accepted: seq<Client>, trace: seq<Event>, w: nat, r: Response) {
    && r.id < |accepted|
    && accepted[r.id].worker == w
    && accepted[r.id].conn == r.conn
    && Answered(trace, r.id, r.reply)
  }

  predicate Holds(wk: Worker, r: Response) {
    r in wk.crossReplies || r in wk.replies || r in wk.handed
  }

  ghost predicate Addressed(cfg: Config, s: Sys)
  {
    && (forall w, it | 0 <= w < |s.ws| && it in s.ws[w].cmds :: ItemOk(cfg, s.accepted, w, it))
    && (forall w, r | 0 <= w < |s.ws| && Holds(s.ws[w], r) :: ResponseOk(s.accepted, s.trace, w, r))
    && (forall k | 0 <= k < |s.trace| :: EventOk(s.accepted, s.trace[k]))
  }

  /** A command waits in one command queue or has been answered once; every answer is held once. */
  predicate ConservedId(s: Sys, id: nat) {
    && Waiting(s.ws, id) + Answers(s.trace, id) == One(id < |s.accepted|)
    && Replied(s.ws, id) == Answers(s.trace, id)
  }

  // ----- Preservation -----

  lemma {:induction false} InitConserved(ws: seq<Worker>, id: nat)
    requires forall w | 0 <= w < |ws| :: ws[w] == Worker(map[], map[], [], [], [], [])
    ensures Waiting(ws, id) == Replied(ws, id) == 0
  {
    if ws != [] { InitConserved(ws[..|ws| - 1], id); }
  }

  lemma AcceptConserves(s: Sys, w: nat, conn: nat, cmd: Command, id: nat)
    requires w < |s.ws| && ConservedId(s, id)
    ensures ConservedId(Accepted(s, w, conn, cmd), id)
  {
    Replace(s.ws, w, Accepted(s, w, conn, cmd).ws[w], id);
    CountPush(s.ws[w].cmds, Item(|s.accepted|, conn, cmd, false, w), IsItem(id));
  }

  lemma CrossConserves(s: Sys, w: nat, i: nat, id: nat)
    requires w < |s.ws| && i < |s.ws[w].crossReplies| && ConservedId(s, id)
    ensures ConservedId(Crossed(s, w, i), id)
  {
    var wk := s.ws[w];
    Replace(s.ws, w, Crossed(s, w, i).ws[w], id);
    CountTake(wk.crossReplies, i, IsResponse(id));
    CountPush(wk.replies, wk.crossReplies[i], IsResponse(id));
  }

  lemma HandConserves(s: Sys, w: nat, id: nat)
    requires w < |s.ws| && |s.ws[w].replies| > 0 && ConservedId(s, id)
    ensures ConservedId(Handed(s, w), id)
  {
    var wk := s.ws[w];
    Replace(s.ws, w, Handed(s, w).ws[w], id);
    CountTake(wk.replies, 0, IsResponse(id));
    CountPush(wk.handed, wk.replies[0], IsResponse(id));
  }

  lemma CloseConserves(s: Sys, w: nat, conn: nat, id: nat)
    requires w < |s.ws| && ConservedId(s, id)
    ensures ConservedId(ConnectionClosed(s, w, conn), id)
  {
    Replace(s.ws, w, ConnectionClosed(s, w, conn).ws[w], id);
    CountPush(s.trace, Event(w, 0, conn, Command("", []), Closed), IsAnswer(id));
  }

  lemma DeliverCounts(ws: seq<Worker>, w: nat, it: Item, o: Outcome, id: nat)
    requires w < |ws| && it.source < |ws| && !o.Closed?
    requires o.Forwarded? ==> o.target < |ws|
    ensures var ws' := Deliver(ws, w, it, o);
            && Waiting(ws', id) == Waiting(ws, id) + One(o.Forwarded? && it.id == id)
            && Replied(ws', id) == Replied(ws, id) + One(!o.Forwarded? && it.id == id)
  {
    var ws' := Deliver(ws, w, it, o);
    var to := if o.Forwarded? then o.target else if it.forwarded then it.source else w;
    Replace(ws, to, ws'[to], id);
    if o.Forwarded? {
      CountPush(ws[to].cmds, Item(it.id, it.conn, it.cmd, true, w), IsItem(id));
    } else {
      var resp := Response(it.id, it.conn, Answer(o).value, w);
      if it.forwarded {
        CountPush(ws[to].crossReplies, resp, IsResponse(id));
      } else {
        CountPush(ws[to].replies, resp, IsResponse(id));
      }
    }
  }

  lemma ExecConserves(s: Sys, w: nat, i: nat, e: Effect, id: nat)
    requires w < |s.ws| && i < |s.ws[w].cmds| && s.ws[w].cmds[i].source < |s.ws|
    requires !e.outcome.Closed? && (e.outcome.Forwarded? ==> e.outcome.target < |s.ws|)
    requires ConservedId(s, id)
    ensures ConservedId(Processed(s, w, i, e), id)
  {
    var wk, it := s.ws[w], s.ws[w].cmds[i];
    var taken := Take(s.ws, w, i, e);
    Replace(s.ws, w, taken[w], id);
    CountTake(wk.cmds, i, IsItem(id));
    DeliverCounts(taken, w, it, e.outcome, id);
    CountPush(s.trace, Event(w, it.id, it.conn, it.cmd, e.outcome), IsAnswer(id));
  }

  lemma StepConserves(cfg: Config, s: Sys, st: Step, id: nat)
    requires ValidConfig(cfg) && |s.ws| == cfg.workers && Enabled(cfg, s, st)
    requires ConservedId(s, id) && Addressed(cfg, s)
    ensures ConservedId(Next(cfg, s, st), id)
  {
    match st
    case Accept(w, conn, cmd) => AcceptConserves(s, w, conn, cmd, id);
    case Cross(w, i) => CrossConserves(s, w, i, id);
    case Hand(w) => HandConserves(s, w, id);
    case Close(w, conn) => CloseConserves(s, w, conn, id);
    case Exec(w, i) =>
      var wk := s.ws[w];
      assert ItemOk(cfg, s.accepted, w, wk.cmds[i]);
      ExecConserves(s, w, i, Process(cfg, w, wk.shard, wk.tx, wk.cmds[i]), id);
  }

  lemma MoveAddressed(cfg: Config, s: Sys, st: Step)
    requires ValidConfig(cfg) && |s.ws| == cfg.workers && !st.Exec? && Enabled(cfg, s, st)
    requires Addressed(cfg, s)
    ensures Addressed(cfg, Next(cfg, s, st))
  {
    var s' := Next(cfg, s, st);
    forall w, it | 0 <= w < |s'.ws| && it in s'.ws[w].cmds
      ensures ItemOk(cfg, s'.accepted, w, it)
    {
      if it in s.ws[w].cmds { assert ItemOk(cfg, s.accepted, w, it); }
    }
    forall w, r | 0 <= w < |s'.ws| && Holds(s'.ws[w], r)
      ensures ResponseOk(s'.accepted, s'.trace, w, r)
    {
      assert Holds(s.ws[w], r);
      assert ResponseOk(s.accepted, s.trace, w, r);
      if st.Close? { AnsweredMono(s.trace, s'.trace[|s.trace|], r.id, r.reply); }
    }
    forall k | 0 <= k < |s'.trace| ensures EventOk(s'.accepted, s'.trace[k]) {
      if k < |s.trace| { assert EventOk(s.accepted, s.trace[k]); }
    }
  }

  lemma ExecAddressed(cfg: Config, s: Sys, w0: nat, i: nat, e: Effect)
    requires ValidConfig(cfg) && |s.ws| == cfg.workers && w0 < |s.ws| && i < |s.ws[w0].cmds|
    requires !e.outcome.Closed? && (e.outcome.RanForwarded? <==> s.ws[w0].cmds[i].forwarded)
    requires var it := s.ws[w0].cmds[i];
             e.outcome.Forwarded? ==>
               && !it.forwarded
               && KeyOf(cfg, it.cmd).Some?
               && e.outcome.target == cfg.route(w0, KeyOf(cfg, it.cmd).value) != w0
    requires Addressed(cfg, s)
    ensures Addressed(cfg, Processed(s, w0, i, e))
  {
    var s' := Processed(s, w0, i, e);
    var it0 := s.ws[w0].cmds[i];
    assert ItemOk(cfg, s.accepted, w0, it0);
    var ev := Event(w0, it0.id, it0.conn, it0.cmd, e.outcome);
    forall w, it | 0 <= w < |s'.ws| && it in s'.ws[w].cmds
      ensures ItemOk(cfg, s'.accepted, w, it)
    {
      if it in s.ws[w].cmds { assert ItemOk(cfg, s.accepted, w, it); }
    }
    forall w, r | 0 <= w < |s'.ws| && Holds(s'.ws[w], r)
      ensures ResponseOk(s'.accepted, s'.trace, w, r)
    {
      if Holds(s.ws[w], r) {
        assert ResponseOk(s.accepted, s.trace, w, r);
        AnsweredMono(s.trace, ev, r.id, r.reply);
      } else {
        assert s'.trace[|s.trace|] == ev;
      }
    }
    forall k | 0 <= k < |s'.trace| ensures EventOk(s'.accepted, s'.trace[k]) {
      if k < |s.trace| { assert EventOk(s.accepted, s.trace[k]); }
    }
  }

  /** The inductive invariant, over every run. */
  lemma {:induction false} RunInvariant(cfg: Config, steps: seq<Step>)
    requires ValidConfig(cfg) && IsRun(cfg, steps)
    ensures Addressed(cfg, After(cfg, steps))
    ensures forall id: nat :: ConservedId(After(cfg, steps), id)
    decreases |steps|
  {
    if steps == [] {
      forall id: nat ensures ConservedId(After(cfg, steps), id) {
        InitConserved(Init(cfg).ws, id);
      }
    } else {
      var init, st := steps[..|steps| - 1], steps[|steps| - 1];
      RunInvariant(cfg, init);
      var s := After(cfg, init);
      if st.Exec? {
        var wk := s.ws[st.w];
        ExecAddressed(cfg, s, st.w, st.i, Process(cfg, st.w, wk.shard, wk.tx, wk.cmds[st.i]));
      } else {
        MoveAddressed(cfg, s, st);
      }
      forall id: nat ensures ConservedId(After(cfg, steps), id) {
        StepConserves(cfg, s, st, id);
      }
    }
  }

  /** What clients sent in a run. */
  function Requests(steps: seq<Step>): seq<Client> {
    if steps == [] then []
    else
      var before, st := Requests(steps[..|steps| - 1]), steps[|steps| - 1];
      if st.Accept? then before + [Client(st.w, st.conn, st.cmd)] else before
  }

  lemma {:induction false} AcceptedAreRequests(cfg: Config, steps: seq<Step>)
    requires IsRun(cfg, steps)
    ensures After(cfg, steps).accepted == Requests(steps)
  {
    if steps != [] {
      AcceptedAreRequests(cfg, steps[..|steps| - 1]);
    }
  }

  /**
   Reply conservation: in every reachable state each command that a client sent is in exactly one
   place, nothing else is anywhere, no command is answered twice, and every reply is held by the
   worker, and carries the connection, of the client that sent the command, and is what the outcome
   of that command says.
   */
  lemma ReplyConservation(cfg: Config, steps: seq<Step>)
    requires ValidConfig(cfg) && IsRun(cfg, steps)
    ensures var s := After(cfg, steps);
            && (forall id: nat :: Waiting(s.ws, id) + Replied(s.ws, id) == One(id < |Requests(steps)|))
            && (forall id: nat :: Answers(s.trace, id) <= 1)
            && (forall w, r | 0 <= w < |s.ws| && Holds(s.ws[w], r) ::
                  ResponseOk(Requests(steps), s.trace, w, r))
            && (forall k | 0 <= k < |s.trace| :: EventOk(Requests(steps), s.trace[k]))
  {
    RunInvariant(cfg, steps);
    AcceptedAreRequests(cfg, steps);
    var s := After(cfg, steps);
    forall id: nat
      ensures Waiting(s.ws, id) + Replied(s.ws, id) == One(id < |s.accepted|)
      ensures Answers(s.trace, id) <= 1
    {
      assert ConservedId(s, id);
    }
  }
}
