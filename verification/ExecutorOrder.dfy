/**
 Per-connection order: with queues that are FIFO per producer only, the commands of one connection
 are still processed in the order the client sent them.
 */
module ExecutorOrder {
  import opened Common
  import opened Commands
  import opened Executor
  import Replies = ExecutorReplies
  import Transactions = ExecutorTransactions

  function SentBy(w: nat, c: nat): Client -> seq<Command> {
    (x: Client) => if x.worker == w && x.conn == c then [x.cmd] else []
  }

  function HandledFor(w: nat, c: nat): Event -> seq<Command> {
    (e: Event) => if Transactions.ByClient(e, w, c) && !e.outcome.Closed? then [e.cmd] else []
  }

  function OwnedBy(c: nat): Item -> seq<Command> {
    (it: Item) => if !it.forwarded && it.conn == c then [it.cmd] else []
  }

  /** What connection `c` of worker `w` sent, in order. */
  function Sent(accepted: seq<Client>, w: nat, c: nat): seq<Command> { Collect(accepted, SentBy(w, c)) }

  /** What was processed for that connection, in order. */
  function Handled(trace: seq<Event>, w: nat, c: nat): seq<Command> { Collect(trace, HandledFor(w, c)) }

  /** What is still queued for it. */
  function Pending(q: seq<Item>, c: nat): seq<Command> { Collect(q, OwnedBy(c)) }

  predicate InOrder(s: Sys, w: nat, c: nat)
    requires w < |s.ws|
  {
    Sent(s.accepted, w, c) == Handled(s.trace, w, c) + Pending(s.ws[w].cmds, c)
  }

  lemma AcceptInOrder(s: Sys, w0: nat, conn: nat, cmd: Command, w: nat, c: nat)
    requires w0 < |s.ws| && w < |s.ws| && InOrder(s, w, c)
    ensures InOrder(Accepted(s, w0, conn, cmd), w, c)
  {
    CollectPush(s.accepted, Client(w0, conn, cmd), SentBy(w, c));
    CollectPush(s.ws[w0].cmds, Item(|s.accepted|, conn, cmd, false, w0), OwnedBy(c));
  }

  lemma DeliverPending(ws: seq<Worker>, w0: nat, it: Item, o: Outcome, w: nat, c: nat)
    requires w0 < |ws| && w < |ws|
    ensures Pending(Deliver(ws, w0, it, o)[w].cmds, c) == Pending(ws[w].cmds, c)
  {
    CollectPush(ws[w].cmds, Item(it.id, it.conn, it.cmd, true, w0), OwnedBy(c));
    assert Pending(ws[w].cmds, c) + [] == Pending(ws[w].cmds, c);
  }

  lemma ExecInOrder(s: Sys, w0: nat, i: nat, e: Effect, w: nat, c: nat)
    requires w0 < |s.ws| && w < |s.ws| && InOrder(s, w, c)
    requires i < |s.ws[w0].cmds|
    requires forall j | 0 <= j < i :: Producer(s.ws[w0].cmds[j]) != Producer(s.ws[w0].cmds[i])
    requires !e.outcome.Closed? && (e.outcome.RanForwarded? <==> s.ws[w0].cmds[i].forwarded)
    ensures InOrder(Processed(s, w0, i, e), w, c)
  {
    var it := s.ws[w0].cmds[i];
    var ev := Event(w0, it.id, it.conn, it.cmd, e.outcome);
    DeliverPending(Take(s.ws, w0, i, e), w0, it, e.outcome, w, c);
    CollectPush(s.trace, ev, HandledFor(w, c));
    var own := if w == w0 then OwnedBy(c)(it) else [];
    var rest := Pending(Take(s.ws, w0, i, e)[w].cmds, c);
    assert Pending(s.ws[w].cmds, c) == own + rest by {
      if w == w0 { CollectTake(s.ws[w0].cmds, i, OwnedBy(c)); }
    }
    Assoc(Handled(s.trace, w, c), own, rest);
  }

  lemma Assoc(a: seq<Command>, b: seq<Command>, c: seq<Command>)
    ensures a + (b + c) == (a + b) + c
  {
  }

  lemma StepInOrder(cfg: Config, s: Sys, st: Step, w: nat, c: nat)
    requires Enabled(cfg, s, st) && w < |s.ws| && InOrder(s, w, c)
    ensures InOrder(Next(cfg, s, st), w, c)
  {
    match st
    case Accept(w0, conn, cmd) => AcceptInOrder(s, w0, conn, cmd, w, c);
    case Exec(w0, i) =>
      var wk := s.ws[w0];
      ExecInOrder(s, w0, i, Process(cfg, w0, wk.shard, wk.tx, wk.cmds[i]), w, c);
    case Cross(_, _) =>
    case Hand(_) =>
    case Close(w0, conn) =>
      CollectPush(s.trace, Event(w0, 0, conn, Command("", []), Closed), HandledFor(w, c));
  }

  lemma {:induction false} RunInOrder(cfg: Config, steps: seq<Step>, w: nat, c: nat)
    requires IsRun(cfg, steps) && w < cfg.workers
    ensures InOrder(After(cfg, steps), w, c)
    decreases |steps|
  {
    if steps != [] {
      var init := steps[..|steps| - 1];
      RunInOrder(cfg, init, w, c);
      StepInOrder(cfg, After(cfg, init), steps[|steps| - 1], w, c);
    }
  }

  /** In every run, what was processed for a connection followed by what it still has queued is what it sent. */
  lemma ClientOrderKept(cfg: Config, steps: seq<Step>, w: nat, c: nat)
    requires IsRun(cfg, steps) && w < cfg.workers
    ensures var s := After(cfg, steps);
            Handled(s.trace, w, c) + Pending(s.ws[w].cmds, c) == Sent(Replies.Requests(steps), w, c)
  {
    RunInOrder(cfg, steps, w, c);
    Replies.AcceptedAreRequests(cfg, steps);
  }
}
