/**
 What a client is sent, end to end: the reply that lies ready for it is the reply of one store to its own
 command, at the moment the command was executed.
 */
module ExecutorClients {
  import opened Executor
  import opened OneStore
  import Refinement = ExecutorRefinement
  import Replies = ExecutorReplies
  import Transactions = ExecutorTransactions

  /** The `i`th command the event ran was answered as one store answers it after everything before. */
  ghost predicate RightAt(cfg: Config, before: seq<Run>, runs: seq<Run>, i: nat)
    requires i < |runs|
  {
    ReplyRight(cfg, before + runs[..i], runs[i])
  }

  /** What one store, having run the commands `before`, has the client sent for this event. */
  ghost predicate FromOneStore(cfg: Config, before: seq<Run>, e: Event, reply: Reply) {
    match e.outcome
    case Ran(_) => reply.Text? && ReplyRight(cfg, before, Run(e.cmd, reply.text))
    case RanForwarded(_) => reply.Text? && ReplyRight(cfg, before, Run(e.cmd, reply.text))
    case Executed(cmds, _) =>
      && reply.ExecArray? && |reply.items| == |cmds| == |Zip(cmds, reply.items)|
      && forall i | 0 <= i < |cmds| ::
           Zip(cmds, reply.items)[i] == Run(cmds[i], reply.items[i]) && RightAt(cfg, before, Zip(cmds, reply.items), i)
    case Queued => reply == Text("+QUEUED")
    case Aborted => reply == NullArray
    case Control(text) => reply == Text(text)
    case CrossSlot(text) => reply == Text(text)
    case _ => false
  }

  /** Event `k` handled the command that `r` answers. */
  ghost predicate AnsweredAt(cfg: Config, sent: seq<Client>, trace: seq<Event>, w: nat, r: Response, k: nat)
    requires k < |trace|
  {
    && trace[k].id == r.id < |sent| && sent[r.id] == Client(w, r.conn, trace[k].cmd)
    && Transactions.OutcomeOk(cfg, trace[..k], trace[k])
    && FromOneStore(cfg, Refinement.History(trace[..k]), trace[k], r.reply)
  }

  /** Every command of event `k` got the reply of the one store. */
  lemma RunsAreRight(cfg: Config, trace: seq<Event>, k: nat, i: nat)
    requires Legal(cfg, Refinement.History(trace)) && k < |trace| && i < |Refinement.Runs(trace[k])|
    ensures RightAt(cfg, Refinement.History(trace[..k]), Refinement.Runs(trace[k]), i)
  {
    var all, before, runs := Refinement.History(trace), Refinement.History(trace[..k]), Refinement.Runs(trace[k]);
    Transactions.BlockInHistory(trace, k);
    Transactions.HistoryPrefix(trace, k + 1);
    LegalAt(cfg, all, |before| + i);
    assert all[..|before| + i] == before + runs[..i];
  }

  lemma SentIsFromOneStore(cfg: Config, trace: seq<Event>, k: nat, reply: Reply)
    requires Legal(cfg, Refinement.History(trace)) && k < |trace|
    requires Transactions.OutcomeOk(cfg, trace[..k], trace[k]) && Replies.SentFor(trace[k].outcome, reply)
    requires trace[k].outcome.Executed? ==> |trace[k].outcome.cmds| == |trace[k].outcome.items|
    ensures FromOneStore(cfg, Refinement.History(trace[..k]), trace[k], reply)
  {
    var e, before := trace[k], Refinement.History(trace[..k]);
    if e.outcome.Ran? || e.outcome.RanForwarded? {
      RunsAreRight(cfg, trace, k, 0);
      assert before + Refinement.Runs(e)[..0] == before;
    } else if e.outcome.Executed? {
      ZipIs(e.outcome.cmds, e.outcome.items);
      forall i | 0 <= i < |e.outcome.cmds| ensures RightAt(cfg, before, Zip(e.outcome.cmds, e.outcome.items), i) {
        RunsAreRight(cfg, trace, k, i);
      }
    }
  }

  ghost predicate OutcomesOk(cfg: Config, trace: seq<Event>) {
    forall k | 0 <= k < |trace| :: Transactions.OutcomeOk(cfg, trace[..k], trace[k])
  }

  lemma AnsweredSomewhere(cfg: Config, sent: seq<Client>, trace: seq<Event>, w: nat, r: Response)
    requires Legal(cfg, Refinement.History(trace)) && OutcomesOk(cfg, trace)
    requires Replies.ResponseOk(sent, trace, w, r)
    requires forall k | 0 <= k < |trace| :: Replies.EventOk(sent, trace[k])
    ensures exists k | 0 <= k < |trace| :: AnsweredAt(cfg, sent, trace, w, r, k)
  {
    var k :| 0 <= k < |trace| && trace[k].id == r.id && Replies.SentFor(trace[k].outcome, r.reply);
    assert Transactions.OutcomeOk(cfg, trace[..k], trace[k]);
    assert Replies.EventOk(sent, trace[k]);
    SentIsFromOneStore(cfg, trace, k, r.reply);
    assert AnsweredAt(cfg, sent, trace, w, r, k);
  }

  /**
   In every run whose keys are routed alike, every reply a worker holds or has handed over answers a
   command that its own client sent, and says what one store says to that command when it is executed.
   */
  lemma ClientsSeeOneStore(cfg: Config, steps: seq<Step>, w: nat, r: Response)
    requires ValidConfig(cfg) && IsRun(cfg, steps) && Refinement.AllUnambiguous(cfg, steps)
    requires w < cfg.workers && Replies.Holds(After(cfg, steps).ws[w], r)
    ensures var trace := After(cfg, steps).trace;
      exists k | 0 <= k < |trace| :: AnsweredAt(cfg, Replies.Requests(steps), trace, w, r, k)
  {
    Replies.ReplyConservation(cfg, steps);
    Refinement.ShardingRefinesOneStore(cfg, steps);
    Transactions.RunKeepsInv(cfg, steps);
    AnsweredSomewhere(cfg, Replies.Requests(steps), After(cfg, steps).trace, w, r);
  }
}
