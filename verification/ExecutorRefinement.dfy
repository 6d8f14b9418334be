/**
 Sharding refines one store: the commands of any run, in execution order, get the replies of one store,
 and each key is held by its own worker as that store holds it.
 */
module ExecutorRefinement {
  import opened Common
  import opened Commands
  import opened TransactionStore
  import opened Executor
  import opened OneStore
  import Replies = ExecutorReplies

  function Runs(e: Event): seq<Run> {
    match e.outcome
    case Ran(reply) => [Run(e.cmd, reply)]
    case RanForwarded(reply) => [Run(e.cmd, reply)]
    case Executed(cmds, items) => Zip(cmds, items)
    case _ => []
  }

  /** Every executed command of a trace, in execution order over all workers. */
  function History(trace: seq<Event>): seq<Run> {
    if trace == [] then [] else History(trace[..|trace| - 1]) + Runs(trace[|trace| - 1])
  }

  // ----- Shards against the one store -----

  /** The keys that live at worker `w`. */
  function AtHome(cfg: Config, w: nat): string -> bool { (key: string) => cfg.route(0, key) == w }

  ghost predicate Sim(cfg: Config, runs: seq<Run>, shards: seq<Shard>) {
    && |shards| == cfg.workers && Legal(cfg, runs)
    && forall w | 0 <= w < |shards| :: Agrees(cfg, runs, shards[w], AtHome(cfg, w))
  }

  /** The command's key, if any, is routed alike by every worker. */
  ghost predicate Unambiguous(cfg: Config, cmd: Command) {
    forall key | Touches(cfg, cmd, key) :: RoutedAlike(cfg, key)
  }

  ghost predicate LocalCommand(cfg: Config, w: nat, cmd: Command) {
    Unambiguous(cfg, cmd) && FirstKeyLocal(cfg, w, cmd)
  }

  lemma LocalRunsOn(cfg: Config, w: nat, cmd: Command)
    requires ValidConfig(cfg) && w < cfg.workers && LocalCommand(cfg, w, cmd)
    ensures RunsOn(cfg, w, AtHome(cfg, w), cmd)
  {
    forall key | Touches(cfg, cmd, key) ensures AtHome(cfg, w)(key) {
      assert KeyOf(cfg, cmd) == Some(key) && RoutedAlike(cfg, key);
    }
  }

  lemma RunOne(cfg: Config, runs: seq<Run>, shards: seq<Shard>, w: nat, cmd: Command)
    requires ValidConfig(cfg) && Sim(cfg, runs, shards) && w < cfg.workers && LocalCommand(cfg, w, cmd)
    ensures var (sh, reply) := Execute(cfg, shards[w], cmd);
            Sim(cfg, runs + [Run(cmd, reply)], shards[w := sh])
  {
    var (sh, reply) := Execute(cfg, shards[w], cmd);
    LocalRunsOn(cfg, w, cmd);
    ExecuteAgrees(cfg, runs, shards[w], AtHome(cfg, w), cmd);
    Push(cfg, runs, Run(cmd, reply), "");
    forall v | 0 <= v < |shards| && v != w
      ensures Agrees(cfg, runs + [Run(cmd, reply)], shards[v], AtHome(cfg, v))
    {
      assert forall key | Touches(cfg, cmd, key) :: AtHome(cfg, w)(key) && !AtHome(cfg, v)(key);
      OthersAgree(cfg, runs, Run(cmd, reply), shards[v], AtHome(cfg, v));
    }
  }

  lemma BlockElsewhere(
      cfg: Config, runs: seq<Run>, shard: Shard, w: nat, v: nat, queue: seq<Command>, items: seq<string>)
    requires v != w && |items| == |queue| && forall cmd | cmd in queue :: RunsOn(cfg, w, AtHome(cfg, w), cmd)
    requires Agrees(cfg, runs, shard, AtHome(cfg, v))
    ensures Agrees(cfg, runs + Zip(queue, items), shard, AtHome(cfg, v))
  {
    var more := Zip(queue, items);
    ZipIs(queue, items);
    forall i, key | 0 <= i < |more| && Touches(cfg, more[i].cmd, key) ensures !AtHome(cfg, v)(key) {
      assert RunsOn(cfg, w, AtHome(cfg, w), queue[i]) && AtHome(cfg, w)(key);
    }
    OthersAgreeAll(cfg, runs, more, shard, AtHome(cfg, v));
  }

  /** One shard moved on, the others agree as they are. */
  lemma SimMoves(cfg: Config, runs: seq<Run>, shards: seq<Shard>, w: nat, sh: Shard)
    requires |shards| == cfg.workers && w < |shards| && Legal(cfg, runs) && Agrees(cfg, runs, sh, AtHome(cfg, w))
    requires forall v | 0 <= v < |shards| && v != w :: Agrees(cfg, runs, shards[v], AtHome(cfg, v))
    ensures Sim(cfg, runs, shards[w := sh])
  {
  }

  /** EXEC runs its block on the one store too, one item per command. */
  lemma RunBlock(cfg: Config, runs: seq<Run>, shards: seq<Shard>, w: nat, queue: seq<Command>)
    requires ValidConfig(cfg) && Sim(cfg, runs, shards) && w < cfg.workers
    requires forall cmd | cmd in queue :: LocalCommand(cfg, w, cmd)
    ensures var (sh, items) := ExecAll(cfg, w, shards[w], queue);
            && |items| == |queue|
            && Sim(cfg, runs + Zip(queue, items), shards[w := sh])
  {
    var (sh, items) := ExecAll(cfg, w, shards[w], queue);
    forall cmd | cmd in queue ensures RunsOn(cfg, w, AtHome(cfg, w), cmd) {
      LocalRunsOn(cfg, w, cmd);
    }
    BlockAgrees(cfg, runs, w, shards[w], AtHome(cfg, w), queue);
    var after := runs + Zip(queue, items);
    forall v | 0 <= v < |shards| && v != w ensures Agrees(cfg, after, shards[v], AtHome(cfg, v)) {
      BlockElsewhere(cfg, runs, shards[v], w, v, queue, items);
    }
    SimMoves(cfg, after, shards, w, sh);
  }

  // ----- Queued transactions stay local -----

  /** Every command queued by any connection of a worker satisfies `p`. */
  ghost predicate QueuesSatisfy(tx: States, p: Command -> bool) {
    forall c: nat, cmd | cmd in View(tx, c).queue :: p(cmd)
  }

  lemma {:induction false} WatchAllKeepsQueues(tx: States, shard: Shard, c: nat, args: seq<CommandArg>, d: nat)
    ensures var r := View(WatchAll(tx, shard, c, args), d);
            r.queue == View(tx, d).queue && r.inTransaction == View(tx, d).inTransaction
  {
    if args != [] {
      WatchAllKeepsQueues(tx, shard, c, args[..|args| - 1], d);
    }
  }

  lemma ControlQueues(cfg: Config, tx: States, shard: Shard, c: nat, cmd: Command, p: Command -> bool)
    requires QueuesSatisfy(tx, p)
    ensures QueuesSatisfy(RunControl(cfg, tx, shard, c, cmd).0, p)
  {
    var tx' := RunControl(cfg, tx, shard, c, cmd).0;
    forall d: nat, x | x in View(tx', d).queue ensures p(x) {
      WatchAllKeepsQueues(tx, shard, c, cmd.args, d);
      assert x in View(tx, d).queue;
    }
  }

  lemma CloseQueues(tx: States, conn: nat, p: Command -> bool)
    requires QueuesSatisfy(tx, p)
    ensures QueuesSatisfy(Update(tx, conn, IDLE), p)
  {
    forall d: nat, x | x in View(Update(tx, conn, IDLE), d).queue ensures p(x) {
      assert x in View(tx, d).queue;
    }
  }

  lemma EnqueueQueues(tx: States, c: nat, cmd: Command, p: Command -> bool)
    requires QueuesSatisfy(tx, p) && p(cmd)
    ensures QueuesSatisfy(Enqueue(tx, c, cmd), p)
  {
    forall d: nat, x | x in View(Enqueue(tx, c, cmd), d).queue ensures p(x) {
      if x !in View(tx, d).queue { assert x == cmd; }
    }
  }

  lemma ProcessStates(cfg: Config, w: nat, shard: Shard, tx: States, it: Item)
    ensures var tx' := Process(cfg, w, shard, tx, it).tx;
            || tx' == tx
            || (FirstKeyLocal(cfg, w, it.cmd) && tx' == Enqueue(tx, it.conn, it.cmd))
            || tx' == Update(tx, it.conn, IDLE)
            || tx' == RunControl(cfg, tx, shard, it.conn, it.cmd).0
  {
    var inTransaction, kind := View(tx, it.conn).inTransaction, cfg.kind(it.cmd.name);
    if it.forwarded {
    } else if inTransaction && kind.Data? {
    } else if kind.WatchCommand? && !WatchKeysLocal(cfg, w, it.cmd) {
    } else if kind.ExecCommand? && inTransaction {
      assert Process(cfg, w, shard, tx, it).tx == Discard(tx, it.conn);
    }
  }

  lemma ProcessQueues(cfg: Config, w: nat, shard: Shard, tx: States, it: Item, p: Command -> bool)
    requires QueuesSatisfy(tx, p) && (FirstKeyLocal(cfg, w, it.cmd) ==> p(it.cmd))
    ensures QueuesSatisfy(Process(cfg, w, shard, tx, it).tx, p)
  {
    ProcessStates(cfg, w, shard, tx, it);
    ControlQueues(cfg, tx, shard, it.conn, it.cmd, p);
    CloseQueues(tx, it.conn, p);
    if FirstKeyLocal(cfg, w, it.cmd) {
      EnqueueQueues(tx, it.conn, it.cmd, p);
    }
  }

  ghost predicate QueuesLocal(cfg: Config, w: nat, tx: States) {
    QueuesSatisfy(tx, cmd => LocalCommand(cfg, w, cmd))
  }

  // ----- Whole runs -----

  function Shards(ws: seq<Worker>): seq<Shard> {
    seq(|ws|, i requires 0 <= i < |ws| => ws[i].shard)
  }

  ghost predicate Inv(cfg: Config, s: Sys)
  {
    && |s.ws| == cfg.workers
    && Sim(cfg, History(s.trace), Shards(s.ws))
    && (forall w | 0 <= w < |s.ws| :: QueuesLocal(cfg, w, s.ws[w].tx))
    && (forall k | 0 <= k < |s.accepted| :: Unambiguous(cfg, s.accepted[k].cmd))
  }

  lemma PushEvent(trace: seq<Event>, e: Event)
    ensures History(trace + [e]) == History(trace) + Runs(e)
  {
    assert (trace + [e])[..|trace|] == trace;
  }

  /** How the effect of an entry shows on the shard: a command run here, an EXEC block, or nothing. */
  predicate RunsHere(cfg: Config, w: nat, shard: Shard, tx: States, it: Item, e: Effect) {
    match e.outcome
    case Ran(reply) => FirstKeyLocal(cfg, w, it.cmd) && (e.shard, reply) == Execute(cfg, shard, it.cmd)
    case RanForwarded(reply) => it.forwarded && (e.shard, reply) == Execute(cfg, shard, it.cmd)
    case Executed(cmds, items) =>
      cmds == View(tx, it.conn).queue && (e.shard, items) == ExecAll(cfg, w, shard, cmds)
    case _ => e.shard == shard
  }

  lemma ProcessRunsHere(cfg: Config, w: nat, shard: Shard, tx: States, it: Item)
    ensures RunsHere(cfg, w, shard, tx, it, Process(cfg, w, shard, tx, it))
  {
  }

  /** One processed entry keeps the simulation. */
  lemma ProcessSim(cfg: Config, runs: seq<Run>, shards: seq<Shard>, w: nat, tx: States, it: Item, e: Effect)
    requires ValidConfig(cfg) && Sim(cfg, runs, shards) && w < cfg.workers
    requires RunsHere(cfg, w, shards[w], tx, it, e)
    requires QueuesLocal(cfg, w, tx) && Unambiguous(cfg, it.cmd)
    requires it.forwarded ==> FirstKeyLocal(cfg, w, it.cmd)
    ensures Sim(cfg, runs + Runs(Event(w, it.id, it.conn, it.cmd, e.outcome)), shards[w := e.shard])
  {
    if e.outcome.Ran? || e.outcome.RanForwarded? {
      RunOne(cfg, runs, shards, w, it.cmd);
    } else if e.outcome.Executed? {
      var p := cmd => LocalCommand(cfg, w, cmd);
      forall cmd | cmd in View(tx, it.conn).queue ensures LocalCommand(cfg, w, cmd) {
        assert p(cmd);
      }
      RunBlock(cfg, runs, shards, w, View(tx, it.conn).queue);
    } else {
      assert runs + Runs(Event(w, it.id, it.conn, it.cmd, e.outcome)) == runs;
      assert shards[w := e.shard] == shards;
    }
  }

  lemma DeliverShards(ws: seq<Worker>, w: nat, it: Item, o: Outcome)
    requires w < |ws|
    ensures |Deliver(ws, w, it, o)| == |ws|
    ensures forall v | 0 <= v < |ws| ::
              Deliver(ws, w, it, o)[v].shard == ws[v].shard && Deliver(ws, w, it, o)[v].tx == ws[v].tx
  {
  }

  lemma ExecKeepsInv(cfg: Config, s: Sys, w: nat, i: nat, e: Effect)
    requires ValidConfig(cfg) && Inv(cfg, s) && Replies.Addressed(cfg, s)
    requires w < |s.ws| && i < |s.ws[w].cmds|
    requires RunsHere(cfg, w, s.ws[w].shard, s.ws[w].tx, s.ws[w].cmds[i], e)
    requires QueuesLocal(cfg, w, e.tx)
    ensures Inv(cfg, Processed(s, w, i, e))
  {
    var wk, it := s.ws[w], s.ws[w].cmds[i];
    assert Replies.ItemOk(cfg, s.accepted, w, it);
    assert Unambiguous(cfg, s.accepted[it.id].cmd);
    var s' := Processed(s, w, i, e);
    ProcessSim(cfg, History(s.trace), Shards(s.ws), w, wk.tx, it, e);
    PushEvent(s.trace, Event(w, it.id, it.conn, it.cmd, e.outcome));
    DeliverShards(Take(s.ws, w, i, e), w, it, e.outcome);
    assert Shards(s'.ws) == Shards(s.ws)[w := e.shard];
  }

  lemma ExecStepKeepsInv(cfg: Config, s: Sys, w: nat, i: nat)
    requires ValidConfig(cfg) && Inv(cfg, s) && Replies.Addressed(cfg, s)
    requires w < |s.ws| && i < |s.ws[w].cmds|
    ensures Inv(cfg, Processed(s, w, i, Process(cfg, w, s.ws[w].shard, s.ws[w].tx, s.ws[w].cmds[i])))
  {
    var wk, it := s.ws[w], s.ws[w].cmds[i];
    assert Replies.ItemOk(cfg, s.accepted, w, it);
    assert Unambiguous(cfg, s.accepted[it.id].cmd);
    ProcessRunsHere(cfg, w, wk.shard, wk.tx, it);
    ProcessQueues(cfg, w, wk.shard, wk.tx, it, cmd => LocalCommand(cfg, w, cmd));
    ExecKeepsInv(cfg, s, w, i, Process(cfg, w, wk.shard, wk.tx, it));
  }

  lemma NothingAdded(runs: seq<Run>)
    ensures runs + [] == runs
  {
  }

  lemma RunsNothing(trace: seq<Event>, e: Event)
    requires Runs(e) == []
    ensures History(trace + [e]) == History(trace)
  {
    PushEvent(trace, e);
    NothingAdded(History(trace));
  }

  /** What runs nothing and queues nothing new keeps the invariant. */
  lemma SameRuns(cfg: Config, s: Sys, s': Sys)
    requires Inv(cfg, s) && History(s'.trace) == History(s.trace) && Shards(s'.ws) == Shards(s.ws)
    requires s'.accepted == s.accepted && |s'.ws| == |s.ws|
    requires forall w | 0 <= w < |s'.ws| :: QueuesLocal(cfg, w, s'.ws[w].tx)
    ensures Inv(cfg, s')
  {
  }

  lemma CloseLocal(cfg: Config, w: nat, tx: States, conn: nat)
    requires QueuesLocal(cfg, w, tx)
    ensures QueuesLocal(cfg, w, Update(tx, conn, IDLE))
  {
    CloseQueues(tx, conn, cmd => LocalCommand(cfg, w, cmd));
  }

  lemma CloseShards(ws: seq<Worker>, w: nat, tx: States)
    requires w < |ws|
    ensures Shards(ws[w := ws[w].(tx := tx)]) == Shards(ws)
  {
  }

  lemma CloseKeepsInv(cfg: Config, s: Sys, w: nat, conn: nat)
    requires Inv(cfg, s) && w < |s.ws|
    ensures Inv(cfg, ConnectionClosed(s, w, conn))
  {
    RunsNothing(s.trace, Event(w, 0, conn, Command("", []), Closed));
    CloseShards(s.ws, w, Update(s.ws[w].tx, conn, IDLE));
    CloseLocal(cfg, w, s.ws[w].tx, conn);
    SameRuns(cfg, s, ConnectionClosed(s, w, conn));
  }

  /** Every command clients send in the run has a key all workers route alike. */
  ghost predicate AllUnambiguous(cfg: Config, steps: seq<Step>) {
    forall k | 0 <= k < |steps| && steps[k].Accept? :: Unambiguous(cfg, steps[k].cmd)
  }

  lemma {:induction false} RunKeepsInv(cfg: Config, steps: seq<Step>)
    requires ValidConfig(cfg) && IsRun(cfg, steps) && AllUnambiguous(cfg, steps)
    ensures Inv(cfg, After(cfg, steps))
    decreases |steps|
  {
    if steps != [] {
      var init, st := steps[..|steps| - 1], steps[|steps| - 1];
      forall k | 0 <= k < |init| && init[k].Accept? ensures Unambiguous(cfg, init[k].cmd) {
        assert init[k] == steps[k];
      }
      RunKeepsInv(cfg, init);
      Replies.RunInvariant(cfg, init);
      var s := After(cfg, init);
      var s' := Next(cfg, s, st);
      match st {
        case Exec(w, i) => ExecStepKeepsInv(cfg, s, w, i);
        case Close(w, conn) => CloseKeepsInv(cfg, s, w, conn);
        case Accept(w, conn, cmd) =>
          assert steps[|steps| - 1].Accept?;
          assert Shards(s'.ws) == Shards(s.ws);
        case _ =>
          assert Shards(s'.ws) == Shards(s.ws);
      }
    }
  }

  /** Every key is held by the worker it is routed to, as the one store holds it, and by no other. */
  ghost predicate HeldAtHome(cfg: Config, runs: seq<Run>, shards: seq<Shard>) {
    forall w, key | 0 <= w < |shards| ::
      SameCell(shards[w], key, if cfg.route(0, key) == w then CellOf(cfg, runs, key) else None)
  }

  lemma SimHolds(cfg: Config, runs: seq<Run>, shards: seq<Shard>)
    requires Sim(cfg, runs, shards)
    ensures HeldAtHome(cfg, runs, shards)
  {
    forall w, key | 0 <= w < |shards|
      ensures SameCell(shards[w], key, if cfg.route(0, key) == w then CellOf(cfg, runs, key) else None)
    {
      assert Agrees(cfg, runs, shards[w], AtHome(cfg, w));
      assert SameCell(shards[w], key, if AtHome(cfg, w)(key) then CellOf(cfg, runs, key) else None);
    }
  }

  /**
   Sharding refines one store, for every interleaving: the executed commands, forwarded or local or
   inside EXEC, get the replies of one store, and every key is held by the one worker it is routed
   to, as that store holds it, and by no other.
   */
  lemma ShardingRefinesOneStore(cfg: Config, steps: seq<Step>)
    requires ValidConfig(cfg) && IsRun(cfg, steps) && AllUnambiguous(cfg, steps)
    ensures var s := After(cfg, steps);
            Legal(cfg, History(s.trace)) && HeldAtHome(cfg, History(s.trace), Shards(s.ws))
  {
    RunKeepsInv(cfg, steps);
    var s := After(cfg, steps);
    SimHolds(cfg, History(s.trace), Shards(s.ws));
  }

  // ----- The empty key -----

  /** `a` changes what `b` reads, starting from an absent key. */
  predicate Observes(cfg: Config, a: Command, b: Command, key: string) {
    && KeyOf(cfg, a) == Some(key) && KeyOf(cfg, b) == Some(key)
    && cfg.apply(b, cfg.apply(a, None).0).1 != cfg.apply(b, None).1
  }

  /** The first worker runs `a`, the second runs `b`. */
  function EmptyKeyRun(a: Command, b: Command): seq<Step> { Handle(Handle([], 0, a), 1, b) }

  /** A worker receives a command and takes it up. */
  function Handle(steps: seq<Step>, w: nat, cmd: Command): seq<Step> {
    steps + [Accept(w, 0, cmd)] + [Exec(w, 0)]
  }

  lemma Extend(cfg: Config, steps: seq<Step>, st: Step)
    requires IsRun(cfg, steps) && Enabled(cfg, After(cfg, steps), st)
    ensures IsRun(cfg, steps + [st]) && After(cfg, steps + [st]) == Next(cfg, After(cfg, steps), st)
  {
    assert (steps + [st])[..|steps|] == steps;
  }

  /** An idle worker that receives a command it owns runs it in its next step. */
  lemma RunsLocally(cfg: Config, steps: seq<Step>, w: nat, cmd: Command)
    requires ValidConfig(cfg) && IsRun(cfg, steps) && w < cfg.workers
    requires After(cfg, steps).ws[w] == Worker(map[], map[], [], [], [], [])
    requires KeyOf(cfg, cmd).Some? && cfg.route(w, KeyOf(cfg, cmd).value) == w
    ensures IsRun(cfg, Handle(steps, w, cmd))
    ensures var s, s2 := After(cfg, steps), After(cfg, Handle(steps, w, cmd));
            && History(s2.trace) == History(s.trace) + [Run(cmd, cfg.apply(cmd, None).1)]
            && (forall v | 0 <= v < |s.ws| && v != w :: s2.ws[v] == s.ws[v])
  {
    Extend(cfg, steps, Accept(w, 0, cmd));
    Extend(cfg, steps + [Accept(w, 0, cmd)], Exec(w, 0));
    ExecutesFirst(cfg, After(cfg, steps), w, cmd);
  }

  lemma ExecutesFirst(cfg: Config, s: Sys, w: nat, cmd: Command)
    requires ValidConfig(cfg) && |s.ws| == cfg.workers && w < cfg.workers
    requires s.ws[w] == Worker(map[], map[], [], [], [], [])
    requires KeyOf(cfg, cmd).Some? && cfg.route(w, KeyOf(cfg, cmd).value) == w
    ensures Enabled(cfg, Accepted(s, w, 0, cmd), Exec(w, 0))
    ensures var s2 := Next(cfg, Accepted(s, w, 0, cmd), Exec(w, 0));
            && History(s2.trace) == History(s.trace) + [Run(cmd, cfg.apply(cmd, None).1)]
            && (forall v | 0 <= v < |s.ws| && v != w :: s2.ws[v] == s.ws[v])
  {
    var s1 := Accepted(s, w, 0, cmd);
    var it := s1.ws[w].cmds[0];
    var e := Process(cfg, w, s1.ws[w].shard, s1.ws[w].tx, it);
    assert e.outcome == Ran(cfg.apply(cmd, None).1);
    PushEvent(s1.trace, Event(w, it.id, it.conn, it.cmd, e.outcome));
  }

  lemma TwoRunsDiffer(cfg: Config, a: Command, b: Command, key: string)
    requires Observes(cfg, a, b, key)
    ensures !Legal(cfg, [] + [Run(a, cfg.apply(a, None).1)] + [Run(b, cfg.apply(b, None).1)])
  {
    var ra, rb := Run(a, cfg.apply(a, None).1), Run(b, cfg.apply(b, None).1);
    Push(cfg, [], ra, key);
    Push(cfg, [] + [ra], rb, key);
    assert Touches(cfg, a, key) && Touches(cfg, b, key);
  }

  lemma EmptyKeyDiverges(cfg: Config, a: Command, b: Command)
    requires ValidConfig(cfg) && cfg.workers >= 2
    requires cfg.route(0, "") == 0 && cfg.route(1, "") == 1
    requires Observes(cfg, a, b, "")
    ensures IsRun(cfg, EmptyKeyRun(a, b))
    ensures !Legal(cfg, History(After(cfg, EmptyKeyRun(a, b)).trace))
  {
    RunsLocally(cfg, [], 0, a);
    RunsLocally(cfg, Handle([], 0, a), 1, b);
    TwoRunsDiffer(cfg, a, b, "");
  }

  /** The run sends commands on `key` only. */
  predicate OnlyKey(cfg: Config, steps: seq<Step>, key: string) {
    forall k | 0 <= k < |steps| && steps[k].Accept? ::
      KeyOf(cfg, steps[k].cmd).Some? ==> KeyOf(cfg, steps[k].cmd).value == key
  }

  lemma HandleOnlyKey(cfg: Config, steps: seq<Step>, w: nat, cmd: Command, key: string)
    requires OnlyKey(cfg, steps, key) && KeyOf(cfg, cmd) == Some(key)
    ensures OnlyKey(cfg, Handle(steps, w, cmd), key)
  {
  }

  lemma EmptyKeyRunOnlyKey(cfg: Config, a: Command, b: Command, key: string)
    requires KeyOf(cfg, a) == Some(key) && KeyOf(cfg, b) == Some(key)
    ensures OnlyKey(cfg, EmptyKeyRun(a, b), key)
  {
    HandleOnlyKey(cfg, [], 0, a, key);
    HandleOnlyKey(cfg, Handle([], 0, a), 1, b, key);
  }

  /**
   Exactly when sharding refines one store on a key: always, unless the key is empty and there are
   several workers, because every worker routes the empty key to itself.
   */
  lemma RefinementExactlyUnlessEmptyKey(workers: nat, hash: string -> nat, routed: string -> bool,
                                        apply: (Command, Option<Cell>) -> (Option<Cell>, string),
                                        keyless: Command -> string, key: string, a: Command, b: Command)
    requires workers > 0
    requires Observes(ServerConfig(workers, hash, routed, apply, keyless), a, b, key)
    ensures var cfg := ServerConfig(workers, hash, routed, apply, keyless);
            (forall steps | IsRun(cfg, steps) && OnlyKey(cfg, steps, key) ::
               Legal(cfg, History(After(cfg, steps).trace)))
            <==> (key != "" || workers == 1)
  {
    var cfg := ServerConfig(workers, hash, routed, apply, keyless);
    ServerConfigIsValid(workers, hash, routed, apply, keyless);
    if key != "" || workers == 1 {
      forall steps | IsRun(cfg, steps) && OnlyKey(cfg, steps, key)
        ensures Legal(cfg, History(After(cfg, steps).trace))
      {
        ShardingRefinesOneStore(cfg, steps);
      }
    } else {
      EmptyKeyDiverges(cfg, a, b);
      EmptyKeyRunOnlyKey(cfg, a, b, key);
    }
  }
}
