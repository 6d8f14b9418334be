/**
 The worker executor (Worker::ExecutorLoop, src/astra/server/worker.hpp) as a transition
 system. Each worker owns a shard, a command queue, a cross-worker reply queue and a client
 reply queue; one queue entry is processed per step and workers interleave freely.
 Queues are FIFO per producer only.
 */
module Executor {
  import opened Common
  import opened Commands
  import opened TransactionStore
  import Routing

  datatype Cell = Cell(value: string, version: nat)

  type Shard = map<string, Cell>

  /**
   `route(w, key)` is RouteToWorker as worker `w` computes it; `routed` is "the routing strategy
   is not kNone"; `apply` is the effect and reply of a command that touches only its first key;
   `keyless` is the reply of any other command.
   */
  datatype Config = Config(workers: nat,
                           route: (nat, string) -> nat,
                           kind: string -> Kind,
                           routed: string -> bool,
                           apply: (Command, Option<Cell>) -> (Option<Cell>, string),
                           keyless: Command -> string)

  /** The configuration of `workers` workers that hash keys with `hash`. */
  function ServerConfig(workers: nat, hash: string -> nat, routed: string -> bool,
                        apply: (Command, Option<Cell>) -> (Option<Cell>, string),
                        keyless: Command -> string): Config
    requires workers > 0
  {
    Config(workers,
           (w, key) => Routing.RouteToWorker(hash, workers, w, key),
           name => KindOf(name),
           name => KindOf(name).Data? && routed(name),
           apply, keyless)
  }

  /** The key is routed alike by every worker. */
  predicate RoutedAlike(cfg: Config, key: string) {
    key != "" || cfg.workers == 1
  }

  /** What the proofs use of routing and registration. */
  ghost predicate ValidConfig(cfg: Config) {
    && cfg.workers > 0
    && (forall w: nat, key: string :: cfg.route(w, key) < cfg.workers)
    && (forall w: nat, key: string | w < cfg.workers && RoutedAlike(cfg, key) ::
          cfg.route(w, key) == cfg.route(0, key))
    && (forall name: string | !cfg.kind(name).Data? :: !cfg.routed(name))
  }

  lemma ServerConfigIsValid(workers: nat, hash: string -> nat, routed: string -> bool,
                            apply: (Command, Option<Cell>) -> (Option<Cell>, string),
                            keyless: Command -> string)
    requires workers > 0
    ensures ValidConfig(ServerConfig(workers, hash, routed, apply, keyless))
  {
    var cfg := ServerConfig(workers, hash, routed, apply, keyless);
    forall w: nat, key: string | w < workers && RoutedAlike(cfg, key)
      ensures cfg.route(w, key) == cfg.route(0, key)
    {
      Routing.RouteIsConsistent(hash, workers, key);
    }
  }

  datatype Reply = Text(text: string) | NullArray | ExecArray(items: seq<string>)

  const QUEUED: string := "+QUEUED"
  const OK: string := "+OK"
  const CROSSSLOT_COMMAND: string := "-CROSSSLOT transaction commands must stay on one worker"
  const CROSSSLOT_WATCH: string := "-CROSSSLOT WATCH keys must stay on one worker"

  // ----- One store -----

  /** The key a command is routed by, if it is routed at all. */
  function KeyOf(cfg: Config, cmd: Command): Option<string> {
    if cfg.routed(cmd.name) && cmd.args != [] && IsText(cmd.args[0])
    then Some(cmd.args[0].value) else None
  }

  predicate FirstKeyLocal(cfg: Config, w: nat, cmd: Command)
  {
    KeyOf(cfg, cmd).Some? ==> cfg.route(w, KeyOf(cfg, cmd).value) == w
  }

  predicate WatchKeysLocal(cfg: Config, w: nat, cmd: Command)
  {
    forall i | 0 <= i < |cmd.args| && IsText(cmd.args[i]) :: cfg.route(w, cmd.args[i].value) == w
  }

  /** DataShard::Execute of a data command: the new store and the reply. */
  function Execute(cfg: Config, shard: Shard, cmd: Command): (Shard, string) {
    match KeyOf(cfg, cmd)
    case None => (shard, cfg.keyless(cmd))
    case Some(key) =>
      var (cell, reply) := cfg.apply(cmd, Get(shard, key));
      (Put(shard, key, cell), reply)
  }

  function Version(shard: Shard, key: string): nat {
    if key in shard then shard[key].version else 0
  }

  // ----- Transactions on one worker -----

  /** The body of EXEC: run the queued commands in order, one array item each. */
  function ExecAll(cfg: Config, w: nat, shard: Shard, queue: seq<Command>): (Shard, seq<string>)
  {
    if queue == [] then (shard, [])
    else
      var (sh, items) := ExecAll(cfg, w, shard, queue[..|queue| - 1]);
      var cmd := queue[|queue| - 1];
      if !FirstKeyLocal(cfg, w, cmd) then (sh, items + [CROSSSLOT_COMMAND])
      else
        var (sh', reply) := Execute(cfg, sh, cmd);
        (sh', items + [reply])
  }

  /** The same as the loop of the executor. */
  method ExecuteQueued(cfg: Config, w: nat, shard: Shard, queue: seq<Command>)
    returns (after: Shard, items: seq<string>)
    ensures (after, items) == ExecAll(cfg, w, shard, queue)
    ensures |items| == |queue|
  {
    after, items := shard, [];
    for i := 0 to |queue|
      invariant (after, items) == ExecAll(cfg, w, shard, queue[..i]) && |items| == i
    {
      assert queue[..i + 1][..i] == queue[..i];
      if FirstKeyLocal(cfg, w, queue[i]) {
        var (next, reply) := Execute(cfg, after, queue[i]);
        after, items := next, items + [reply];
      } else {
        items := items + [CROSSSLOT_COMMAND];
      }
    }
    assert queue[..|queue|] == queue;
  }

  function WatchAll(tx: States, shard: Shard, c: nat, args: seq<CommandArg>): States {
    if args == [] then tx
    else
      var rest := WatchAll(tx, shard, c, args[..|args| - 1]);
      var arg := args[|args| - 1];
      if arg.kind.BulkString? then Watch(rest, c, arg.value, Version(shard, arg.value)) else rest
  }

  /** The registered handlers of MULTI, EXEC (outside MULTI), DISCARD, WATCH and UNWATCH. */
  function RunControl(cfg: Config, tx: States, shard: Shard, c: nat, cmd: Command): (States, string) {
    if cfg.kind(cmd.name).WatchCommand? then
      if cmd.args == [] then (tx, "-ERR wrong number of arguments for 'WATCH' command")
      else if View(tx, c).inTransaction then (tx, "-ERR WATCH inside MULTI is not allowed")
      else (WatchAll(tx, shard, c, cmd.args), OK)
    else if cmd.args != [] then (tx, "-ERR wrong number of arguments")
    else if cfg.kind(cmd.name).Multi? then
      if View(tx, c).inTransaction then (tx, "-ERR MULTI calls can not be nested")
      else (Begin(tx, c), OK)
    else if cfg.kind(cmd.name).DiscardCommand? then
      if !View(tx, c).inTransaction then (tx, "-ERR DISCARD without MULTI")
      else (Discard(tx, c), OK)
    else if cfg.kind(cmd.name).UnwatchCommand? then (Unwatch(tx, c), OK)
    else (tx, "-ERR EXEC without MULTI")
  }

  // ----- One worker processing one queue entry -----

  datatype Outcome =
    | Ran(reply: string)
    | RanForwarded(reply: string)
    | Control(reply: string)
    | Queued
    | CrossSlot(reply: string)
    | Aborted
    | Executed(cmds: seq<Command>, items: seq<string>)
    | Forwarded(target: nat)
    | Closed

  /** `id` numbers client commands in order of arrival; the code itself routes by connection and source only. */
  datatype Item = Item(id: nat, conn: nat, cmd: Command, forwarded: bool, source: nat)

  datatype Effect = Effect(shard: Shard, tx: States, outcome: Outcome)

  function Process(cfg: Config, w: nat, shard: Shard, tx: States, it: Item): (e: Effect)
    ensures !e.outcome.Closed?
    ensures e.outcome.Forwarded? ==>
              && !it.forwarded
              && KeyOf(cfg, it.cmd).Some?
              && e.outcome.target == cfg.route(w, KeyOf(cfg, it.cmd).value) != w
  {
    var cmd := it.cmd;
    if it.forwarded then
      var (sh, reply) := Execute(cfg, shard, cmd);
      Effect(sh, tx, RanForwarded(reply))
    else
      var inTransaction := View(tx, it.conn).inTransaction;
      if inTransaction && cfg.kind(cmd.name).Data? then
        if !FirstKeyLocal(cfg, w, cmd) then Effect(shard, tx, CrossSlot(CROSSSLOT_COMMAND))
        else Effect(shard, Enqueue(tx, it.conn, cmd), Queued)
      else if cfg.kind(cmd.name).WatchCommand? && !WatchKeysLocal(cfg, w, cmd) then
        Effect(shard, tx, CrossSlot(CROSSSLOT_WATCH))
      else if cfg.kind(cmd.name).ExecCommand? && inTransaction then
        if Modified(tx, it.conn, key => Version(shard, key)) then
          Effect(shard, Discard(tx, it.conn), Aborted)
        else
          var queue := View(tx, it.conn).queue;
          var (sh, items) := ExecAll(cfg, w, shard, queue);
          Effect(sh, Discard(tx, it.conn), Executed(queue, items))
      else if !cfg.kind(cmd.name).Data? then
        var (tx', reply) := RunControl(cfg, tx, shard, it.conn, cmd);
        Effect(shard, tx', Control(reply))
      else
        var key := KeyOf(cfg, cmd);
        var target := if key.Some? then cfg.route(w, key.value) else w;
        if target == w then
          var (sh, reply) := Execute(cfg, shard, cmd);
          Effect(sh, tx, Ran(reply))
        else Effect(shard, tx, Forwarded(target))
  }

  // ----- The system -----

  datatype Response = Response(id: nat, conn: nat, reply: Reply, producer: nat)

  datatype Worker = Worker(shard: Shard, tx: States, cmds: seq<Item>,
                           crossReplies: seq<Response>, replies: seq<Response>,
                           handed: seq<Response>)

  datatype Client = Client(worker: nat, conn: nat, cmd: Command)

  datatype Event = Event(worker: nat, id: nat, conn: nat, cmd: Command, outcome: Outcome)

  /** `accepted` and `trace` are history: what clients sent and what was processed, in order. */
  datatype Sys = Sys(ws: seq<Worker>, accepted: seq<Client>, trace: seq<Event>)

  datatype Step =
    | Accept(w: nat, conn: nat, cmd: Command)
    | Exec(w: nat, i: nat)
    | Cross(w: nat, i: nat)
    | Hand(w: nat)
    | Close(w: nat, conn: nat)

  function Init(cfg: Config): Sys {
    Sys(seq(cfg.workers, _ => Worker(map[], map[], [], [], [], [])), [], [])
  }

  /** The IO thread is producer 0 of a command queue; executor `v` is producer `v + 1`. */
  function Producer(it: Item): nat {
    if it.forwarded then it.source + 1 else 0
  }

  predicate Enabled(cfg: Config, s: Sys, st: Step) {
    st.w < |s.ws| &&
    match st
    case Accept(_, _, _) => true
    case Exec(w, i) =>
      && i < |s.ws[w].cmds|
      && forall j | 0 <= j < i :: Producer(s.ws[w].cmds[j]) != Producer(s.ws[w].cmds[i])
    case Cross(w, i) =>
      && i < |s.ws[w].crossReplies|
      && forall j | 0 <= j < i :: s.ws[w].crossReplies[j].producer != s.ws[w].crossReplies[i].producer
    case Hand(w) => |s.ws[w].replies| > 0
    case Close(_, _) => true
  }

  /** What the client is answered, if the outcome answers it on this step. */
  function Answer(o: Outcome): Option<Reply> {
    match o
    case Ran(r) => Some(Text(r))
    case RanForwarded(r) => Some(Text(r))
    case Control(r) => Some(Text(r))
    case Queued => Some(Text(QUEUED))
    case CrossSlot(r) => Some(Text(r))
    case Aborted => Some(NullArray)
    case Executed(_, items) => Some(ExecArray(items))
    case Forwarded(_) => None
    case Closed => None
  }

  /** Where the result of processing `it` at worker `w` goes. */
  function Deliver(ws: seq<Worker>, w: nat, it: Item, o: Outcome): seq<Worker>
    requires w < |ws|
  {
    match o
    case Forwarded(target) =>
      if target < |ws| then
        ws[target := ws[target].(cmds := ws[target].cmds + [Item(it.id, it.conn, it.cmd, true, w)])]
      else ws
    case _ =>
      var to := if it.forwarded then it.source else w;
      if to < |ws| && Answer(o).Some? then
        var resp := Response(it.id, it.conn, Answer(o).value, w);
        if it.forwarded then ws[to := ws[to].(crossReplies := ws[to].crossReplies + [resp])]
        else ws[to := ws[to].(replies := ws[to].replies + [resp])]
      else ws
  }

  function Take(ws: seq<Worker>, w: nat, i: nat, e: Effect): (r: seq<Worker>)
    requires w < |ws| && i < |ws[w].cmds|
    ensures |r| == |ws|
  {
    ws[w := ws[w].(shard := e.shard, tx := e.tx, cmds := RemoveAt(ws[w].cmds, i))]
  }

  /** The state after worker `w` processed entry `i` of its queue with effect `e`. */
  function Processed(s: Sys, w: nat, i: nat, e: Effect): (r: Sys)
    requires w < |s.ws| && i < |s.ws[w].cmds|
    ensures |r.ws| == |s.ws|
  {
    var it := s.ws[w].cmds[i];
    Sys(Deliver(Take(s.ws, w, i, e), w, it, e.outcome), s.accepted,
        s.trace + [Event(w, it.id, it.conn, it.cmd, e.outcome)])
  }

  function Accepted(s: Sys, w: nat, conn: nat, cmd: Command): Sys
    requires w < |s.ws|
  {
    var it := Item(|s.accepted|, conn, cmd, false, w);
    s.(ws := s.ws[w := s.ws[w].(cmds := s.ws[w].cmds + [it])],
       accepted := s.accepted + [Client(w, conn, cmd)])
  }

  function Crossed(s: Sys, w: nat, i: nat): Sys
    requires w < |s.ws| && i < |s.ws[w].crossReplies|
  {
    var wk := s.ws[w];
    s.(ws := s.ws[w := wk.(crossReplies := RemoveAt(wk.crossReplies, i),
                           replies := wk.replies + [wk.crossReplies[i]])])
  }

  function Handed(s: Sys, w: nat): Sys
    requires w < |s.ws| && |s.ws[w].replies| > 0
  {
    var wk := s.ws[w];
    s.(ws := s.ws[w := wk.(replies := RemoveAt(wk.replies, 0), handed := wk.handed + [wk.replies[0]])])
  }

  function ConnectionClosed(s: Sys, w: nat, conn: nat): Sys
    requires w < |s.ws|
  {
    s.(ws := s.ws[w := s.ws[w].(tx := Update(s.ws[w].tx, conn, IDLE))],
       trace := s.trace + [Event(w, 0, conn, Command("", []), Closed)])
  }

  function Next(cfg: Config, s: Sys, st: Step): (r: Sys)
    requires Enabled(cfg, s, st)
    ensures |r.ws| == |s.ws|
  {
    match st
    case Accept(w, conn, cmd) => Accepted(s, w, conn, cmd)
    case Exec(w, i) =>
      Processed(s, w, i, Process(cfg, w, s.ws[w].shard, s.ws[w].tx, s.ws[w].cmds[i]))
    case Cross(w, i) => Crossed(s, w, i)
    case Hand(w) => Handed(s, w)
    case Close(w, conn) => ConnectionClosed(s, w, conn)
  }

  // ----- Runs -----

  ghost predicate IsRun(cfg: Config, steps: seq<Step>)
    decreases |steps|, 0
  {
    steps == [] ||
    (var init := steps[..|steps| - 1];
     IsRun(cfg, init) && Enabled(cfg, After(cfg, init), steps[|steps| - 1]))
  }

  /** The state reached by a run. */
  ghost function After(cfg: Config, steps: seq<Step>): (s: Sys)
    requires IsRun(cfg, steps)
    ensures |s.ws| == cfg.workers
    decreases |steps|, 1
  {
    if steps == [] then Init(cfg)
    else Next(cfg, After(cfg, steps[..|steps| - 1]), steps[|steps| - 1])
  }
}
