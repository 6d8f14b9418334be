/**
 Every answer over every interleaving, told from the history alone: commands inside MULTI are queued, EXEC
 aborts exactly when the version of a watched cell changed and otherwise runs exactly the commands answered
 QUEUED since the connection's MULTI, in order and uninterrupted, and everything else is answered at once.
 */
module ExecutorTransactions {
  import opened Common
  import opened Commands
  import opened TransactionStore
  import opened Executor
  import opened OneStore
  import Refinement = ExecutorRefinement

  /** The event answers a command of connection `c` of worker `w` (or closes it). */
  predicate ByClient(e: Event, w: nat, c: nat) {
    e.worker == w && e.conn == c && !e.outcome.RanForwarded?
  }

  // ----- What a worker holds -----

  /** The commands executed at worker `w`, in order. */
  function HistoryAt(trace: seq<Event>, w: nat): seq<Run> {
    if trace == [] then []
    else
      var before, e := HistoryAt(trace[..|trace| - 1], w), trace[|trace| - 1];
      if e.worker == w then before + Refinement.Runs(e) else before
  }

  /** The cells of worker `w` after a trace. */
  function CellsAt(cfg: Config, trace: seq<Event>, w: nat): string -> Option<Cell> {
    (key: string) => CellOf(cfg, HistoryAt(trace, w), key)
  }

  // ----- What a client can tell from its replies -----

  /** Is a transaction open, what was queued, and which cells were watched. */
  datatype Session = Session(open: bool, queued: seq<Command>, watched: map<string, Option<Cell>>)

  const NO_SESSION: Session := Session(false, [], map[])

  /** The cells WATCH looks at: those of its bulk-string arguments. */
  function Seen(cells: string -> Option<Cell>, args: seq<CommandArg>): map<string, Option<Cell>> {
    if args == [] then map[]
    else
      var rest, arg := Seen(cells, args[..|args| - 1]), args[|args| - 1];
      if arg.kind == BulkString then rest[arg.value := cells(arg.value)] else rest
  }

  /** What an accepted command does to the session of its own connection. */
  function Moved(kind: Kind, before: Session, seen: map<string, Option<Cell>>): Session {
    match kind
    case Multi => before.(open := true, queued := [])
    case DiscardCommand => NO_SESSION
    case WatchCommand => before.(watched := before.watched + seen)
    case UnwatchCommand => before.(watched := map[])
    case _ => before
  }

  /** What an outcome does to the session of the client it answers. */
  function Answered(cfg: Config, before: Session, cells: string -> Option<Cell>, cmd: Command, o: Outcome): Session {
    if o.Queued? then before.(queued := before.queued + [cmd])
    else if o.Aborted? || o.Executed? || o.Closed? then NO_SESSION
    else if o != Control("+OK") then before
    else Moved(cfg.kind(cmd.name), before, Seen(cells, cmd.args))
  }

  function SessionAt(cfg: Config, trace: seq<Event>, w: nat, c: nat): Session {
    if trace == [] then NO_SESSION
    else
      var init, e := trace[..|trace| - 1], trace[|trace| - 1];
      var before := SessionAt(cfg, init, w, c);
      if ByClient(e, w, c) then Answered(cfg, before, CellsAt(cfg, init, w), e.cmd, e.outcome) else before
  }

  /** The cell has another version, or came or went with one other than zero. */
  predicate Differs(was: Option<Cell>, now: Option<Cell>) {
    match (was, now)
    case (Some(x), Some(y)) => x.version != y.version
    case (Some(x), None) => x.version != 0
    case (None, Some(y)) => y.version != 0
    case (None, None) => false
  }

  predicate WatchedChanged(session: Session, cells: string -> Option<Cell>) {
    exists key | key in session.watched :: Differs(session.watched[key], cells(key))
  }

  // ----- What every command must be answered -----

  /** The command's key belongs to another worker. */
  ghost predicate Foreign(cfg: Config, w: nat, cmd: Command) {
    exists key :: Touches(cfg, cmd, key) && cfg.route(w, key) != w
  }

  predicate ForeignWatch(cfg: Config, w: nat, cmd: Command) {
    exists i :: 0 <= i < |cmd.args| && (cmd.args[i].kind == BulkString || cmd.args[i].kind == SimpleString)
                && cfg.route(w, cmd.args[i].value) != w
  }

  /** The executed commands get the replies their worker's cells call for. */
  ghost predicate RunsRight(cfg: Config, before: seq<Event>, w: nat, runs: seq<Run>) {
    Legal(cfg, HistoryAt(before, w) + runs)
  }

  ghost predicate DataOk(cfg: Config, before: seq<Event>, e: Event, session: Session) {
    if session.open then
      e.outcome == if Foreign(cfg, e.worker, e.cmd)
                   then CrossSlot("-CROSSSLOT transaction commands must stay on one worker") else Queued
    else if Foreign(cfg, e.worker, e.cmd) then
      && e.outcome.Forwarded?
      && forall key | Touches(cfg, e.cmd, key) :: e.outcome.target == cfg.route(e.worker, key)
    else
      e.outcome.Ran? && RunsRight(cfg, before, e.worker, [Run(e.cmd, e.outcome.reply)])
  }

  ghost predicate ExecOk(cfg: Config, before: seq<Event>, e: Event, session: Session) {
    if WatchedChanged(session, CellsAt(cfg, before, e.worker)) then e.outcome == Aborted
    else
      && e.outcome.Executed? && e.outcome.cmds == session.queued && |e.outcome.items| == |session.queued|
      && RunsRight(cfg, before, e.worker, Zip(session.queued, e.outcome.items))
  }

  predicate ControlOk(kind: Kind, cmd: Command, open: bool, reply: string) {
    match kind
    case WatchCommand =>
      reply == if cmd.args == [] then "-ERR wrong number of arguments for 'WATCH' command"
               else if open then "-ERR WATCH inside MULTI is not allowed" else "+OK"
    case Multi =>
      reply == if cmd.args != [] then "-ERR wrong number of arguments"
               else if open then "-ERR MULTI calls can not be nested" else "+OK"
    case DiscardCommand =>
      reply == if cmd.args != [] then "-ERR wrong number of arguments"
               else if open then "+OK" else "-ERR DISCARD without MULTI"
    case UnwatchCommand => reply == if cmd.args != [] then "-ERR wrong number of arguments" else "+OK"
    case ExecCommand =>
      reply == if cmd.args != [] then "-ERR wrong number of arguments" else "-ERR EXEC without MULTI"
    case Data => false
  }

  /** An event of a trace against the history before it. */
  ghost predicate OutcomeOk(cfg: Config, before: seq<Event>, e: Event) {
    if e.outcome.Closed? then true
    else if e.outcome.RanForwarded? then RunsRight(cfg, before, e.worker, [Run(e.cmd, e.outcome.reply)])
    else
      var session, kind := SessionAt(cfg, before, e.worker, e.conn), cfg.kind(e.cmd.name);
      if kind.Data? then DataOk(cfg, before, e, session)
      else if kind.ExecCommand? && session.open then ExecOk(cfg, before, e, session)
      else if kind.WatchCommand? && ForeignWatch(cfg, e.worker, e.cmd) then
        e.outcome == CrossSlot("-CROSSSLOT WATCH keys must stay on one worker")
      else e.outcome.Control? && ControlOk(kind, e.cmd, session.open, e.outcome.reply)
  }

  // ----- The store against the session -----

  function VersionOf(cell: Option<Cell>): nat { if cell.Some? then cell.value.version else 0 }

  function VersionsOf(watched: map<string, Option<Cell>>): map<string, nat> {
    map key | key in watched :: VersionOf(watched[key])
  }

  /** The store entry and the session say the same. */
  predicate Matches(st: TxState, session: Session) {
    && st.inTransaction == session.open
    && st.queue == session.queued
    && st.versions == VersionsOf(session.watched)
  }

  function Every(): string -> bool { (_: string) => true }

  /** The shard holds what the worker's history makes of it. */
  ghost predicate ShardOk(cfg: Config, trace: seq<Event>, w: nat, shard: Shard) {
    Agrees(cfg, HistoryAt(trace, w), shard, Every()) && Legal(cfg, HistoryAt(trace, w))
  }

  /** The cells are those of the shard, as far as versions go. */
  ghost predicate CellsOf(cells: string -> Option<Cell>, shard: Shard) {
    forall key :: VersionOf(cells(key)) == Version(shard, key)
  }

  lemma CellsAre(cfg: Config, trace: seq<Event>, w: nat, shard: Shard)
    requires ShardOk(cfg, trace, w, shard)
    ensures CellsOf(CellsAt(cfg, trace, w), shard)
  {
    forall key ensures VersionOf(CellsAt(cfg, trace, w)(key)) == Version(shard, key) {
      assert SameCell(shard, key, if Every()(key) then CellOf(cfg, HistoryAt(trace, w), key) else None);
    }
  }

  // ----- One step -----

  lemma VersionsMerge(a: map<string, Option<Cell>>, b: map<string, Option<Cell>>)
    ensures VersionsOf(a + b) == VersionsOf(a) + VersionsOf(b)
  {
  }

  lemma VersionsPut(m: map<string, Option<Cell>>, key: string, cell: Option<Cell>)
    ensures VersionsOf(m[key := cell]) == VersionsOf(m)[key := VersionOf(cell)]
  {
  }

  /** The entry watches these versions besides those it did. */
  predicate WatchesMore(r: TxState, st: TxState, more: map<string, nat>) {
    r.inTransaction == st.inTransaction && r.queue == st.queue && r.versions == st.versions + more
  }

  lemma MoreAndOne(m: map<string, nat>, more: map<string, nat>, key: string, v: nat)
    ensures (m + more)[key := v] == m + more[key := v]
  {
  }

  lemma {:induction false} WatchAllView(
      tx: States, shard: Shard, cells: string -> Option<Cell>, c: nat, args: seq<CommandArg>)
    requires CellsOf(cells, shard)
    ensures var r := WatchAll(tx, shard, c, args);
            WatchesMore(View(r, c), View(tx, c), VersionsOf(Seen(cells, args)))
    decreases |args|
  {
    if args == [] {
      assert View(tx, c).versions + VersionsOf(map[]) == View(tx, c).versions;
    } else {
      var init, arg := args[..|args| - 1], args[|args| - 1];
      WatchAllView(tx, shard, cells, c, init);
      VersionsPut(Seen(cells, init), arg.value, cells(arg.value));
      MoreAndOne(View(tx, c).versions, VersionsOf(Seen(cells, init)), arg.value, Version(shard, arg.value));
    }
  }

  lemma {:induction false} WatchAllElsewhere(tx: States, shard: Shard, c: nat, args: seq<CommandArg>, d: nat)
    requires d != c
    ensures View(WatchAll(tx, shard, c, args), d) == View(tx, d)
    decreases |args|
  {
    if args != [] {
      WatchAllElsewhere(tx, shard, c, args[..|args| - 1], d);
    }
  }

  lemma ControlMatches(
      cfg: Config, tx: States, shard: Shard, cells: string -> Option<Cell>, c: nat, cmd: Command, session: Session)
    requires !cfg.kind(cmd.name).Data? && CellsOf(cells, shard) && Matches(View(tx, c), session)
    ensures var (tx', reply) := RunControl(cfg, tx, shard, c, cmd);
            Matches(View(tx', c),
                    if reply == "+OK" then Moved(cfg.kind(cmd.name), session, Seen(cells, cmd.args)) else session)
  {
    if cfg.kind(cmd.name).WatchCommand? {
      WatchAllView(tx, shard, cells, c, cmd.args);
      VersionsMerge(session.watched, Seen(cells, cmd.args));
    } else {
      assert VersionsOf(map[]) == map[];
    }
  }

  /** Other connections keep their state. */
  lemma ControlElsewhere(cfg: Config, tx: States, shard: Shard, c: nat, cmd: Command, d: nat)
    requires !cfg.kind(cmd.name).Data? && d != c
    ensures View(RunControl(cfg, tx, shard, c, cmd).0, d) == View(tx, d)
  {
    WatchAllElsewhere(tx, shard, c, cmd.args, d);
  }

  lemma PushEvent(trace: seq<Event>, e: Event, w: nat)
    ensures (trace + [e])[..|trace|] == trace
    ensures HistoryAt(trace + [e], w) ==
            if e.worker == w then HistoryAt(trace, w) + Refinement.Runs(e) else HistoryAt(trace, w)
  {
    assert (trace + [e])[..|trace|] == trace;
  }

  /** The session after one more event. */
  lemma PushSession(cfg: Config, trace: seq<Event>, e: Event, w: nat, c: nat)
    ensures var before := SessionAt(cfg, trace, w, c);
            SessionAt(cfg, trace + [e], w, c) ==
            if ByClient(e, w, c) then Answered(cfg, before, CellsAt(cfg, trace, w), e.cmd, e.outcome) else before
  {
    assert (trace + [e])[..|trace|] == trace;
  }

  /** Other connections keep their state. */
  lemma ProcessElsewhere(cfg: Config, w: nat, shard: Shard, tx: States, it: Item, c: nat)
    requires c != it.conn
    ensures View(Process(cfg, w, shard, tx, it).tx, c) == View(tx, c)
  {
    if !cfg.kind(it.cmd.name).Data? {
      ControlElsewhere(cfg, tx, shard, it.conn, it.cmd, c);
    }
  }

  lemma ProcessAnswers(
      cfg: Config, w: nat, shard: Shard, tx: States, it: Item, cells: string -> Option<Cell>, session: Session)
    requires CellsOf(cells, shard) && Matches(View(tx, it.conn), session) && !it.forwarded
    ensures var e := Process(cfg, w, shard, tx, it);
            Matches(View(e.tx, it.conn), Answered(cfg, session, cells, it.cmd, e.outcome))
  {
    assert VersionsOf(map[]) == map[];
    if !cfg.kind(it.cmd.name).Data? {
      ControlMatches(cfg, tx, shard, cells, it.conn, it.cmd, session);
    }
  }

  /** Processing an entry moves the store exactly as its reply moves the session. */
  lemma ProcessMatches(cfg: Config, trace: seq<Event>, w: nat, shard: Shard, tx: States, it: Item, c: nat)
    requires CellsOf(CellsAt(cfg, trace, w), shard)
    requires Matches(View(tx, c), SessionAt(cfg, trace, w, c))
    ensures var e := Process(cfg, w, shard, tx, it);
            Matches(View(e.tx, c),
                    SessionAt(cfg, trace + [Event(w, it.id, it.conn, it.cmd, e.outcome)], w, c))
  {
    var e, session := Process(cfg, w, shard, tx, it), SessionAt(cfg, trace, w, c);
    PushSession(cfg, trace, Event(w, it.id, it.conn, it.cmd, e.outcome), w, c);
    if c != it.conn {
      ProcessElsewhere(cfg, w, shard, tx, it, c);
    } else if !it.forwarded {
      ProcessAnswers(cfg, w, shard, tx, it, CellsAt(cfg, trace, w), session);
    }
  }

  /** EXEC's test of the stored versions is the test of the cells. */
  lemma ModifiedIs(cfg: Config, trace: seq<Event>, w: nat, shard: Shard, tx: States, c: nat)
    requires CellsOf(CellsAt(cfg, trace, w), shard) && Matches(View(tx, c), SessionAt(cfg, trace, w, c))
    ensures Modified(tx, c, key => Version(shard, key)) <==>
            WatchedChanged(SessionAt(cfg, trace, w, c), CellsAt(cfg, trace, w))
  {
    var session, cells, versions := SessionAt(cfg, trace, w, c), CellsAt(cfg, trace, w), View(tx, c).versions;
    forall key | key in session.watched
      ensures key in versions && (Version(shard, key) != versions[key] <==> Differs(session.watched[key], cells(key)))
    {
      assert VersionOf(cells(key)) == Version(shard, key);
    }
  }

  lemma ForeignIs(cfg: Config, w: nat, cmd: Command)
    ensures Foreign(cfg, w, cmd) <==> !FirstKeyLocal(cfg, w, cmd)
    ensures ForeignWatch(cfg, w, cmd) <==> !WatchKeysLocal(cfg, w, cmd)
    ensures forall key | Touches(cfg, cmd, key) :: KeyOf(cfg, cmd) == Some(key)
    ensures KeyOf(cfg, cmd).Some? ==> Touches(cfg, cmd, KeyOf(cfg, cmd).value)
  {
    if KeyOf(cfg, cmd).Some? {
      assert Touches(cfg, cmd, KeyOf(cfg, cmd).value);
    }
  }

  /** What the entry runs, if anything, the worker's cells answer and absorb. */
  lemma ProcessShard(cfg: Config, trace: seq<Event>, w: nat, shard: Shard, tx: States, it: Item)
    requires ShardOk(cfg, trace, w, shard)
    requires forall cmd | cmd in View(tx, it.conn).queue :: FirstKeyLocal(cfg, w, cmd)
    ensures var e := Process(cfg, w, shard, tx, it);
            var runs := Refinement.Runs(Event(w, it.id, it.conn, it.cmd, e.outcome));
            && Agrees(cfg, HistoryAt(trace, w) + runs, e.shard, Every()) && Legal(cfg, HistoryAt(trace, w) + runs)
            && (e.outcome.Executed? ==> |e.outcome.items| == |e.outcome.cmds|)
  {
    var e, history := Process(cfg, w, shard, tx, it), HistoryAt(trace, w);
    Refinement.ProcessRunsHere(cfg, w, shard, tx, it);
    if e.outcome.Executed? {
      forall cmd | cmd in View(tx, it.conn).queue ensures RunsOn(cfg, w, Every(), cmd) {}
      BlockAgrees(cfg, history, w, shard, Every(), View(tx, it.conn).queue);
    } else if e.outcome.Ran? || e.outcome.RanForwarded? {
      ExecuteAgrees(cfg, history, shard, Every(), it.cmd);
      Push(cfg, history, Run(it.cmd, e.outcome.reply), "");
    } else {
      assert history + [] == history;
    }
  }

  lemma ControlReply(cfg: Config, tx: States, shard: Shard, c: nat, cmd: Command)
    requires var kind := cfg.kind(cmd.name);
             !kind.Data? && !(kind.ExecCommand? && View(tx, c).inTransaction)
    ensures ControlOk(cfg.kind(cmd.name), cmd, View(tx, c).inTransaction, RunControl(cfg, tx, shard, c, cmd).1)
  {
  }

  lemma DataOutcomeOk(cfg: Config, trace: seq<Event>, w: nat, shard: Shard, tx: States, it: Item, session: Session)
    requires cfg.kind(it.cmd.name).Data? && !it.forwarded && View(tx, it.conn).inTransaction == session.open
    requires var e := Process(cfg, w, shard, tx, it);
             RunsRight(cfg, trace, w, Refinement.Runs(Event(w, it.id, it.conn, it.cmd, e.outcome)))
    ensures DataOk(cfg, trace, Event(w, it.id, it.conn, it.cmd, Process(cfg, w, shard, tx, it).outcome), session)
  {
    ForeignIs(cfg, w, it.cmd);
  }

  lemma ExecOutcomeOk(cfg: Config, trace: seq<Event>, w: nat, shard: Shard, tx: States, it: Item)
    requires CellsOf(CellsAt(cfg, trace, w), shard)
    requires Matches(View(tx, it.conn), SessionAt(cfg, trace, w, it.conn))
    requires cfg.kind(it.cmd.name).ExecCommand? && !it.forwarded && View(tx, it.conn).inTransaction
    requires var e := Process(cfg, w, shard, tx, it);
             && RunsRight(cfg, trace, w, Refinement.Runs(Event(w, it.id, it.conn, it.cmd, e.outcome)))
             && (e.outcome.Executed? ==> |e.outcome.items| == |e.outcome.cmds|)
    ensures ExecOk(cfg, trace, Event(w, it.id, it.conn, it.cmd, Process(cfg, w, shard, tx, it).outcome),
                   SessionAt(cfg, trace, w, it.conn))
  {
    ModifiedIs(cfg, trace, w, shard, tx, it.conn);
  }

  lemma ProcessOutcomeOk(cfg: Config, trace: seq<Event>, w: nat, shard: Shard, tx: States, it: Item)
    requires CellsOf(CellsAt(cfg, trace, w), shard)
    requires Matches(View(tx, it.conn), SessionAt(cfg, trace, w, it.conn))
    requires var e := Process(cfg, w, shard, tx, it);
             && RunsRight(cfg, trace, w, Refinement.Runs(Event(w, it.id, it.conn, it.cmd, e.outcome)))
             && (e.outcome.Executed? ==> |e.outcome.items| == |e.outcome.cmds|)
    ensures OutcomeOk(cfg, trace, Event(w, it.id, it.conn, it.cmd, Process(cfg, w, shard, tx, it).outcome))
  {
    var kind := cfg.kind(it.cmd.name);
    if it.forwarded {
    } else if kind.Data? {
      DataOutcomeOk(cfg, trace, w, shard, tx, it, SessionAt(cfg, trace, w, it.conn));
    } else if kind.ExecCommand? && View(tx, it.conn).inTransaction {
      ExecOutcomeOk(cfg, trace, w, shard, tx, it);
    } else {
      ForeignIs(cfg, w, it.cmd);
      ControlReply(cfg, tx, shard, it.conn, it.cmd);
    }
  }

  // ----- Whole runs -----

  ghost predicate Inv(cfg: Config, s: Sys) {
    && |s.ws| == cfg.workers
    && (forall w | 0 <= w < |s.ws| :: ShardOk(cfg, s.trace, w, s.ws[w].shard))
    && (forall w, c: nat | 0 <= w < |s.ws| ::
          Matches(View(s.ws[w].tx, c), SessionAt(cfg, s.trace, w, c)))
    && (forall w | 0 <= w < |s.ws| ::
          Refinement.QueuesSatisfy(s.ws[w].tx, cmd => FirstKeyLocal(cfg, w, cmd)))
    && (forall k | 0 <= k < |s.trace| :: OutcomeOk(cfg, s.trace[..k], s.trace[k]))
  }

  /** An event at worker `w` leaves the sessions and shards of other workers as they were. */
  lemma OtherWorker(cfg: Config, trace: seq<Event>, e: Event, v: nat, c: nat)
    requires e.worker != v
    ensures HistoryAt(trace + [e], v) == HistoryAt(trace, v)
    ensures SessionAt(cfg, trace + [e], v, c) == SessionAt(cfg, trace, v, c)
  {
    PushEvent(trace, e, v);
  }

  /** The entry's effect agrees with its event, for the shard and for every session of its worker. */
  ghost predicate Tracks(cfg: Config, trace: seq<Event>, w: nat, e: Event, shard: Shard, tx: States) {
    && e.worker == w
    && ShardOk(cfg, trace + [e], w, shard)
    && OutcomeOk(cfg, trace, e)
    && (forall c: nat :: Matches(View(tx, c), SessionAt(cfg, trace + [e], w, c)))
    && Refinement.QueuesSatisfy(tx, cmd => FirstKeyLocal(cfg, w, cmd))
  }

  lemma ProcessTracks(cfg: Config, trace: seq<Event>, w: nat, shard: Shard, tx: States, it: Item)
    requires ShardOk(cfg, trace, w, shard)
    requires forall c: nat :: Matches(View(tx, c), SessionAt(cfg, trace, w, c))
    requires Refinement.QueuesSatisfy(tx, cmd => FirstKeyLocal(cfg, w, cmd))
    ensures var e := Process(cfg, w, shard, tx, it);
            Tracks(cfg, trace, w, Event(w, it.id, it.conn, it.cmd, e.outcome), e.shard, e.tx)
  {
    var e := Process(cfg, w, shard, tx, it);
    var ev := Event(w, it.id, it.conn, it.cmd, e.outcome);
    var p := cmd => FirstKeyLocal(cfg, w, cmd);
    forall cmd | cmd in View(tx, it.conn).queue ensures FirstKeyLocal(cfg, w, cmd) {
      assert p(cmd);
    }
    ProcessShard(cfg, trace, w, shard, tx, it);
    PushEvent(trace, ev, w);
    CellsAre(cfg, trace, w, shard);
    forall c: nat ensures Matches(View(e.tx, c), SessionAt(cfg, trace + [ev], w, c)) {
      ProcessMatches(cfg, trace, w, shard, tx, it, c);
    }
    ProcessOutcomeOk(cfg, trace, w, shard, tx, it);
    Refinement.ProcessQueues(cfg, w, shard, tx, it, p);
  }

  lemma CloseMatches(cfg: Config, trace: seq<Event>, w: nat, tx: States, conn: nat, c: nat)
    requires Matches(View(tx, c), SessionAt(cfg, trace, w, c))
    ensures Matches(View(Update(tx, conn, IDLE), c),
                    SessionAt(cfg, trace + [Event(w, 0, conn, Command("", []), Closed)], w, c))
  {
    PushSession(cfg, trace, Event(w, 0, conn, Command("", []), Closed), w, c);
    assert VersionsOf(map[]) == map[];
  }

  lemma CloseTracks(cfg: Config, trace: seq<Event>, w: nat, shard: Shard, tx: States, conn: nat)
    requires ShardOk(cfg, trace, w, shard)
    requires forall c: nat :: Matches(View(tx, c), SessionAt(cfg, trace, w, c))
    requires Refinement.QueuesSatisfy(tx, cmd => FirstKeyLocal(cfg, w, cmd))
    ensures Tracks(cfg, trace, w, Event(w, 0, conn, Command("", []), Closed), shard, Update(tx, conn, IDLE))
  {
    var ev := Event(w, 0, conn, Command("", []), Closed);
    Refinement.CloseQueues(tx, conn, cmd => FirstKeyLocal(cfg, w, cmd));
    forall c: nat ensures Matches(View(Update(tx, conn, IDLE), c), SessionAt(cfg, trace + [ev], w, c)) {
      CloseMatches(cfg, trace, w, tx, conn, c);
    }
    PushEvent(trace, ev, w);
    assert HistoryAt(trace, w) + [] == HistoryAt(trace, w);
  }

  /** A step that logs event `e` at worker `w` and changes only that worker's shard and store. */
  lemma LogKeepsInv(cfg: Config, s: Sys, s': Sys, w: nat, e: Event)
    requires Inv(cfg, s) && w < |s.ws| == |s'.ws| && s'.trace == s.trace + [e]
    requires Tracks(cfg, s.trace, w, e, s'.ws[w].shard, s'.ws[w].tx)
    requires forall v | 0 <= v < |s.ws| && v != w ::
               s'.ws[v].shard == s.ws[v].shard && s'.ws[v].tx == s.ws[v].tx
    ensures Inv(cfg, s')
  {
    forall v | 0 <= v < |s'.ws| ensures ShardOk(cfg, s'.trace, v, s'.ws[v].shard) {
      if v != w { OtherWorker(cfg, s.trace, e, v, 0); }
    }
    forall v, c: nat | 0 <= v < |s'.ws|
      ensures Matches(View(s'.ws[v].tx, c), SessionAt(cfg, s'.trace, v, c))
    {
      if v != w {
        OtherWorker(cfg, s.trace, e, v, c);
        assert Matches(View(s.ws[v].tx, c), SessionAt(cfg, s.trace, v, c));
      }
    }
    forall k | 0 <= k < |s'.trace| ensures OutcomeOk(cfg, s'.trace[..k], s'.trace[k]) {
      if k < |s.trace| {
        assert s'.trace[..k] == s.trace[..k];
        assert OutcomeOk(cfg, s.trace[..k], s.trace[k]);
      } else {
        assert s'.trace[..k] == s.trace;
      }
    }
  }

  lemma StepKeepsInv(cfg: Config, s: Sys, st: Step)
    requires Inv(cfg, s) && Enabled(cfg, s, st)
    ensures Inv(cfg, Next(cfg, s, st))
  {
    var s', w := Next(cfg, s, st), st.w;
    if st.Exec? {
      var wk, it := s.ws[w], s.ws[w].cmds[st.i];
      var e := Process(cfg, w, wk.shard, wk.tx, it);
      ProcessTracks(cfg, s.trace, w, wk.shard, wk.tx, it);
      Refinement.DeliverShards(Take(s.ws, w, st.i, e), w, it, e.outcome);
      LogKeepsInv(cfg, s, s', w, Event(w, it.id, it.conn, it.cmd, e.outcome));
    } else if st.Close? {
      CloseTracks(cfg, s.trace, w, s.ws[w].shard, s.ws[w].tx, st.conn);
      LogKeepsInv(cfg, s, s', w, Event(w, 0, st.conn, Command("", []), Closed));
    } else {
      assert s'.trace == s.trace;
    }
  }

  lemma InitInv(cfg: Config)
    ensures Inv(cfg, Init(cfg))
  {
    assert VersionsOf(map[]) == map[];
  }

  lemma {:induction false} RunKeepsInv(cfg: Config, steps: seq<Step>)
    requires IsRun(cfg, steps)
    ensures Inv(cfg, After(cfg, steps))
    decreases |steps|
  {
    if steps == [] {
      InitInv(cfg);
    } else {
      RunKeepsInv(cfg, steps[..|steps| - 1]);
      StepKeepsInv(cfg, After(cfg, steps[..|steps| - 1]), steps[|steps| - 1]);
    }
  }

  /** In every run the cells told from a worker's history are those of its shard. */
  lemma CellsAreHeld(cfg: Config, steps: seq<Step>, w: nat, key: string)
    requires IsRun(cfg, steps) && w < cfg.workers
    ensures SameCell(After(cfg, steps).ws[w].shard, key, CellsAt(cfg, After(cfg, steps).trace, w)(key))
  {
    RunKeepsInv(cfg, steps);
    var s := After(cfg, steps);
    assert ShardOk(cfg, s.trace, w, s.ws[w].shard);
    assert SameCell(s.ws[w].shard, key, if Every()(key) then CellOf(cfg, HistoryAt(s.trace, w), key) else None);
  }

  lemma {:induction false} HistoryPrefix(trace: seq<Event>, k: nat)
    requires k <= |trace|
    ensures Refinement.History(trace[..k]) <= Refinement.History(trace)
  {
    if k < |trace| {
      HistoryPrefix(trace[..|trace| - 1], k);
      assert trace[..|trace| - 1][..k] == trace[..k];
    } else {
      assert trace[..k] == trace;
    }
  }

  lemma BlockInHistory(trace: seq<Event>, k: nat)
    requires k < |trace|
    ensures Refinement.History(trace[..k + 1]) == Refinement.History(trace[..k]) + Refinement.Runs(trace[k])
  {
    assert trace[..k + 1] == trace[..k] + [trace[k]];
    Refinement.PushEvent(trace[..k], trace[k]);
  }

  /**
   EXEC atomicity and isolation, for every run and every event of it: EXEC inside an open transaction
   aborts exactly when the version of a watched cell changed; otherwise the commands it ran are
   exactly those answered QUEUED since MULTI, each with its own item, as one unbroken block of the
   global history. Every other command is queued, refused, forwarded or run as the history says.
   */
  lemma ExecAtomicity(cfg: Config, steps: seq<Step>, k: nat)
    requires IsRun(cfg, steps) && k < |After(cfg, steps).trace|
    ensures var trace := After(cfg, steps).trace;
            && OutcomeOk(cfg, trace[..k], trace[k])
            && Refinement.History(trace[..k + 1]) == Refinement.History(trace[..k]) + Refinement.Runs(trace[k])
            && Refinement.History(trace[..k + 1]) <= Refinement.History(trace)
  {
    RunKeepsInv(cfg, steps);
    BlockInHistory(After(cfg, steps).trace, k);
    HistoryPrefix(After(cfg, steps).trace, k + 1);
  }

  // ----- A write between WATCH and EXEC -----

  /** The client's event leaves what it watches alone. */
  predicate KeepsWatches(cfg: Config, e: Event) {
    && !e.outcome.Aborted? && !e.outcome.Executed? && !e.outcome.Closed?
    && (e.outcome == Control("+OK") ==> cfg.kind(e.cmd.name).Multi? || cfg.kind(e.cmd.name).ExecCommand?)
  }

  lemma {:induction false} SeenAt(cells: string -> Option<Cell>, args: seq<CommandArg>, i: nat)
    requires i < |args| && args[i].kind == BulkString
    ensures args[i].value in Seen(cells, args)
    ensures forall key | key in Seen(cells, args) :: Seen(cells, args)[key] == cells(key)
  {
    if i < |args| - 1 {
      SeenAt(cells, args[..|args| - 1], i);
    } else {
      SeenAreCells(cells, args);
    }
  }

  lemma {:induction false} SeenAreCells(cells: string -> Option<Cell>, args: seq<CommandArg>)
    ensures forall key | key in Seen(cells, args) :: Seen(cells, args)[key] == cells(key)
  {
    if args != [] {
      SeenAreCells(cells, args[..|args| - 1]);
    }
  }

  /** After a WATCH that was answered OK, and until the client does something about it, the cell is remembered. */
  lemma {:induction false} WatchIsKept(cfg: Config, trace: seq<Event>, j: nat, i: nat, k: nat)
    requires j < k <= |trace| && cfg.kind(trace[j].cmd.name).WatchCommand? && trace[j].outcome == Control("+OK")
    requires i < |trace[j].cmd.args| && trace[j].cmd.args[i].kind == BulkString
    requires forall m | j < m < k && ByClient(trace[m], trace[j].worker, trace[j].conn) :: KeepsWatches(cfg, trace[m])
    ensures var w, key := trace[j].worker, trace[j].cmd.args[i].value;
      var session := SessionAt(cfg, trace[..k], w, trace[j].conn);
      key in session.watched && session.watched[key] == CellsAt(cfg, trace[..j], w)(key)
    decreases k
  {
    var w := trace[j].worker;
    assert trace[..k][..k - 1] == trace[..k - 1] && trace[..k][k - 1] == trace[k - 1];
    if k == j + 1 {
      SeenAt(CellsAt(cfg, trace[..j], w), trace[j].cmd.args, i);
    } else {
      WatchIsKept(cfg, trace, j, i, k - 1);
    }
  }

  /**
   In every run, if the version of a watched cell changed between the WATCH and the EXEC of an open
   transaction, whoever changed it, the EXEC is aborted.
   */
  lemma WriteAbortsExec(cfg: Config, steps: seq<Step>, trace: seq<Event>, j: nat, i: nat, k: nat)
    requires IsRun(cfg, steps) && trace == After(cfg, steps).trace && j < k < |trace|
    requires cfg.kind(trace[j].cmd.name).WatchCommand? && trace[j].outcome == Control("+OK")
    requires i < |trace[j].cmd.args| && trace[j].cmd.args[i].kind == BulkString
    requires forall m | j < m < k && ByClient(trace[m], trace[j].worker, trace[j].conn) :: KeepsWatches(cfg, trace[m])
    requires ByClient(trace[k], trace[j].worker, trace[j].conn) && cfg.kind(trace[k].cmd.name).ExecCommand?
    requires !trace[k].outcome.Closed? && SessionAt(cfg, trace[..k], trace[k].worker, trace[k].conn).open
    requires var w, key := trace[j].worker, trace[j].cmd.args[i].value;
      Differs(CellsAt(cfg, trace[..j], w)(key), CellsAt(cfg, trace[..k], w)(key))
    ensures trace[k].outcome == Aborted
  {
    RunKeepsInv(cfg, steps);
    assert OutcomeOk(cfg, trace[..k], trace[k]);
    WatchIsKept(cfg, trace, j, i, k);
    var session := SessionAt(cfg, trace[..k], trace[k].worker, trace[k].conn);
    assert trace[j].cmd.args[i].value in session.watched;
  }
}
