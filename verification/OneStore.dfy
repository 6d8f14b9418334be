/**
 One store, told from the executed commands alone: what each key holds after them and what each of them
 must be answered. `cfg.apply` is all that is said about a command.
 */
module OneStore {
  import opened Common
  import opened Commands
  import opened Executor

  /** A data command that was executed, with the reply it got. */
  datatype Run = Run(cmd: Command, reply: string)

  /** The command works on this key: it is routed, and the key is its first argument, a text. */
  predicate Touches(cfg: Config, cmd: Command, key: string) {
    && cfg.routed(cmd.name) && |cmd.args| > 0 && cmd.args[0].value == key
    && (cmd.args[0].kind == BulkString || cmd.args[0].kind == SimpleString)
  }

  /** What a key holds after the commands: those on it, one after the other, from nothing. */
  function CellOf(cfg: Config, runs: seq<Run>, key: string): Option<Cell> {
    if runs == [] then None
    else
      var before, cmd := CellOf(cfg, runs[..|runs| - 1], key), runs[|runs| - 1].cmd;
      if Touches(cfg, cmd, key) then cfg.apply(cmd, before).0 else before
  }

  /** The reply is the one the command gets on what its key holds; without a key it needs nothing. */
  ghost predicate ReplyRight(cfg: Config, before: seq<Run>, run: Run) {
    && (forall key | Touches(cfg, run.cmd, key) :: run.reply == cfg.apply(run.cmd, CellOf(cfg, before, key)).1)
    && ((forall key :: !Touches(cfg, run.cmd, key)) ==> run.reply == cfg.keyless(run.cmd))
  }

  /** Every reply is right after the commands before it. */
  ghost predicate Legal(cfg: Config, runs: seq<Run>) {
    runs == [] ||
    (Legal(cfg, runs[..|runs| - 1]) && ReplyRight(cfg, runs[..|runs| - 1], runs[|runs| - 1]))
  }

  lemma {:induction false} LegalAt(cfg: Config, runs: seq<Run>, i: nat)
    requires Legal(cfg, runs) && i < |runs|
    ensures ReplyRight(cfg, runs[..i], runs[i])
  {
    if i < |runs| - 1 {
      LegalAt(cfg, runs[..|runs| - 1], i);
      assert runs[..|runs| - 1][..i] == runs[..i];
    }
  }

  lemma Push(cfg: Config, runs: seq<Run>, r: Run, key: string)
    ensures CellOf(cfg, runs + [r], key) ==
      if Touches(cfg, r.cmd, key) then cfg.apply(r.cmd, CellOf(cfg, runs, key)).0 else CellOf(cfg, runs, key)
    ensures Legal(cfg, runs + [r]) <==> Legal(cfg, runs) && ReplyRight(cfg, runs, r)
  {
    assert (runs + [r])[..|runs|] == runs;
  }

  // ----- A shard against the commands -----

  predicate SameCell(shard: Shard, key: string, cell: Option<Cell>) {
    if key in shard then cell == Some(shard[key]) else cell == None
  }

  /** The shard holds exactly what the keys that are its own hold. */
  ghost predicate Agrees(cfg: Config, runs: seq<Run>, shard: Shard, own: string -> bool) {
    forall key :: SameCell(shard, key, if own(key) then CellOf(cfg, runs, key) else None)
  }

  /** Executing a command on its own shard does to its key, and answers, what the one store does. */
  lemma ExecuteAgrees(cfg: Config, runs: seq<Run>, shard: Shard, own: string -> bool, cmd: Command)
    requires Agrees(cfg, runs, shard, own) && forall key | Touches(cfg, cmd, key) :: own(key)
    ensures var (sh, reply) := Execute(cfg, shard, cmd);
      Agrees(cfg, runs + [Run(cmd, reply)], sh, own) && ReplyRight(cfg, runs, Run(cmd, reply))
  {
    var (sh, reply) := Execute(cfg, shard, cmd);
    forall key ensures SameCell(sh, key, if own(key) then CellOf(cfg, runs + [Run(cmd, reply)], key) else None) {
      Push(cfg, runs, Run(cmd, reply), key);
      assert SameCell(shard, key, if own(key) then CellOf(cfg, runs, key) else None);
    }
    forall key | Touches(cfg, cmd, key) ensures reply == cfg.apply(cmd, CellOf(cfg, runs, key)).1 {
      assert SameCell(shard, key, CellOf(cfg, runs, key));
    }
    if KeyOf(cfg, cmd).Some? {
      assert Touches(cfg, cmd, KeyOf(cfg, cmd).value);
    }
  }

  /** A command elsewhere leaves the shard in agreement. */
  lemma OthersAgree(cfg: Config, runs: seq<Run>, r: Run, shard: Shard, own: string -> bool)
    requires Agrees(cfg, runs, shard, own) && forall key | Touches(cfg, r.cmd, key) :: !own(key)
    ensures Agrees(cfg, runs + [r], shard, own)
  {
    forall key ensures SameCell(shard, key, if own(key) then CellOf(cfg, runs + [r], key) else None) {
      Push(cfg, runs, r, key);
      assert SameCell(shard, key, if own(key) then CellOf(cfg, runs, key) else None);
    }
  }

  lemma {:induction false} OthersAgreeAll(
      cfg: Config, runs: seq<Run>, more: seq<Run>, shard: Shard, own: string -> bool)
    requires Agrees(cfg, runs, shard, own)
    requires forall i, key | 0 <= i < |more| && Touches(cfg, more[i].cmd, key) :: !own(key)
    ensures Agrees(cfg, runs + more, shard, own)
  {
    if more == [] {
      assert runs + more == runs;
    } else {
      var n := |more| - 1;
      OthersAgreeAll(cfg, runs, more[..n], shard, own);
      OthersAgree(cfg, runs + more[..n], more[n], shard, own);
      assert runs + more == runs + more[..n] + [more[n]];
    }
  }

  // ----- Blocks -----

  function Zip(cmds: seq<Command>, items: seq<string>): seq<Run> {
    if cmds == [] || items == [] then []
    else Zip(cmds[..|cmds| - 1], items[..|items| - 1]) + [Run(cmds[|cmds| - 1], items[|items| - 1])]
  }

  lemma {:induction false} ZipIs(cmds: seq<Command>, items: seq<string>)
    requires |cmds| == |items|
    ensures |Zip(cmds, items)| == |cmds|
    ensures forall i | 0 <= i < |cmds| :: Zip(cmds, items)[i] == Run(cmds[i], items[i])
  {
    if cmds != [] {
      ZipIs(cmds[..|cmds| - 1], items[..|items| - 1]);
    }
  }

  lemma ZipPush(runs: seq<Run>, queue: seq<Command>, items: seq<string>, reply: string)
    requires queue != [] && |items| == |queue| - 1
    ensures runs + Zip(queue, items + [reply])
         == runs + Zip(queue[..|queue| - 1], items) + [Run(queue[|queue| - 1], reply)]
  {
    assert (items + [reply])[..|items|] == items;
  }

  /** Worker `w` runs the command, and its key is one of its own. */
  ghost predicate RunsOn(cfg: Config, w: nat, own: string -> bool, cmd: Command) {
    FirstKeyLocal(cfg, w, cmd) && forall key | Touches(cfg, cmd, key) :: own(key)
  }

  /** EXEC's block runs as so many commands of the one store, one item each. */
  lemma {:induction false} BlockAgrees(
      cfg: Config, runs: seq<Run>, w: nat, shard: Shard, own: string -> bool, queue: seq<Command>)
    requires Agrees(cfg, runs, shard, own) && Legal(cfg, runs)
    requires forall cmd | cmd in queue :: RunsOn(cfg, w, own, cmd)
    ensures var (sh, items) := ExecAll(cfg, w, shard, queue);
      && |items| == |queue|
      && Agrees(cfg, runs + Zip(queue, items), sh, own) && Legal(cfg, runs + Zip(queue, items))
    decreases |queue|
  {
    if queue == [] {
      assert runs + Zip(queue, []) == runs;
    } else {
      var init, cmd := queue[..|queue| - 1], queue[|queue| - 1];
      assert RunsOn(cfg, w, own, cmd);
      BlockAgrees(cfg, runs, w, shard, own, init);
      var (sh0, items0) := ExecAll(cfg, w, shard, init);
      var reply := Execute(cfg, sh0, cmd).1;
      ExecuteAgrees(cfg, runs + Zip(init, items0), sh0, own, cmd);
      Push(cfg, runs + Zip(init, items0), Run(cmd, reply), "");
      ZipPush(runs, queue, items0, reply);
    }
  }
}
