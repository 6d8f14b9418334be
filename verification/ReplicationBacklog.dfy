/**
 The replication backlog of a master and partial resynchronization
 (src/astra/replication/replication_manager.hpp): PropagateCommand, HandlePsync and GetBacklogData.
 Offsets count commands, and so does the configured size.
 */
module ReplicationBacklog {
  import opened Commands

  const UINT64: int := 0x1_0000_0000_0000_0000

  datatype Answer = FullResync(offset: nat) | Continue

  /** The last `capacity` commands of a log. */
  function Tail(log: seq<Command>, capacity: nat): seq<Command> {
    if |log| <= capacity then log else log[|log| - capacity..]
  }

  /** The backlog holds as many of the newest commands as it can. */
  lemma TailExactly(log: seq<Command>, capacity: nat)
    ensures var r := Tail(log, capacity);
      |r| == (if capacity < |log| then capacity else |log|) && log[..|log| - |r|] + r == log
  {
    var r := Tail(log, capacity);
    assert log == log[..|log| - |r|] + log[|log| - |r|..];
  }

  /** The first offset the backlog can still serve from. */
  function StartOffset(log: seq<Command>, capacity: nat): nat { |log| - |Tail(log, capacity)| }

  function Psync(log: seq<Command>, capacity: nat, id: string, offset: nat): Answer {
    if id == "?" || id == "" then FullResync(|log|)
    else if StartOffset(log, capacity) <= offset <= |log| then Continue
    else FullResync(|log|)
  }

  /** What GetBacklogData returns; `end - start` of the backlog is unsigned. */
  function Served(log: seq<Command>, capacity: nat, from: nat, to: nat): seq<Command> {
    var start := StartOffset(log, capacity);
    if from < start || to > |log| then []
    else if to < start then (if from <= |log| then log[from..] else [])
    else if to <= from then []
    else log[from..to]
  }

  class ReplicationManager {
    const capacity: nat
    var offset: nat
    var backlog: seq<Command>
    /** Every command ever propagated. */
    ghost var log: seq<Command>

    ghost predicate Valid()
      reads this
    {
      capacity >= 1 && offset == |log| < UINT64 && backlog == Tail(log, capacity)
    }

    constructor (capacity: nat)
      requires capacity >= 1
      ensures Valid() && this.capacity == capacity && log == []
    {
      this.capacity := capacity;
      offset, backlog, log := 0, [], [];
    }

    method PropagateCommand(cmd: Command)
      requires Valid() && |log| + 1 < UINT64
      modifies this
      ensures Valid() && log == old(log) + [cmd]
    {
      offset := offset + 1;
      if |backlog| >= capacity {
        backlog := backlog[1..];
      }
      backlog := backlog + [cmd];
      log := log + [cmd];
    }

    method HandlePsync(replicationId: string, from: nat) returns (answer: Answer)
      requires Valid()
      ensures answer == Psync(log, capacity, replicationId, from)
    {
      var current := offset;
      if replicationId == "?" || replicationId == "" {
        return FullResync(current);
      }
      var start := if current >= |backlog| then current - |backlog| else 0;
      if start <= from <= current {
        return Continue;
      }
      answer := FullResync(current);
    }

    method GetBacklogData(from: nat, to: nat) returns (result: seq<Command>)
      requires Valid()
      ensures result == Served(log, capacity, from, to)
    {
      var start := if offset >= |backlog| then offset - |backlog| else 0;
      if from < start || to > offset {
        return [];
      }
      var startIdx := from - start;
      var endIdx := (to - start) % UINT64;
      result := Copy(backlog, startIdx, endIdx);
      var stop := if endIdx <= |backlog| then endIdx else |backlog|;
      if startIdx <= stop {
        TailSlice(log, capacity, startIdx, stop);
      }
    }
  }

  /** The extraction loop: positions from `i` up to `end`, but not beyond the backlog. */
  method Copy(backlog: seq<Command>, start: nat, end: nat) returns (result: seq<Command>)
    ensures var stop := if end <= |backlog| then end else |backlog|;
      result == if start <= stop then backlog[start..stop] else []
  {
    result := [];
    var i := start;
    while i < end && i < |backlog|
      invariant start <= i && (i <= end || i == start) && (i <= |backlog| || i == start)
      invariant result == if i <= |backlog| then backlog[start..i] else []
    {
      result := result + [backlog[i]];
      i := i + 1;
    }
  }

  lemma TailSlice(log: seq<Command>, capacity: nat, i: nat, j: nat)
    requires i <= j <= |Tail(log, capacity)|
    ensures var start := StartOffset(log, capacity);
      Tail(log, capacity)[i..j] == log[start + i..start + j]
  {
  }

  // ----- Catching up -----

  /** Any state that commands act on. */
  function Replay<S>(apply: (S, Command) -> S, s: S, cmds: seq<Command>): S {
    if cmds == [] then s else apply(Replay(apply, s, cmds[..|cmds| - 1]), cmds[|cmds| - 1])
  }

  lemma {:induction false} ReplayConcat<S>(apply: (S, Command) -> S, s: S, a: seq<Command>, b: seq<Command>)
    ensures Replay(apply, s, a + b) == Replay(apply, Replay(apply, s, a), b)
  {
    if b == [] {
      assert a + b == a;
    } else {
      assert (a + b)[..|a + b| - 1] == a + b[..|b| - 1];
      ReplayConcat(apply, s, a, b[..|b| - 1]);
    }
  }

  /**
   CONTINUE is granted exactly when a replica names a history and the backlog still holds every command
   after its offset, so that what is served completes the history. Everybody else is sent the whole
   state as of the master's own offset.
   */
  lemma ContinueExact(log: seq<Command>, capacity: nat, id: string, offset: nat)
    ensures Psync(log, capacity, id, offset) ==
      if id != "?" && id != "" && offset <= |log| && log[..offset] + Served(log, capacity, offset, |log|) == log
      then Continue else FullResync(|log|)
  {
    if offset <= |log| {
      CompletesExactly(log, capacity, offset);
    }
  }

  lemma CompletesExactly(log: seq<Command>, capacity: nat, offset: nat)
    requires offset <= |log|
    ensures log[..offset] + Served(log, capacity, offset, |log|) == log <==> StartOffset(log, capacity) <= offset
  {
    var served := Served(log, capacity, offset, |log|);
    if StartOffset(log, capacity) <= offset {
      assert served == log[offset..];
    } else {
      assert served == [] && |log[..offset] + served| < |log|;
    }
  }

  /** What is served comes in pieces that fit, for any way of splitting what the backlog holds. */
  lemma ServedInPieces(log: seq<Command>, capacity: nat, a: nat, b: nat, c: nat)
    requires |log| <= a + capacity && a <= b <= c <= |log|
    ensures |Served(log, capacity, a, b)| == b - a
    ensures Served(log, capacity, a, b) + Served(log, capacity, b, c) == Served(log, capacity, a, c)
  {
    assert log[a..b] + log[b..c] == log[a..c];
  }

  /** A replica at a granted offset that applies what is served reaches the master's state. */
  lemma PartialResyncCatchesUp<S>(
      apply: (S, Command) -> S, s: S, log: seq<Command>, capacity: nat, id: string, offset: nat)
    requires Psync(log, capacity, id, offset) == Continue
    ensures offset <= |log|
    ensures Replay(apply, Replay(apply, s, log[..offset]), Served(log, capacity, offset, |log|))
         == Replay(apply, s, log)
  {
    ContinueExact(log, capacity, id, offset);
    ReplayConcat(apply, s, log[..offset], Served(log, capacity, offset, |log|));
  }

  /**
   The id itself is never compared: a replica that followed another history gets the answer its
   offset alone deserves, and completing that other history does not give the master's.
   */
  lemma ForeignHistoryIsContinued(other: seq<Command>, log: seq<Command>, capacity: nat, id: string)
    requires id != "?" && id != "" && StartOffset(log, capacity) <= |other| <= |log|
    ensures Psync(log, capacity, id, |other|) == Continue
    ensures other + Served(log, capacity, |other|, |log|) == log <==> other == log[..|other|]
  {
    var served := Served(log, capacity, |other|, |log|);
    assert served == log[|other|..];
    assert log == log[..|other|] + log[|other|..];
    assert (other + served)[..|other|] == other;
  }
}
