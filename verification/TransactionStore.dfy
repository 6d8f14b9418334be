/**
 TransactionStateStore (src/astra/server/transaction_state.cpp): a sparse map from
 connection to transaction and WATCH state. Absent connections are idle.
 */
module TransactionStore {
  import opened Commands

  datatype TxState = TxState(inTransaction: bool, queue: seq<Command>,
                             watched: set<string>, versions: map<string, nat>)

  type States = map<nat, TxState>

  const IDLE: TxState := TxState(false, [], {}, map[])

  predicate WellFormed(st: TxState) {
    st.watched == st.versions.Keys
  }

  /** The store keeps no entry for an idle connection. */
  predicate Sparse(s: States) {
    forall c | c in s :: WellFormed(s[c]) && s[c] != IDLE
  }

  /** What a connection's state is, stored or not. */
  function View(s: States, c: nat): TxState {
    if c in s then s[c] else IDLE
  }

  /** The only sparse store whose view differs from `s` at `c` alone, where it is `st`. */
  function Update(s: States, c: nat, st: TxState): (r: States)
    ensures View(r, c) == st
    ensures forall d | d != c :: View(r, d) == View(s, d)
    ensures Sparse(s) && WellFormed(st) ==> Sparse(r)
  {
    if st == IDLE then s - {c} else s[c := st]
  }

  lemma UpdateUnique(s: States, c: nat, st: TxState, r: States)
    requires Sparse(s) && Sparse(r) && WellFormed(st)
    requires View(r, c) == st && forall d | d != c :: View(r, d) == View(s, d)
    ensures r == Update(s, c, st)
  {
    var u := Update(s, c, st);
    forall d ensures d in r <==> d in u {
      assert View(r, d) == View(u, d);
    }
    forall d | d in r ensures r[d] == u[d] {
      assert View(r, d) == View(u, d);
    }
  }

  function Begin(s: States, c: nat): States {
    Update(s, c, View(s, c).(inTransaction := true, queue := []))
  }

  function Enqueue(s: States, c: nat, cmd: Command): States {
    Update(s, c, View(s, c).(queue := View(s, c).queue + [cmd]))
  }

  function Discard(s: States, c: nat): States {
    Update(s, c, IDLE)
  }

  function Watch(s: States, c: nat, key: string, version: nat): States {
    var st := View(s, c);
    Update(s, c, st.(watched := st.watched + {key}, versions := st.versions[key := version]))
  }

  function Unwatch(s: States, c: nat): States {
    Update(s, c, View(s, c).(watched := {}, versions := map[]))
  }

  /** Some watched key no longer has the version it had when it was watched. */
  predicate Modified(s: States, c: nat, version: string -> nat) {
    exists k | k in View(s, c).versions :: version(k) != View(s, c).versions[k]
  }

  class TransactionStateStore {
    var states: States

    constructor ()
      ensures states == map[] && Sparse(states)
    {
      states := map[];
    }

    method IsInTransaction(c: nat) returns (b: bool)
      ensures b <==> View(states, c).inTransaction
    {
      b := c in states && states[c].inTransaction;
    }

    method BeginTransaction(c: nat)
      requires Sparse(states)
      modifies this
      ensures Sparse(states) && states == Begin(old(states), c)
    {
      var state := if c in states then states[c] else IDLE;
      state := state.(inTransaction := true);
      state := state.(queue := []);
      states := states[c := state];
    }

    method QueueCommand(c: nat, cmd: Command)
      requires Sparse(states)
      modifies this
      ensures Sparse(states) && states == Enqueue(old(states), c, cmd)
    {
      var state := if c in states then states[c] else IDLE;
      states := states[c := state.(queue := state.queue + [cmd])];
    }

    method GetQueuedCommands(c: nat) returns (q: seq<Command>)
      ensures q == View(states, c).queue
    {
      if c !in states {
        return [];
      }
      q := states[c].queue;
    }

    method ClearQueuedCommands(c: nat)
      requires Sparse(states)
      modifies this
      ensures Sparse(states)
      ensures states == Update(old(states), c, View(old(states), c).(queue := []))
    {
      if c !in states {
        return;
      }
      states := states[c := states[c].(queue := [])];
      MaybeErase(c);
    }

    method DiscardTransaction(c: nat)
      requires Sparse(states)
      modifies this
      ensures Sparse(states) && states == Discard(old(states), c)
    {
      if c !in states {
        return;
      }
      states := states - {c};
    }

    method WatchKey(c: nat, key: string, version: nat)
      requires Sparse(states)
      modifies this
      ensures Sparse(states) && states == Watch(old(states), c, key, version)
    {
      var state := if c in states then states[c] else IDLE;
      state := state.(watched := state.watched + {key});
      state := state.(versions := state.versions[key := version]);
      states := states[c := state];
    }

    method GetWatchedKeys(c: nat) returns (keys: set<string>)
      requires Sparse(states)
      ensures keys == View(states, c).versions.Keys
    {
      if c !in states {
        return {};
      }
      keys := states[c].watched;
    }

    method IsWatchedKeyModified(c: nat, version: string -> nat) returns (b: bool)
      requires Sparse(states)
      ensures b <==> Modified(states, c, version)
    {
      if c !in states {
        return false;
      }
      var state := states[c];
      var keys := state.watched;
      while keys != {}
        invariant keys <= state.watched
        invariant forall k | k in state.watched && k !in keys :: version(k) == state.versions[k]
        decreases keys
      {
        var key :| key in keys;
        keys := keys - {key};
        if key in state.versions && version(key) != state.versions[key] {
          return true;
        }
      }
      return false;
    }

    method ClearWatchedKeys(c: nat)
      requires Sparse(states)
      modifies this
      ensures Sparse(states) && states == Unwatch(old(states), c)
    {
      if c !in states {
        return;
      }
      states := states[c := states[c].(watched := {}, versions := map[])];
      MaybeErase(c);
    }

    method ClearConnectionState(c: nat)
      requires Sparse(states)
      modifies this
      ensures Sparse(states) && states == Update(old(states), c, IDLE)
    {
      states := states - {c};
    }

    /** Called right after one field of `c` was cleared, when the entry may have become idle. */
    method MaybeErase(c: nat)
      requires forall d | d in states :: WellFormed(states[d]) && (d != c ==> states[d] != IDLE)
      modifies this
      ensures Sparse(states)
      ensures states == Update(old(states), c, View(old(states), c))
    {
      if c !in states {
        return;
      }
      if !states[c].inTransaction && states[c].queue == [] && states[c].watched == {} {
        states := states - {c};
      }
    }
  }
}
