/**
 Key versions behind WATCH (src/astra/storage/key_metadata.hpp) under the string
 operations Database::Set, Del, Get and EvictKey (src/astra/commands/database.hpp).
 */
module KeyVersions {

  /** What happens to one string key. `LoadKey` is a Get that finds the key's value on disk. */
  datatype Op = SetKey | DelKey | EvictKey | LoadKey

  /** GetKeyVersion after one operation on the key; a key that is not in memory has version 0. */
  function Step(version: nat, op: Op): nat {
    match op
    case SetKey => version + 1
    case DelKey => 0
    case EvictKey => 0
    case LoadKey => if version == 0 then 1 else version
  }

  function Run(version: nat, ops: seq<Op>): nat {
    if ops == [] then version else Step(Run(version, ops[..|ops| - 1]), ops[|ops| - 1])
  }

  /** The key was set, or deleted while it was in memory. */
  predicate Written(version: nat, ops: seq<Op>) {
    ops != [] &&
    var before := ops[..|ops| - 1];
    Written(version, before)
    || ops[|ops| - 1].SetKey? || (ops[|ops| - 1].DelKey? && Run(version, before) != 0)
  }

  predicate Reset(ops: seq<Op>) { DelKey in ops || EvictKey in ops }

  /** The operations after the last Del or eviction. */
  function Since(ops: seq<Op>): seq<Op> {
    if ops == [] || ops[|ops| - 1].DelKey? || ops[|ops| - 1].EvictKey? then []
    else Since(ops[..|ops| - 1]) + [ops[|ops| - 1]]
  }

  function Sets(ops: seq<Op>): nat {
    if ops == [] then 0 else Sets(ops[..|ops| - 1]) + if ops[|ops| - 1].SetKey? then 1 else 0
  }

  /** The version that operations without a reset give a key that starts with none. */
  function Rebuilt(ops: seq<Op>): nat {
    Sets(ops) + if ops != [] && ops[0].LoadKey? then 1 else 0
  }

  lemma SetsPush(ops: seq<Op>, op: Op)
    ensures Sets(ops + [op]) == Sets(ops) + if op.SetKey? then 1 else 0
  {
    assert (ops + [op])[..|ops|] == ops;
  }

  /** A key that was reset has the version rebuilt since; any other key counts on from where it was. */
  lemma {:induction false} RunClosedForm(version: nat, ops: seq<Op>)
    ensures Run(version, ops) ==
            if Reset(ops) || version == 0 then Rebuilt(Since(ops)) else version + Sets(Since(ops))
    ensures !Reset(ops) ==> Since(ops) == ops
  {
    if ops != [] {
      var init, last := ops[..|ops| - 1], ops[|ops| - 1];
      RunClosedForm(version, init);
      assert ops == init + [last];
      assert Reset(ops) <==> Reset(init) || last.DelKey? || last.EvictKey?;
      SetsPush(Since(init), last);
    }
  }

  lemma {:induction false} SetsAny(ops: seq<Op>)
    ensures Sets(ops) > 0 <==> SetKey in ops
  {
    if ops != [] {
      SetsAny(ops[..|ops| - 1]);
      assert ops == ops[..|ops| - 1] + [ops[|ops| - 1]];
    }
  }

  /**
   EXEC's version test notices what happened after WATCH exactly when the version rebuilt since
   the last Del or eviction is not the watched one or, if there was neither, when there was a
   Set or a first load of a key that was not in memory.
   */
  lemma WatchNotices(watched: nat, ops: seq<Op>)
    ensures Run(watched, ops) != watched <==>
            if Reset(ops) then Rebuilt(Since(ops)) != watched
            else SetKey in ops || (watched == 0 && LoadKey in ops)
  {
    RunClosedForm(watched, ops);
    SetsAny(ops);
    if !Reset(ops) && ops != [] && SetKey !in ops {
      assert ops[0] in ops;
    }
  }

  lemma {:induction false} SetIsWrite(version: nat, ops: seq<Op>)
    ensures SetKey in ops ==> Written(version, ops)
    ensures Written(version, ops) ==> SetKey in ops || DelKey in ops
  {
    if ops != [] {
      SetIsWrite(version, ops[..|ops| - 1]);
      assert ops == ops[..|ops| - 1] + [ops[|ops| - 1]];
    }
  }

  /** A write is missed exactly when the key was reset and rebuilt to the watched version. */
  lemma WriteMissedExactly(watched: nat, ops: seq<Op>)
    ensures Written(watched, ops) && Run(watched, ops) == watched <==>
            Written(watched, ops) && Reset(ops) && Rebuilt(Since(ops)) == watched
  {
    WatchNotices(watched, ops);
    SetIsWrite(watched, ops);
  }

  lemma {:induction false} SinceUnset(ops: seq<Op>)
    requires SetKey !in ops
    ensures forall op | op in Since(ops) :: op.LoadKey?
    ensures Since(ops) == [] <==> ops == [] || ops[|ops| - 1].DelKey? || ops[|ops| - 1].EvictKey?
  {
    if ops != [] {
      SinceUnset(ops[..|ops| - 1]);
      assert ops[|ops| - 1] in ops;
    }
  }

  /**
   EXEC is refused although nobody wrote the key exactly when the watched key was evicted, unless
   it is as it was: gone again after version 0 or loaded again after version 1; or when a key
   that was not in memory was loaded.
   */
  lemma FalseAlarmExactly(watched: nat, ops: seq<Op>)
    requires !Written(watched, ops)
    ensures Run(watched, ops) != watched <==>
            if Reset(ops) then watched != (if ops[|ops| - 1].LoadKey? then 1 else 0)
            else watched == 0 && ops != []
  {
    WatchNotices(watched, ops);
    SetIsWrite(watched, ops);
    SinceUnset(ops);
    SetsAny(Since(ops));
    if ops != [] {
      assert ops[0] in ops && ops[|ops| - 1] in ops;
    }
  }

  /** The test is fooled: a key at version 1 that is deleted or evicted and set again looks untouched. */
  lemma ResetAndSetAgainIsMissed(reset: Op)
    requires reset.DelKey? || reset.EvictKey?
    ensures Run(1, [reset, SetKey]) == 1
  {
    assert [reset, SetKey][..1] == [reset];
    assert Run(1, [reset]) == Step(Run(1, []), reset);
  }
}
