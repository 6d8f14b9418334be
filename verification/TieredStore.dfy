/**
 Strings kept in memory over a disk store: Database's Set, Get, Del, EvictKey and PersistKey
 (src/astra/commands/database.hpp) with a disk adapter present, in both storage modes: "Redis" keeps
 cold keys on disk, "RocksDB all-in" writes every key through.
 */
module TieredStore {
  import opened Common

  datatype Mode = ColdOnly | AllIn

  /** The serializer: what was written reads back, and is never empty. */
  datatype Codec = Codec(write: (string, string) -> string, read: string -> Option<string>)

  ghost predicate Lossless(c: Codec) {
    forall k, v {:trigger c.write(k, v)} :: c.write(k, v) != "" && c.read(c.write(k, v)) == Some(v)
  }

  datatype Store = Store(memory: map<string, string>, disk: map<string, string>)

  /** What a reader sees under a key. */
  function View(c: Codec, s: Store, key: string): Option<string> {
    if key in s.memory then Some(s.memory[key])
    else if key in s.disk then c.read(s.disk[key])
    else None
  }

  function Persisted(c: Codec, s: Store, key: string): Store {
    if key in s.memory then s.(disk := s.disk[key := c.write(key, s.memory[key])]) else s
  }

  function Evicted(c: Codec, s: Store, key: string): Store {
    var t := Persisted(c, s, key);
    t.(memory := t.memory - {key})
  }

  function EvictedAll(c: Codec, s: Store, keys: seq<string>): Store {
    if keys == [] then s else Evicted(c, EvictedAll(c, s, keys[..|keys| - 1]), keys[|keys| - 1])
  }

  /** Set: insert, evict whatever the policy picks (possibly the key itself), then write through. */
  function Stored(c: Codec, mode: Mode, s: Store, key: string, value: string, victims: seq<string>): Store {
    var t := EvictedAll(c, s.(memory := s.memory[key := value]), victims);
    if mode.AllIn? then Persisted(c, t, key) else t
  }

  /** Get on a miss brings the value back into memory. */
  function Fetched(c: Codec, s: Store, key: string): Store {
    if key !in s.memory && View(c, s, key).Some? then s.(memory := s.memory[key := View(c, s, key).value]) else s
  }

  function Deleted(mode: Mode, s: Store, key: string): Store {
    Store(s.memory - {key}, if key in s.memory && mode.AllIn? then s.disk - {key} else s.disk)
  }

  /** A restart loses the memory. */
  function Restarted(s: Store): Store { s.(memory := map[]) }

  class Database {
    const codec: Codec
    const mode: Mode
    var strings: map<string, string>
    var disk: map<string, string>

    ghost function State(): Store
      reads this
    {
      Store(strings, disk)
    }

    constructor (codec: Codec, mode: Mode)
      ensures this.codec == codec && this.mode == mode && State() == Store(map[], map[])
    {
      this.codec, this.mode := codec, mode;
      strings, disk := map[], map[];
    }

    method PersistKey(key: string)
      requires Lossless(codec)
      modifies `disk
      ensures State() == Persisted(codec, old(State()), key)
    {
      if key in strings {
        var serialized := codec.write(key, strings[key]);
        if serialized != "" {
          disk := disk[key := serialized];
        }
      }
    }

    method EvictKey(key: string) returns (removed: bool)
      requires Lossless(codec)
      modifies this
      ensures State() == Evicted(codec, old(State()), key) && removed == (key in old(strings))
    {
      PersistKey(key);
      removed := key in strings;
      strings := strings - {key};
    }

    /** `victims` are the keys the eviction policy picks while this write is under way. */
    method Set(key: string, value: string, victims: seq<string>)
      requires Lossless(codec)
      modifies this
      ensures State() == Stored(codec, mode, old(State()), key, value, victims)
    {
      strings := strings[key := value];
      ghost var inserted := State();
      for i := 0 to |victims|
        invariant State() == EvictedAll(codec, inserted, victims[..i])
      {
        assert victims[..i + 1][..i] == victims[..i];
        var _ := EvictKey(victims[i]);
      }
      assert victims[..|victims|] == victims;
      if mode.AllIn? {
        PersistKey(key);
      }
    }

    method Get(key: string) returns (r: Option<string>)
      modifies `strings
      ensures r == View(codec, old(State()), key) && State() == Fetched(codec, old(State()), key)
    {
      if key in strings {
        return Some(strings[key]);
      }
      if key in disk {
        var value := codec.read(disk[key]);
        if value.Some? {
          strings := strings[key := value.value];
          return value;
        }
      }
      r := None;
    }

    method Del(key: string) returns (removed: bool)
      modifies this
      ensures State() == Deleted(mode, old(State()), key) && removed == (key in old(strings))
    {
      removed := key in strings;
      strings := strings - {key};
      if removed && mode.AllIn? {
        disk := disk - {key};
      }
    }
  }

  // ----- What readers see -----

  lemma EvictKeepsView(c: Codec, s: Store, victim: string, key: string)
    requires Lossless(c)
    ensures View(c, Evicted(c, s, victim), key) == View(c, s, key)
  {
  }

  lemma {:induction false} EvictAllKeepsView(c: Codec, s: Store, victims: seq<string>, key: string)
    requires Lossless(c)
    ensures View(c, EvictedAll(c, s, victims), key) == View(c, s, key)
  {
    if victims != [] {
      EvictAllKeepsView(c, s, victims[..|victims| - 1], key);
      EvictKeepsView(c, EvictedAll(c, s, victims[..|victims| - 1]), victims[|victims| - 1], key);
    }
  }

  /** A write changes what readers see under its key and nothing else, whatever is evicted meanwhile. */
  lemma SetIsSeen(c: Codec, mode: Mode, s: Store, key: string, value: string, victims: seq<string>, other: string)
    requires Lossless(c)
    ensures View(c, Stored(c, mode, s, key, value, victims), other) ==
            if other == key then Some(value) else View(c, s, other)
  {
    EvictAllKeepsView(c, s.(memory := s.memory[key := value]), victims, other);
  }

  /** Deleting hides a key exactly when it was in memory in all-in mode, or had no copy on disk. */
  lemma DeleteExact(c: Codec, mode: Mode, s: Store, key: string)
    requires Lossless(c) && Sound(c, s)
    ensures View(c, Deleted(mode, s, key), key).None? <==> (mode.AllIn? && key in s.memory) || key !in s.disk
    ensures forall k | k != key :: View(c, Deleted(mode, s, key), k) == View(c, s, k)
  {
  }

  /** Everything on disk was written by the serializer. */
  ghost predicate Sound(c: Codec, s: Store) { forall k | k in s.disk :: c.read(s.disk[k]).Some? }

  /** In all-in mode the disk has the current value of every key in memory. */
  ghost predicate WrittenThrough(c: Codec, s: Store) {
    forall k | k in s.memory :: k in s.disk && c.read(s.disk[k]) == Some(s.memory[k])
  }

  // ----- Whole runs -----

  datatype Step =
    | DoSet(key: string, value: string, victims: seq<string>)
    | DoGet(key: string)
    | DoEvict(key: string)
    | DoDel(key: string)
    | Restart

  function Next(c: Codec, mode: Mode, s: Store, step: Step): Store {
    match step
    case DoSet(key, value, victims) => Stored(c, mode, s, key, value, victims)
    case DoGet(key) => Fetched(c, s, key)
    case DoEvict(key) => Evicted(c, s, key)
    case DoDel(key) => Deleted(mode, s, key)
    case Restart => Restarted(s)
  }

  function After(c: Codec, mode: Mode, steps: seq<Step>): Store {
    if steps == [] then Store(map[], map[]) else Next(c, mode, After(c, mode, steps[..|steps| - 1]), steps[|steps| - 1])
  }

  function Updated(m: map<string, string>, step: Step): map<string, string> {
    match step
    case DoSet(key, value, _) => m[key := value]
    case DoDel(key) => m - {key}
    case _ => m
  }

  /** The plain map a client thinks it talks to: the last write of each key, until deleted. */
  function Reference(steps: seq<Step>): map<string, string> {
    if steps == [] then map[] else Updated(Reference(steps[..|steps| - 1]), steps[|steps| - 1])
  }

  /** A deletion reaches every copy, and the memory is lost only when all of it is on disk as it is. */
  ghost predicate Safe(c: Codec, mode: Mode, s: Store, step: Step) {
    match step
    case DoDel(key) => (mode.AllIn? && key in s.memory) || key !in s.disk
    case Restart => WrittenThrough(c, s)
    case _ => true
  }

  ghost predicate AllSafe(c: Codec, mode: Mode, steps: seq<Step>) {
    steps == []
    || (AllSafe(c, mode, steps[..|steps| - 1])
        && Safe(c, mode, After(c, mode, steps[..|steps| - 1]), steps[|steps| - 1]))
  }

  /** Readers see the map. */
  ghost predicate Shows(c: Codec, s: Store, m: map<string, string>) { forall k :: View(c, s, k) == Get(m, k) }

  /** After every prefix of the run readers see the map a client thinks it talks to. */
  ghost predicate ShowsThroughout(c: Codec, mode: Mode, steps: seq<Step>) {
    Shows(c, After(c, mode, steps), Reference(steps))
    && (steps == [] || ShowsThroughout(c, mode, steps[..|steps| - 1]))
  }

  ghost predicate Inv(c: Codec, mode: Mode, s: Store) {
    Sound(c, s) && (mode.AllIn? ==> WrittenThrough(c, s))
  }

  lemma {:induction false} EvictAllKeepsInv(c: Codec, s: Store, victims: seq<string>)
    requires Lossless(c)
    ensures Sound(c, s) ==> Sound(c, EvictedAll(c, s, victims))
    ensures forall k | k in EvictedAll(c, s, victims).memory ::
      k in s.memory && EvictedAll(c, s, victims).memory[k] == s.memory[k]
    ensures forall k | k in s.disk && k !in s.memory ::
      k in EvictedAll(c, s, victims).disk && EvictedAll(c, s, victims).disk[k] == s.disk[k]
    ensures forall k | k in s.disk && k in s.memory && c.read(s.disk[k]) == Some(s.memory[k]) ::
      k in EvictedAll(c, s, victims).disk && c.read(EvictedAll(c, s, victims).disk[k]) == Some(s.memory[k])
  {
    if victims != [] {
      EvictAllKeepsInv(c, s, victims[..|victims| - 1]);
    }
  }

  lemma SetKeepsInv(c: Codec, mode: Mode, s: Store, key: string, value: string, victims: seq<string>)
    requires Lossless(c) && Inv(c, mode, s)
    ensures Inv(c, mode, Stored(c, mode, s, key, value, victims))
  {
    var inserted := s.(memory := s.memory[key := value]);
    EvictAllKeepsInv(c, inserted, victims);
    var t := EvictedAll(c, inserted, victims);
    if mode.AllIn? {
      forall k | k in t.memory && k != key ensures k in t.disk && c.read(t.disk[k]) == Some(t.memory[k]) {
        assert k in s.memory && inserted.memory[k] == s.memory[k];
      }
    }
  }

  lemma StepKeeps(c: Codec, mode: Mode, s: Store, step: Step)
    requires Lossless(c) && Inv(c, mode, s)
    ensures Inv(c, mode, Next(c, mode, s, step))
  {
    if step.DoSet? {
      SetKeepsInv(c, mode, s, step.key, step.value, step.victims);
    }
  }

  /** A step keeps up with the map exactly when it is safe. */
  lemma StepMatches(c: Codec, mode: Mode, s: Store, step: Step, m: map<string, string>)
    requires Lossless(c) && Inv(c, mode, s) && Shows(c, s, m)
    ensures Shows(c, Next(c, mode, s, step), Updated(m, step)) <==> Safe(c, mode, s, step)
  {
    var t, n := Next(c, mode, s, step), Updated(m, step);
    match step
    case DoSet(key, value, victims) =>
      forall k ensures View(c, t, k) == Get(n, k) {
        SetIsSeen(c, mode, s, key, value, victims, k);
      }
    case DoGet(_) =>
    case DoEvict(key) =>
      forall k ensures View(c, t, k) == Get(n, k) {
        EvictKeepsView(c, s, key, k);
      }
    case DoDel(key) =>
      DeleteExact(c, mode, s, key);
      assert View(c, t, key) == Get(n, key) <==> Safe(c, mode, s, step);
    case Restart => RestartMatches(c, s, m);
  }

  lemma RestartMatches(c: Codec, s: Store, m: map<string, string>)
    requires Shows(c, s, m)
    ensures Shows(c, Restarted(s), m) <==> WrittenThrough(c, s)
  {
    var t := Restarted(s);
    if Shows(c, t, m) {
      forall k | k in s.memory ensures k in s.disk && c.read(s.disk[k]) == Some(s.memory[k]) {
        assert View(c, t, k) == View(c, s, k);
      }
    } else {
      var k :| View(c, t, k) != Get(m, k);
      assert View(c, s, k) == Get(m, k);
    }
  }

  /**
   In both modes, for every run of writes, reads, evictions, deletions and restarts, readers see all
   along the last value written under every key if and only if every deletion reached all copies and
   every restart found the memory on disk, as it always does in all-in mode.
   */
  lemma {:induction false} StoreIsAMap(c: Codec, mode: Mode, steps: seq<Step>)
    requires Lossless(c)
    ensures ShowsThroughout(c, mode, steps) <==> AllSafe(c, mode, steps)
    ensures Inv(c, mode, After(c, mode, steps))
    ensures mode.AllIn? ==> Safe(c, mode, After(c, mode, steps), Restart)
  {
    if steps != [] {
      var before, step := steps[..|steps| - 1], steps[|steps| - 1];
      StoreIsAMap(c, mode, before);
      var s := After(c, mode, before);
      StepKeeps(c, mode, s, step);
      if ShowsThroughout(c, mode, before) {
        StepMatches(c, mode, s, step, Reference(before));
      }
    }
  }

  /** In "Redis" mode a restart loses what was never evicted. */
  lemma RestartLosesMemory(c: Codec, key: string, value: string)
    ensures var steps := [DoSet(key, value, []), Restart];
      key in Reference(steps) && View(c, After(c, ColdOnly, steps), key).None?
  {
    var set_, both := [DoSet(key, value, [])], [DoSet(key, value, []), Restart];
    assert set_[..0] == [] && both[..1] == set_;
    assert After(c, ColdOnly, set_) == Store(map[key := value], map[]);
    assert Reference(set_) == map[key := value] && Reference(both) == Updated(Reference(set_), Restart);
  }

  /** Elsewhere it fails: in "Redis" mode a deleted key that was ever evicted comes back. */
  lemma DeletedKeyComesBack(c: Codec, key: string, value: string)
    requires Lossless(c)
    ensures var steps := [DoSet(key, value, [key]), DoDel(key)];
      && key !in Reference(steps)
      && View(c, After(c, ColdOnly, steps), key) == Some(value)
      && View(c, After(c, AllIn, steps), key) == Some(value)
  {
    var set_, both := [DoSet(key, value, [key])], [DoSet(key, value, [key]), DoDel(key)];
    assert set_[..0] == [] && both[..1] == set_ && [key][..0] == [];
    forall mode ensures View(c, After(c, mode, both), key) == Some(value) {
      var inserted := Store(map[key := value], map[]);
      assert EvictedAll(c, inserted, [key]) == Evicted(c, inserted, key);
      assert After(c, mode, set_) == Store(map[], map[key := c.write(key, value)]);
      assert After(c, mode, both) == Store(map[], map[key := c.write(key, value)]);
    }
  }
}
