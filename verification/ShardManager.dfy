/** The partition of hash slots among shards: ShardManager (src/astra/cluster/shard_manager.hpp). */
module ShardManager {
  import opened Routing

  datatype ShardConfig = ShardConfig(id: nat, slotStart: nat, slotEnd: nat)

  predicate ValidCount(count: nat) { 0 < count <= SLOT_COUNT }

  /** Slots of shard `i`: the first shards take one of the remaining slots each. */
  function Size(count: nat, i: nat): (n: nat)
    requires ValidCount(count)
    ensures n >= 1
  {
    Quotient(count);
    SLOT_COUNT / count + if i < SLOT_COUNT % count then 1 else 0
  }

  /** First slot of shard `i`. */
  function Start(count: nat, i: nat): nat
    requires ValidCount(count)
  {
    if i == 0 then 0 else Start(count, i - 1) + Size(count, i - 1)
  }

  function Config(count: nat, i: nat): ShardConfig
    requires ValidCount(count)
  {
    ShardConfig(i, Start(count, i), Start(count, i) + Size(count, i) - 1)
  }

  lemma Quotient(count: nat)
    requires ValidCount(count)
    ensures SLOT_COUNT / count >= 1 && count * (SLOT_COUNT / count) + SLOT_COUNT % count == SLOT_COUNT
    ensures SLOT_COUNT % count < count
  {
    MultipleIsFar(1 - SLOT_COUNT / count, count);
    assert SLOT_COUNT == count * (SLOT_COUNT / count) + SLOT_COUNT % count;
    assert (1 - SLOT_COUNT / count) * count == count - count * (SLOT_COUNT / count);
  }

  lemma {:induction false} StartClosedForm(count: nat, i: nat)
    requires ValidCount(count)
    ensures Start(count, i) == i * (SLOT_COUNT / count) + if i < SLOT_COUNT % count then i else SLOT_COUNT % count
  {
    if i > 0 {
      StartClosedForm(count, i - 1);
      assert i * (SLOT_COUNT / count) == (i - 1) * (SLOT_COUNT / count) + SLOT_COUNT / count;
    }
  }

  /** The shards use up the slots exactly. */
  lemma StartOfEnd(count: nat)
    requires ValidCount(count)
    ensures Start(count, count) == SLOT_COUNT
  {
    StartClosedForm(count, count);
    Quotient(count);
  }

  lemma {:induction false} StartMonotone(count: nat, i: nat, j: nat)
    requires ValidCount(count) && i <= j
    ensures Start(count, i) + (j - i) <= Start(count, j)
    decreases j
  {
    if i < j {
      StartMonotone(count, i, j - 1);
      Quotient(count);
    }
  }

  predicate Owns(count: nat, i: nat, slot: nat)
    requires ValidCount(count)
  {
    i < count && Start(count, i) <= slot < Start(count, i + 1)
  }

  /** The shard that owns a slot, searching down from shard `i`. */
  function OwnerUpTo(count: nat, slot: nat, i: nat): (owner: nat)
    requires ValidCount(count) && i <= count && slot < Start(count, i)
    ensures Owns(count, owner, slot)
  {
    if Start(count, i - 1) <= slot then i - 1 else OwnerUpTo(count, slot, i - 1)
  }

  function Owner(count: nat, slot: nat): (owner: nat)
    requires ValidCount(count) && slot < SLOT_COUNT
    ensures Owns(count, owner, slot)
  {
    StartOfEnd(count);
    OwnerUpTo(count, slot, count)
  }

  /** Ranges are disjoint: a slot has one owner. */
  lemma OwnerUnique(count: nat, slot: nat, i: nat)
    requires ValidCount(count) && slot < SLOT_COUNT && Owns(count, i, slot)
    ensures i == Owner(count, slot)
  {
    var j := Owner(count, slot);
    if i < j {
      StartMonotone(count, i + 1, j);
    } else if j < i {
      StartMonotone(count, j + 1, i);
    }
  }

  /** Shards are contiguous, cover all slots, are never empty and differ by at most one slot. */
  lemma PartitionIsBalanced(count: nat, i: nat, j: nat)
    requires ValidCount(count) && i < count && j < count
    ensures Config(count, 0).slotStart == 0 && Config(count, count - 1).slotEnd == SLOT_COUNT - 1
    ensures i + 1 < count ==> Config(count, i + 1).slotStart == Config(count, i).slotEnd + 1
    ensures 1 <= Size(count, i) <= Size(count, j) + 1
  {
    StartOfEnd(count);
    Quotient(count);
  }

  class ShardManager {
    var shardCount: nat
    var shards: seq<ShardConfig>
    var slotToShard: map<nat, nat>

    constructor ()
      ensures shardCount == 0 && shards == [] && slotToShard == map[]
    {
      shardCount, shards, slotToShard := 0, [], map[];
    }

    /** Map every slot of one shard to it. */
    method MapRange(shard: nat, first: nat, last: nat)
      modifies `slotToShard
      ensures forall slot :: slot in slotToShard <==> slot in old(slotToShard) || first <= slot <= last
      ensures forall slot | slot in slotToShard ::
        slotToShard[slot] == if first <= slot <= last then shard else old(slotToShard)[slot]
    {
      var slot := first;
      while slot <= last
        invariant first <= slot && (slot <= last + 1 || slot == first)
        invariant forall s :: s in slotToShard <==> s in old(slotToShard) || first <= s < slot
        invariant forall s | s in slotToShard ::
          slotToShard[s] == if first <= s < slot then shard else old(slotToShard)[s]
      {
        slotToShard := slotToShard[slot := shard];
        slot := slot + 1;
      }
    }

    /** Slots below `n` are mapped to their owners, and nothing beyond the slots is mapped. */
    ghost predicate Mapped(count: nat, n: nat)
      requires ValidCount(count) && n <= SLOT_COUNT
      reads this
    {
      && (forall slot | slot in slotToShard :: slot < SLOT_COUNT)
      && (forall slot | 0 <= slot < n :: slot in slotToShard && slotToShard[slot] == Owner(count, slot))
    }

    /** The layout of `shardCount` shards is in place: their ranges, and every slot mapped to its owner. */
    ghost predicate Initialized()
      reads this
    {
      && ValidCount(shardCount)
      && |shards| == shardCount
      && (forall i | 0 <= i < shardCount :: shards[i] == Config(shardCount, i))
      && Mapped(shardCount, SLOT_COUNT)
    }

    /** The slots of one shard. */
    method MapShard(count: nat, i: nat)
      requires ValidCount(count) && i < count && Start(count, i) <= SLOT_COUNT && Mapped(count, Start(count, i))
      modifies `slotToShard
      ensures Start(count, i + 1) <= SLOT_COUNT && Mapped(count, Start(count, i + 1))
    {
      StartMonotone(count, i + 1, count);
      StartOfEnd(count);
      var config := Config(count, i);
      MapRange(i, config.slotStart, config.slotEnd);
      forall slot | config.slotStart <= slot <= config.slotEnd ensures Owner(count, slot) == i {
        OwnerUnique(count, slot, i);
      }
    }

    /** Also on an object that was initialized before: no mapping of the earlier layout survives. */
    method Init(count: nat) returns (ok: bool)
      requires forall slot | slot in slotToShard :: slot < SLOT_COUNT
      modifies this
      ensures ok == ValidCount(count)
      ensures !ok ==> shardCount == old(shardCount) && shards == old(shards) && slotToShard == old(slotToShard)
      ensures ok ==> shardCount == count && Initialized()
    {
      if count == 0 || count > SLOT_COUNT {
        return false;
      }
      shardCount, shards := count, [];
      var perShard, remaining := SLOT_COUNT / count, SLOT_COUNT % count;
      var current := 0;
      Quotient(count);
      for i := 0 to count
        invariant current == Start(count, i) <= SLOT_COUNT && shardCount == count && |shards| == i
        invariant remaining == if i < SLOT_COUNT % count then SLOT_COUNT % count - i else 0
        invariant forall j | 0 <= j < i :: shards[j] == Config(count, j)
        invariant Mapped(count, current)
      {
        var slots := perShard;
        if remaining > 0 {
          slots, remaining := slots + 1, remaining - 1;
        }
        assert slots == Size(count, i);
        var config := ShardConfig(i, current, current + slots - 1);
        shards := shards + [config];
        MapShard(count, i);
        current := config.slotEnd + 1;
      }
      StartOfEnd(count);
      ok := true;
    }

    /** Shard `i` is there and its range holds the slot, as no other shard's range does. */
    ghost predicate Holds(i: nat, slot: nat)
      reads this
    {
      && i < |shards|
      && shards[i].slotStart <= slot <= shards[i].slotEnd
      && (forall j | 0 <= j < |shards| && shards[j].slotStart <= slot <= shards[j].slotEnd :: j == i)
    }

    /** The one shard whose range holds the slot; shard 0 for a slot that was never mapped. */
    method GetShardForSlot(slot: nat) returns (shard: nat)
      ensures Initialized() && slot < SLOT_COUNT ==> Holds(shard, slot)
      ensures Initialized() && slot >= SLOT_COUNT ==> shard == 0
      ensures slotToShard == map[] ==> shard == 0
    {
      shard := if slot in slotToShard then slotToShard[slot] else 0;
      if Initialized() && slot < SLOT_COUNT {
        OwnerHolds(this, slot);
      }
    }

    /** The one shard whose range holds the key's slot, which is shard 0 before Init. */
    method GetShardForKey(hash: string -> nat, key: string) returns (shard: nat)
      ensures Initialized() ==> Holds(shard, Slot(hash, key))
      ensures slotToShard == map[] ==> shard == 0
    {
      shard := GetShardForSlot(Slot(hash, key));
    }
  }

  lemma OwnerHolds(m: ShardManager, slot: nat)
    requires m.Initialized() && slot < SLOT_COUNT
    ensures m.Holds(Owner(m.shardCount, slot), slot)
  {
    forall j | 0 <= j < |m.shards| && m.shards[j].slotStart <= slot <= m.shards[j].slotEnd
      ensures j == Owner(m.shardCount, slot)
    {
      OwnerUnique(m.shardCount, slot, j);
    }
  }

  /** What GetShardForKey may return for keys with the same hash tag is the same shard. */
  lemma SameTagSameShard(
      m: ShardManager, hash: string -> nat, tag: string,
      k1: string, p1: string, s1: string, k2: string, p2: string, s2: string, shard1: nat, shard2: nat)
    requires m.Initialized() && Tagged(k1, p1, tag, s1) && Tagged(k2, p2, tag, s2)
    requires m.Holds(shard1, Slot(hash, k1)) && m.Holds(shard2, Slot(hash, k2))
    ensures shard1 == shard2 == Owner(m.shardCount, Slot(hash, k1)) == Owner(m.shardCount, Slot(hash, k2))
  {
    TagIsHashed(k1, p1, tag, s1);
    TagIsHashed(k2, p2, tag, s2);
    OwnerHolds(m, Slot(hash, k1));
  }
}
