/**
 Streams and consumer groups: StreamData (src/astra/container/stream_data.hpp) with the removals of
 XDEL, XTRIM and XACK (src/astra/commands/redis/stream_commands.cpp).
 */
module Streams {

  const TWO63: int := 0x8000_0000_0000_0000
  const TWO64: int := 0x1_0000_0000_0000_0000

  datatype Id = Id(ms: nat, seq_: nat)

  predicate Less(a: Id, b: Id) { a.ms < b.ms || (a.ms == b.ms && a.seq_ < b.seq_) }

  predicate AtMost(a: Id, b: Id) { !Less(b, a) }

  datatype Entry = Entry(id: Id, fields: seq<(string, string)>)

  datatype Pending = Pending(entry: Entry, consumer: string, deliveries: nat)

  datatype Group = Group(last: Id, consumers: map<string, Id>, pending: map<Id, Pending>)

  datatype Stream = Stream(entries: seq<Entry>, lastGenerated: Id, groups: map<string, Group>)

  const EMPTY: Stream := Stream([], Id(0, 0), map[])

  // ----- Ids -----

  function ToInt64(n: nat): int { if n >= TWO63 then n - TWO64 else n }

  function ToUint64(n: int): int { if n < 0 then n + TWO64 else n }

  predicate IsUint64(id: Id) { id.ms < TWO64 && id.seq_ < TWO64 }

  /** The id generated for "*" at clock `now`; the clock may go backwards. */
  function AutoId(now: int, last: Id): (id: Id)
    requires -TWO63 <= now < TWO63 && IsUint64(last)
    ensures IsUint64(id)
  {
    var floor := ToInt64(last.ms);
    var ms := if now < floor then floor else now;
    if ms == floor then Id(last.ms, (last.seq_ + 1) % TWO64) else Id(ToUint64(ms), 0)
  }

  /** Generated ids grow exactly when neither the sequence number nor the clock overflows. */
  lemma AutoIdGrowsExactly(now: int, last: Id)
    requires -TWO63 <= now < TWO63 && IsUint64(last)
    ensures Less(last, AutoId(now, last)) <==>
      && (now <= ToInt64(last.ms) ==> last.seq_ + 1 < TWO64)
      && (now > ToInt64(last.ms) ==> last.ms < TWO63 || now < 0)
  {
  }

  /** Without overflow it is the least id that is beyond the last one and not before the clock. */
  lemma AutoIdIsLeast(now: nat, last: Id, other: Id)
    requires now < TWO63 && last.ms < TWO63 && last.seq_ + 1 < TWO64
    ensures var id := AutoId(now, last);
      && Less(last, id) && now <= id.ms
      && (Less(last, other) && now <= other.ms ==> AtMost(id, other))
  {
  }

  // ----- What each operation does -----

  predicate Ordered(es: seq<Entry>) { forall i, j | 0 <= i < j < |es| :: Less(es[i].id, es[j].id) }

  /** The newest `n` entries, or all if there are fewer. */
  function Trimmed(es: seq<Entry>, n: nat): (r: seq<Entry>)
    ensures |r| <= |es| && r == es[|es| - |r|..]
    ensures if n < |es| then |r| == n else r == es
  {
    if |es| <= n then es else es[|es| - n..]
  }

  function Added(s: Stream, e: Entry, maxLen: nat): Stream {
    var es := s.entries + [e];
    s.(entries := if maxLen > 0 then Trimmed(es, maxLen) else es, lastGenerated := e.id)
  }

  /** An explicit id must exceed the newest entry, if there is one. */
  predicate Accepts(s: Stream, id: Id) {
    s.entries == [] || Less(s.entries[|s.entries| - 1].id, id)
  }

  function AddedExplicitly(s: Stream, e: Entry, maxLen: nat): Stream {
    if Accepts(s, e.id) then Added(s, e, maxLen) else s
  }

  /** The first entries after an id, as many as asked for and at least one. */
  function Select(es: seq<Entry>, after: Id, count: nat): seq<Entry> {
    if es == [] then []
    else if AtMost(es[0].id, after) then Select(es[1..], after, count)
    else if count <= 1 then [es[0]]
    else [es[0]] + Select(es[1..], after, count - 1)
  }

  function AddPending(pending: map<Id, Pending>, es: seq<Entry>, consumer: string): map<Id, Pending> {
    if es == [] then pending
    else AddPending(pending, es[..|es| - 1], consumer)[es[|es| - 1].id := Pending(es[|es| - 1], consumer, 1)]
  }

  function Delivered(g: Group, es: seq<Entry>, consumer: string): Group {
    if es == [] then g
    else
      var last := es[|es| - 1].id;
      Group(last, g.consumers[consumer := last], AddPending(g.pending, es, consumer))
  }

  function Deliver(s: Stream, name: string, consumer: string, count: nat): Stream {
    if name !in s.groups then s
    else
      var g := s.groups[name];
      s.(groups := s.groups[name := Delivered(g, Select(s.entries, g.last, count), consumer)])
  }

  function Created(s: Stream, name: string, start: Id): Stream {
    if name in s.groups then s else s.(groups := s.groups[name := Group(start, map[], map[])])
  }

  function Acked(s: Stream, name: string, id: Id): Stream {
    if name !in s.groups then s
    else s.(groups := s.groups[name := s.groups[name].(pending := s.groups[name].pending - {id})])
  }

  /** XDEL: the first entry with the id, if any. */
  function Without(es: seq<Entry>, id: Id): seq<Entry> {
    if es == [] then [] else if es[0].id == id then es[1..] else [es[0]] + Without(es[1..], id)
  }

  /** XDEL removes the entry with the id and no other. */
  lemma {:induction false} WithoutExactly(es: seq<Entry>, id: Id, e: Entry)
    requires Ordered(es)
    ensures e in Without(es, id) <==> e in es && e.id != id
  {
    if es != [] {
      assert e in es <==> e == es[0] || e in es[1..];
      if es[0].id == id {
        assert e in es[1..] ==> exists i :: 0 < i < |es| && es[i] == e;
      } else {
        WithoutExactly(es[1..], id, e);
      }
    }
  }

  /** The entries beyond an id, in order. */
  function Beyond(es: seq<Entry>, after: Id): seq<Entry> {
    if es == [] then []
    else (if Less(after, es[0].id) then [es[0]] else []) + Beyond(es[1..], after)
  }

  /** A read gives the first `count` entries beyond the cursor, or all if there are fewer; never none of some. */
  lemma {:induction false} SelectExactly(es: seq<Entry>, after: Id, count: nat)
    ensures var all, wanted := Beyond(es, after), if count == 0 then 1 else count;
      Select(es, after, count) == if |all| <= wanted then all else all[..wanted]
  {
    if es != [] {
      var rest := Beyond(es[1..], after);
      if AtMost(es[0].id, after) {
        SelectExactly(es[1..], after, count);
        assert Beyond(es, after) == rest;
      } else if count > 1 {
        SelectExactly(es[1..], after, count - 1);
        assert |rest| > count - 1 ==> ([es[0]] + rest)[..count] == [es[0]] + rest[..count - 1];
      }
    }
  }

  // ----- The object -----

  class StreamData {
    var entries: seq<Entry>
    var lastGenerated: Id
    var groups: map<string, Group>

    ghost function State(): Stream
      reads this
    {
      Stream(entries, lastGenerated, groups)
    }

    constructor ()
      ensures State() == EMPTY
    {
      entries, lastGenerated, groups := [], Id(0, 0), map[];
    }

    /** Drop entries from the front until `n` are left. */
    method TrimTo(n: nat)
      modifies `entries
      ensures entries == Trimmed(old(entries), n)
    {
      while |entries| > n
        invariant |entries| <= |old(entries)| && entries == old(entries)[|old(entries)| - |entries|..]
        invariant |entries| >= n || entries == old(entries)
        decreases |entries|
      {
        entries := entries[1..];
      }
    }

    method Push(e: Entry, maxLen: nat)
      modifies this
      ensures State() == Added(old(State()), e, maxLen)
    {
      lastGenerated := e.id;
      entries := entries + [e];
      if maxLen > 0 {
        TrimTo(maxLen);
      }
    }

    /** AddEntry with "*": the id is made from the clock. */
    method AddAuto(fields: seq<(string, string)>, now: int, maxLen: nat) returns (id: Id)
      requires -TWO63 <= now < TWO63 && IsUint64(lastGenerated)
      modifies this
      ensures id == AutoId(now, old(lastGenerated))
      ensures State() == Added(old(State()), Entry(id, fields), maxLen)
    {
      var ms := now;
      if ms < ToInt64(lastGenerated.ms) {
        ms := ToInt64(lastGenerated.ms);
      }
      if ms == ToInt64(lastGenerated.ms) {
        id := Id(lastGenerated.ms, (lastGenerated.seq_ + 1) % TWO64);
      } else {
        id := Id(ToUint64(ms), 0);
      }
      Push(Entry(id, fields), maxLen);
    }

    /** AddEntry with an id: refused with 0-0 unless it exceeds the newest entry. */
    method AddExplicit(fields: seq<(string, string)>, wanted: Id, maxLen: nat) returns (id: Id)
      modifies this
      ensures id == if Accepts(old(State()), wanted) then wanted else Id(0, 0)
      ensures State() == AddedExplicitly(old(State()), Entry(wanted, fields), maxLen)
    {
      if entries != [] && AtMost(wanted, entries[|entries| - 1].id) {
        return Id(0, 0);
      }
      id := wanted;
      Push(Entry(id, fields), maxLen);
    }

    method CreateGroup(name: string, start: Id) returns (created: bool)
      modifies `groups
      ensures created == (name !in old(groups)) && State() == Created(old(State()), name, start)
    {
      if name in groups {
        return false;
      }
      groups := groups[name := Group(start, map[], map[])];
      created := true;
    }

    /** The loop of ReadGroup: the entries to deliver and the pending list with them. */
    method Take(after: Id, count: nat, consumer: string, before: map<Id, Pending>)
      returns (result: seq<Entry>, pending: map<Id, Pending>)
      ensures result == Select(entries, after, count) && pending == AddPending(before, result, consumer)
    {
      result, pending := [], before;
      var i := 0;
      SelectStart(entries, after, count);
      while i < |entries|
        invariant 0 <= i <= |entries| && (result == [] || |result| < count)
        invariant result + Select(entries[i..], after, Left(count, |result|)) == Select(entries, after, count)
        invariant pending == AddPending(before, result, consumer)
      {
        var entry := entries[i];
        SelectStep(entries, i, after, result, count);
        i := i + 1;
        if AtMost(entry.id, after) {
          continue;
        }
        AddPendingPush(before, result, entry, consumer);
        result := result + [entry];
        pending := pending[entry.id := Pending(entry, consumer, 1)];
        if |result| >= count {
          break;
        }
      }
    }

    /** Deliver the next entries of a group to one of its consumers. */
    method ReadGroup(name: string, consumer: string, count: nat) returns (result: seq<Entry>)
      modifies `groups
      ensures result == if name in old(groups) then Select(entries, old(groups)[name].last, count) else []
      ensures State() == Deliver(old(State()), name, consumer, count)
    {
      if name !in groups {
        return [];
      }
      var g := groups[name];
      var pending;
      result, pending := Take(g.last, count, consumer, g.pending);
      if result != [] {
        var last := result[|result| - 1].id;
        g := Group(last, g.consumers[consumer := last], pending);
      }
      groups := groups[name := g];
    }
  }

  lemma SelectStart(es: seq<Entry>, after: Id, count: nat)
    ensures [] + Select(es[0..], after, count) == Select(es, after, count)
  {
    assert es[0..] == es;
  }

  /** What one turn of the loop in ReadGroup does to the entries still to come. */
  lemma SelectStep(es: seq<Entry>, i: nat, after: Id, taken: seq<Entry>, count: nat)
    requires i < |es| && (taken == [] || |taken| < count)
    ensures var left := Left(count, |taken|);
      if AtMost(es[i].id, after) then Select(es[i..], after, left) == Select(es[i + 1..], after, left)
      else if |taken| + 1 >= count then taken + Select(es[i..], after, left) == taken + [es[i]]
      else
        taken + Select(es[i..], after, left)
        == taken + [es[i]] + Select(es[i + 1..], after, Left(count, |taken| + 1))
  {
    assert es[i..][1..] == es[i + 1..] && es[i..][0] == es[i];
  }

  lemma AddPendingPush(pending: map<Id, Pending>, es: seq<Entry>, e: Entry, consumer: string)
    ensures AddPending(pending, es + [e], consumer)
         == AddPending(pending, es, consumer)[e.id := Pending(e, consumer, 1)]
  {
    assert (es + [e])[..|es|] == es;
  }

  /** How many more entries a reader wants after `taken`. */
  function Left(count: nat, taken: nat): nat { if count >= taken then count - taken else 0 }
}
