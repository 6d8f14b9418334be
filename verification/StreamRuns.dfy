/** What every run of a stream guarantees to its consumer groups. */
module StreamRuns {
  import opened Common
  import opened Streams

  /** An entry handed to a consumer, and which addition to the stream it came from. */
  datatype Gift = Gift(entry: Entry, consumer: string, serial: nat)

  /** What a group was ever given: where it started, its gifts in order, and acks. */
  datatype History = History(start: Id, given: seq<Gift>, acked: set<Id>)

  /** `added` counts the additions; `born` is the latest addition under an id. */
  datatype Sys = Sys(stream: Stream, histories: map<string, History>, added: nat, born: map<Id, nat>)

  datatype Step =
    | AddAuto(fields: seq<(string, string)>, now: int, maxLen: nat)
    | AddExplicit(fields: seq<(string, string)>, id: Id, maxLen: nat)
    | CreateGroup(name: string, start: Id)
    | ReadGroup(name: string, consumer: string, count: nat)
    | Ack(name: string, id: Id)
    | Delete(id: Id)
    | Trim(maxLen: nat)

  const INIT := Sys(EMPTY, map[], 0, map[])

  function SerialOf(born: map<Id, nat>, id: Id): nat { if id in born then born[id] else 0 }

  function Gifts(es: seq<Entry>, consumer: string, born: map<Id, nat>): seq<Gift> {
    seq(|es|, i requires 0 <= i < |es| => Gift(es[i], consumer, SerialOf(born, es[i].id)))
  }

  /** Clocks are signed and ids unsigned 64-bit numbers; a group exists before it is read. */
  predicate Enabled(s: Sys, step: Step) {
    match step
    case AddAuto(_, now, _) => -TWO63 <= now < TWO63 && IsUint64(s.stream.lastGenerated)
    case AddExplicit(_, id, _) => IsUint64(id)
    case ReadGroup(name, _, _) => name in s.stream.groups && name in s.histories
    case Ack(name, _) => name in s.stream.groups && name in s.histories
    case _ => true
  }

  function Stored(s: Sys, e: Entry, maxLen: nat): Sys {
    Sys(Added(s.stream, e, maxLen), s.histories, s.added + 1, s.born[e.id := s.added])
  }

  function Next(s: Sys, step: Step): Sys
    requires Enabled(s, step)
  {
    match step
    case AddAuto(fields, now, maxLen) => Stored(s, Entry(AutoId(now, s.stream.lastGenerated), fields), maxLen)
    case AddExplicit(fields, id, maxLen) =>
      if Accepts(s.stream, id) then Stored(s, Entry(id, fields), maxLen) else s
    case CreateGroup(name, start) =>
      if name in s.stream.groups then s
      else s.(stream := Created(s.stream, name, start), histories := s.histories[name := History(start, [], {})])
    case ReadGroup(name, consumer, count) =>
      var h := s.histories[name];
      var es := Select(s.stream.entries, s.stream.groups[name].last, count);
      s.(stream := Deliver(s.stream, name, consumer, count),
         histories := s.histories[name := h.(given := h.given + Gifts(es, consumer, s.born))])
    case Ack(name, id) =>
      var h := s.histories[name];
      s.(stream := Acked(s.stream, name, id),
         histories := if id in s.stream.groups[name].pending then s.histories[name := h.(acked := h.acked + {id})]
                      else s.histories)
    case Delete(id) => s.(stream := s.stream.(entries := Without(s.stream.entries, id)))
    case Trim(n) => s.(stream := s.stream.(entries := Trimmed(s.stream.entries, n)))
  }

  predicate IsRun(s: Sys, steps: seq<Step>)
    decreases |steps|, 0
  {
    steps == []
    || (IsRun(s, steps[..|steps| - 1]) && Enabled(After(s, steps[..|steps| - 1]), steps[|steps| - 1]))
  }

  function After(s: Sys, steps: seq<Step>): Sys
    requires IsRun(s, steps)
    decreases |steps|, 1
  {
    if steps == [] then s else Next(After(s, steps[..|steps| - 1]), steps[|steps| - 1])
  }

  lemma RunPush(s: Sys, steps: seq<Step>, step: Step)
    requires IsRun(s, steps) && Enabled(After(s, steps), step)
    ensures IsRun(s, steps + [step]) && After(s, steps + [step]) == Next(After(s, steps), step)
  {
    assert (steps + [step])[..|steps|] == steps;
  }

  /** `p` holds after every prefix of the run. */
  predicate Throughout(s: Sys, steps: seq<Step>, p: Sys -> bool)
    requires IsRun(s, steps)
  {
    p(After(s, steps)) && (steps == [] || Throughout(s, steps[..|steps| - 1], p))
  }

  /** `p` holds of every step of the run in the state it is taken in. */
  predicate Along(s: Sys, steps: seq<Step>, p: (Sys, Step) -> bool)
    requires IsRun(s, steps)
  {
    steps == []
    || (Along(s, steps[..|steps| - 1], p) && p(After(s, steps[..|steps| - 1]), steps[|steps| - 1]))
  }

  // ----- Entries stay strictly increasing -----

  predicate StreamOk(st: Stream) {
    && Ordered(st.entries) && IsUint64(st.lastGenerated)
    && (st.entries != [] ==> AtMost(st.entries[|st.entries| - 1].id, st.lastGenerated))
  }

  lemma {:induction false} WithoutSubset(es: seq<Entry>, id: Id)
    ensures forall e | e in Without(es, id) :: e in es
  {
    if es != [] && es[0].id != id {
      WithoutSubset(es[1..], id);
    }
  }

  lemma FirstIsLeast(es: seq<Entry>, e: Entry)
    requires es != [] && Ordered(es) && e in es[1..]
    ensures Less(es[0].id, e.id)
  {
    var i :| 0 <= i < |es[1..]| && es[1..][i] == e;
    assert es[i + 1] == e;
  }

  lemma LastIsMost(es: seq<Entry>, e: Entry)
    requires Ordered(es) && e in es
    ensures AtMost(e.id, es[|es| - 1].id)
  {
    var i :| 0 <= i < |es| && es[i] == e;
    assert i < |es| - 1 ==> Less(es[i].id, es[|es| - 1].id);
  }

  lemma {:induction false} WithoutOrdered(es: seq<Entry>, id: Id)
    requires Ordered(es)
    ensures Ordered(Without(es, id))
  {
    if es != [] && es[0].id != id {
      var r := Without(es[1..], id);
      WithoutOrdered(es[1..], id);
      WithoutSubset(es[1..], id);
      forall j | 0 <= j < |r| ensures Less(es[0].id, r[j].id) {
        FirstIsLeast(es, r[j]);
      }
    }
  }

  lemma WithoutIs(es: seq<Entry>, id: Id)
    ensures forall e | e in Without(es, id) :: e in es
    ensures Ordered(es) ==> Ordered(Without(es, id))
    ensures Ordered(es) && Without(es, id) != [] ==>
      AtMost(Without(es, id)[|Without(es, id)| - 1].id, es[|es| - 1].id)
  {
    var r := Without(es, id);
    WithoutSubset(es, id);
    if Ordered(es) {
      WithoutOrdered(es, id);
      if r != [] {
        LastIsMost(es, r[|r| - 1]);
      }
    }
  }

  /** Neither the sequence number nor the signed clock overflows. */
  predicate ClockOk(last: Id, now: int) {
    && (now <= ToInt64(last.ms) ==> last.seq_ + 1 < TWO64)
    && (now > ToInt64(last.ms) ==> last.ms < TWO63 || now < 0)
  }

  /** The milliseconds of a generated id. */
  function ClampedMs(last: Id, now: int): int { if now <= ToInt64(last.ms) then last.ms else ToUint64(now) }

  /**
   What a generated id needs to keep the entries in order: nothing of the kind to overtake, no
   overflow, or a newest entry far enough behind the last id.
   */
  predicate Fine(st: Stream, now: int, maxLen: nat) {
    || st.entries == []
    || maxLen == 1
    || ClockOk(st.lastGenerated, now)
    || st.entries[|st.entries| - 1].id.ms < ClampedMs(st.lastGenerated, now)
  }

  function FineSteps(): (Sys, Step) -> bool {
    (s: Sys, step: Step) => step.AddAuto? ==> Fine(s.stream, step.now, step.maxLen)
  }

  function InOrder(): Sys -> bool { (s: Sys) => Ordered(s.stream.entries) }

  lemma AcceptsExactly(st: Stream, now: int)
    requires StreamOk(st) && -TWO63 <= now < TWO63
    ensures Accepts(st, AutoId(now, st.lastGenerated)) <==> Fine(st, now, 0)
  {
    AutoIdGrowsExactly(now, st.lastGenerated);
  }

  lemma AddedEntries(st: Stream, e: Entry, maxLen: nat)
    ensures var es := Added(st, e, maxLen).entries;
      && es != [] && es[|es| - 1] == e
      && (forall x | x in es :: x == e || x in st.entries)
      && (maxLen == 1 ==> es == [e])
      && (maxLen != 1 && st.entries != [] ==> |es| > 1 && es[|es| - 2] == st.entries[|st.entries| - 1])
  {
  }

  lemma AddKeepsOrder(st: Stream, e: Entry, maxLen: nat)
    requires StreamOk(st) && IsUint64(e.id)
    ensures Ordered(Added(st, e, maxLen).entries) <==> Accepts(st, e.id) || maxLen == 1
    ensures Accepts(st, e.id) || maxLen == 1 ==> StreamOk(Added(st, e, maxLen))
  {
    AddedEntries(st, e, maxLen);
    if Accepts(st, e.id) {
      OrderedPush(st.entries, e);
      TrimKeepsOrder(st.entries + [e], maxLen);
    }
  }

  lemma OrderedPush(es: seq<Entry>, e: Entry)
    requires Ordered(es) && (es == [] || Less(es[|es| - 1].id, e.id))
    ensures Ordered(es + [e])
  {
    var all := es + [e];
    forall i, j | 0 <= i < j < |all| ensures Less(all[i].id, all[j].id) {
      if j == |es| && i < j - 1 {
        assert Less(es[i].id, es[j - 1].id);
      }
    }
  }

  lemma TrimKeepsOrder(es: seq<Entry>, n: nat)
    requires Ordered(es)
    ensures Ordered(Trimmed(es, n))
  {
    var r := Trimmed(es, n);
    forall i, j | 0 <= i < j < |r| ensures Less(r[i].id, r[j].id) {
      assert r[i] == es[|es| - |r| + i] && r[j] == es[|es| - |r| + j];
    }
  }

  lemma StreamStep(s: Sys, step: Step)
    requires StreamOk(s.stream) && Enabled(s, step)
    ensures Ordered(Next(s, step).stream.entries) <==> FineSteps()(s, step)
    ensures FineSteps()(s, step) ==> StreamOk(Next(s, step).stream)
  {
    match step
    case AddAuto(fields, now, maxLen) =>
      AcceptsExactly(s.stream, now);
      AddKeepsOrder(s.stream, Entry(AutoId(now, s.stream.lastGenerated), fields), maxLen);
    case AddExplicit(fields, id, maxLen) =>
      AddKeepsOrder(s.stream, Entry(id, fields), maxLen);
    case Delete(id) => WithoutIs(s.stream.entries, id);
    case _ =>
  }

  /**
   The ids kept are strictly increasing all along a run, with any clock, trimming and deletion, if
   and only if every generated id was fine.
   */
  lemma {:induction false} IdsIncrease(steps: seq<Step>)
    requires IsRun(INIT, steps)
    ensures Throughout(INIT, steps, InOrder()) <==> Along(INIT, steps, FineSteps())
    ensures Along(INIT, steps, FineSteps()) ==> StreamOk(After(INIT, steps).stream)
  {
    if steps != [] {
      IdsIncrease(steps[..|steps| - 1]);
      if Along(INIT, steps[..|steps| - 1], FineSteps()) {
        StreamStep(After(INIT, steps[..|steps| - 1]), steps[|steps| - 1]);
      }
    }
  }

  /** Every id stays a 64-bit one, so that "*" is accepted in every state and at every clock. */
  lemma {:induction false} AutoAlwaysRuns(steps: seq<Step>, fields: seq<(string, string)>, now: int, maxLen: nat)
    requires IsRun(INIT, steps) && -TWO63 <= now < TWO63
    ensures Enabled(After(INIT, steps), AddAuto(fields, now, maxLen))
  {
    if steps != [] {
      AutoAlwaysRuns(steps[..|steps| - 1], fields, now, maxLen);
    }
  }

  /** An explicit id of 2^63 ms or more followed by "*" goes backwards. */
  lemma ClockOverflowGoesBackwards(fields: seq<(string, string)>)
    ensures var steps := [AddExplicit(fields, Id(TWO63, 0), 0), AddAuto(fields, 1, 0)];
      && IsRun(INIT, steps)
      && After(INIT, steps).stream.entries == [Entry(Id(TWO63, 0), fields), Entry(Id(1, 0), fields)]
      && !Ordered(After(INIT, steps).stream.entries)
  {
    var a, b := AddExplicit(fields, Id(TWO63, 0), 0), AddAuto(fields, 1, 0);
    RunPush(INIT, [], a);
    assert [] + [a] == [a] && [a] + [b] == [a, b];
    RunPush(INIT, [a], b);
    var es := After(INIT, [a, b]).stream.entries;
    assert es == [Entry(Id(TWO63, 0), fields), Entry(Id(1, 0), fields)];
    assert !Less(es[0].id, es[1].id);
  }

  // ----- Nothing is delivered twice; the pending list is exact -----

  predicate GivenOrdered(given: seq<Gift>) {
    forall i, j | 0 <= i < j < |given| :: Less(given[i].entry.id, given[j].entry.id)
  }

  predicate WasGiven(given: seq<Gift>, id: Id) { exists i :: 0 <= i < |given| && given[i].entry.id == id }

  /** Ids are given in increasing order after the start; the cursor is the last one. */
  predicate CursorOk(last: Id, h: History) {
    && GivenOrdered(h.given)
    && (forall i | 0 <= i < |h.given| :: Less(h.start, h.given[i].entry.id))
    && last == (if h.given == [] then h.start else h.given[|h.given| - 1].entry.id)
  }

  /** What is pending is what was given and not acknowledged, under the consumer it was given to. */
  predicate PendingOk(pending: map<Id, Pending>, h: History) {
    && (forall i | 0 <= i < |h.given| ::
          if h.given[i].entry.id in pending then
            pending[h.given[i].entry.id] == Pending(h.given[i].entry, h.given[i].consumer, 1)
          else h.given[i].entry.id in h.acked)
    && (forall id | id in pending :: WasGiven(h.given, id) && id !in h.acked && pending[id].entry.id == id)
    && (forall id | id in h.acked :: WasGiven(h.given, id))
  }

  /** The last id a consumer was given. */
  function LastGiven(given: seq<Gift>, consumer: string): Option<Id> {
    if given == [] then None
    else if given[|given| - 1].consumer == consumer then Some(given[|given| - 1].entry.id)
    else LastGiven(given[..|given| - 1], consumer)
  }

  /** The consumers known are those that were given something, each with the last id it was given. */
  ghost predicate ConsumersOk(consumers: map<string, Id>, given: seq<Gift>) {
    forall c :: ConsumerOk(consumers, given, c)
  }

  predicate ConsumerOk(consumers: map<string, Id>, given: seq<Gift>, c: string) {
    LastGiven(given, c) == if c in consumers then Some(consumers[c]) else None
  }

  ghost predicate GroupOk(g: Group, h: History) {
    CursorOk(g.last, h) && PendingOk(g.pending, h) && ConsumersOk(g.consumers, h.given)
  }

  ghost predicate GroupsOk(s: Sys) {
    && s.stream.groups.Keys == s.histories.Keys
    && forall name | name in s.histories :: GroupOk(s.stream.groups[name], s.histories[name])
  }

  function Give(h: History, gift: Gift): History { h.(given := h.given + [gift]) }

  lemma GivenBelowCursor(last: Id, h: History, i: nat)
    requires CursorOk(last, h) && i < |h.given|
    ensures AtMost(h.given[i].entry.id, last) && Less(h.start, last)
  {
    if i < |h.given| - 1 {
      assert Less(h.given[i].entry.id, h.given[|h.given| - 1].entry.id);
    }
  }

  lemma LessTrans(a: Id, b: Id, c: Id)
    requires AtMost(a, b) && Less(b, c)
    ensures Less(a, c)
  {
  }

  lemma CursorMoves(last: Id, h: History, gift: Gift)
    requires CursorOk(last, h) && Less(last, gift.entry.id)
    ensures CursorOk(gift.entry.id, Give(h, gift))
    ensures forall i | 0 <= i < |h.given| :: h.given[i].entry.id != gift.entry.id
  {
    var n := Give(h, gift);
    forall i | 0 <= i < |h.given| ensures Less(h.given[i].entry.id, gift.entry.id) {
      GivenBelowCursor(last, h, i);
      LessTrans(h.given[i].entry.id, last, gift.entry.id);
    }
    if h.given != [] {
      GivenBelowCursor(last, h, 0);
    }
    assert forall i | 0 <= i < |h.given| :: n.given[i] == h.given[i];
  }

  lemma PendingGrows(pending: map<Id, Pending>, h: History, e: Entry, consumer: string, serial: nat)
    requires PendingOk(pending, h) && forall i | 0 <= i < |h.given| :: h.given[i].entry.id != e.id
    ensures PendingOk(pending[e.id := Pending(e, consumer, 1)], Give(h, Gift(e, consumer, serial)))
  {
    var n := Give(h, Gift(e, consumer, serial));
    assert n.given[|h.given|].entry.id == e.id;
    assert forall i | 0 <= i < |h.given| :: n.given[i] == h.given[i];
    forall id | WasGiven(h.given, id) ensures WasGiven(n.given, id) && id != e.id {
      var i :| 0 <= i < |h.given| && h.given[i].entry.id == id;
      assert n.given[i].entry.id == id;
    }
  }

  lemma ConsumersGrow(consumers: map<string, Id>, given: seq<Gift>, gift: Gift)
    requires ConsumersOk(consumers, given)
    ensures ConsumersOk(consumers[gift.consumer := gift.entry.id], given + [gift])
  {
    var known, all := consumers[gift.consumer := gift.entry.id], given + [gift];
    assert all[..|given|] == given;
    forall c ensures ConsumerOk(known, all, c) {
      assert ConsumerOk(consumers, given, c);
    }
  }

  function DeliveredOne(g: Group, e: Entry, consumer: string): Group {
    Group(e.id, g.consumers[consumer := e.id], g.pending[e.id := Pending(e, consumer, 1)])
  }

  lemma DeliveredPush(g: Group, es: seq<Entry>, e: Entry, consumer: string)
    ensures Delivered(g, es + [e], consumer) == DeliveredOne(Delivered(g, es, consumer), e, consumer)
  {
    assert (es + [e])[..|es|] == es;
  }

  lemma GiftsPush(given: seq<Gift>, es: seq<Entry>, e: Entry, consumer: string, born: map<Id, nat>)
    ensures given + Gifts(es + [e], consumer, born)
         == given + Gifts(es, consumer, born) + [Gift(e, consumer, SerialOf(born, e.id))]
  {
  }

  function Given(h: History, es: seq<Entry>, consumer: string, born: map<Id, nat>): History {
    h.(given := h.given + Gifts(es, consumer, born))
  }

  /** Giving ordered entries beyond the cursor keeps the books in order. */
  lemma {:induction false} DeliverKeeps(g: Group, h: History, es: seq<Entry>, consumer: string, born: map<Id, nat>)
    requires GroupOk(g, h) && Ordered(es) && forall i | 0 <= i < |es| :: Less(g.last, es[i].id)
    ensures GroupOk(Delivered(g, es, consumer), Given(h, es, consumer, born))
  {
    if es == [] {
      assert h.given + Gifts(es, consumer, born) == h.given;
    } else {
      var init, e := es[..|es| - 1], es[|es| - 1];
      assert es == init + [e];
      DeliverKeeps(g, h, init, consumer, born);
      DeliveredPush(g, init, e, consumer);
      GiftsPush(h.given, init, e, consumer, born);
      DeliverOneKeeps(
        Delivered(g, init, consumer), Given(h, init, consumer, born), e, consumer, SerialOf(born, e.id));
    }
  }

  lemma DeliverOneKeeps(g: Group, h: History, e: Entry, consumer: string, serial: nat)
    requires GroupOk(g, h) && Less(g.last, e.id)
    ensures GroupOk(DeliveredOne(g, e, consumer), Give(h, Gift(e, consumer, serial)))
  {
    CursorMoves(g.last, h, Gift(e, consumer, serial));
    PendingGrows(g.pending, h, e, consumer, serial);
    ConsumersGrow(g.consumers, h.given, Gift(e, consumer, serial));
  }

  /** Select takes the entries right after the cursor, skipping none. */
  predicate Selected(es: seq<Entry>, after: Id, r: seq<Entry>) {
    && Ordered(r)
    && (forall i | 0 <= i < |r| :: r[i] in es && Less(after, r[i].id))
    && (r != [] ==> forall e | e in es && Less(after, e.id) && AtMost(e.id, r[|r| - 1].id) :: e in r)
  }

  lemma {:induction false} SelectIs(es: seq<Entry>, after: Id, count: nat)
    requires Ordered(es)
    ensures Selected(es, after, Select(es, after, count))
  {
    if es != [] {
      if AtMost(es[0].id, after) {
        SelectIs(es[1..], after, count);
        SelectSkip(es, after, Select(es[1..], after, count));
      } else if count <= 1 {
        SelectCons(es, after, []);
        assert [es[0]] + [] == [es[0]];
      } else {
        SelectIs(es[1..], after, count - 1);
        SelectCons(es, after, Select(es[1..], after, count - 1));
      }
    }
  }

  lemma SelectSkip(es: seq<Entry>, after: Id, q: seq<Entry>)
    requires es != [] && AtMost(es[0].id, after) && Selected(es[1..], after, q)
    ensures Selected(es, after, q)
  {
    assert es == [es[0]] + es[1..];
  }

  lemma SelectCons(es: seq<Entry>, after: Id, q: seq<Entry>)
    requires Ordered(es) && es != [] && Less(after, es[0].id) && Selected(es[1..], after, q)
    ensures Selected(es, after, [es[0]] + q)
  {
    var r := [es[0]] + q;
    forall e | e in es[1..] ensures Less(es[0].id, e.id) {
      var k :| 0 <= k < |es[1..]| && es[1..][k] == e;
      assert es[k + 1] == e;
    }
    forall e | e in es && Less(after, e.id) && AtMost(e.id, r[|r| - 1].id) ensures e in r {
      if e != es[0] {
        assert e in es[1..];
      }
    }
  }

  lemma GroupUpdated(s: Sys, t: Sys, name: string)
    requires GroupsOk(s) && name in t.stream.groups && name in t.histories
    requires t.stream.groups == s.stream.groups[name := t.stream.groups[name]]
    requires t.histories == s.histories[name := t.histories[name]]
    requires GroupOk(t.stream.groups[name], t.histories[name])
    ensures GroupsOk(t)
  {
  }

  lemma ReadKeeps(s: Sys, step: Step)
    requires Ordered(s.stream.entries) && GroupsOk(s) && step.ReadGroup? && Enabled(s, step)
    ensures GroupsOk(Next(s, step))
  {
    var g := s.stream.groups[step.name];
    SelectIs(s.stream.entries, g.last, step.count);
    DeliverKeeps(g, s.histories[step.name], Select(s.stream.entries, g.last, step.count), step.consumer, s.born);
    GroupUpdated(s, Next(s, step), step.name);
  }

  lemma GroupStep(s: Sys, step: Step)
    requires Ordered(s.stream.entries) && GroupsOk(s) && Enabled(s, step)
    ensures GroupsOk(Next(s, step))
  {
    if step.ReadGroup? {
      ReadKeeps(s, step);
    } else if step.Ack? {
      AckKeeps(s.stream.groups[step.name], s.histories[step.name], step.id);
      assert s.histories == s.histories[step.name := s.histories[step.name]];
      GroupUpdated(s, Next(s, step), step.name);
    } else if step.CreateGroup? && step.name !in s.stream.groups {
      assert GroupOk(Group(step.start, map[], map[]), History(step.start, [], {}));
      GroupUpdated(s, Next(s, step), step.name);
    }
  }

  lemma AckKeeps(g: Group, h: History, id: Id)
    requires GroupOk(g, h)
    ensures GroupOk(g.(pending := g.pending - {id}), if id in g.pending then h.(acked := h.acked + {id}) else h)
  {
    assert id in g.pending ==> WasGiven(h.given, id);
  }

  /**
   In every run whose generated ids are fine, with any trimming, deletion and acknowledgement, a group
   is given strictly increasing ids after its start id, so none twice; and its pending list holds
   exactly the ids given and not acknowledged, each under the consumer it was given to.
   */
  lemma {:induction false} NothingDeliveredTwice(steps: seq<Step>)
    requires IsRun(INIT, steps) && Along(INIT, steps, FineSteps())
    ensures GroupsOk(After(INIT, steps))
  {
    if steps != [] {
      NothingDeliveredTwice(steps[..|steps| - 1]);
      IdsIncrease(steps[..|steps| - 1]);
      GroupStep(After(INIT, steps[..|steps| - 1]), steps[|steps| - 1]);
    }
  }

  // ----- Out of order, entries are delivered twice -----

  /** Reading as many entries as there are gives all beyond the cursor. */
  lemma {:induction false} SelectAll(es: seq<Entry>, after: Id, count: nat)
    requires |es| <= count
    ensures forall e | e in es && Less(after, e.id) :: e in Select(es, after, count)
  {
    if es != [] {
      assert forall e | e in es :: e == es[0] || e in es[1..];
      if AtMost(es[0].id, after) {
        SelectAll(es[1..], after, count);
      } else if count > 1 {
        SelectAll(es[1..], after, count - 1);
      }
    }
  }

  /** The newest two entries come last. */
  lemma {:induction false} SelectEnds(es: seq<Entry>, after: Id, count: nat)
    requires 2 <= |es| <= count && Less(after, es[|es| - 1].id) && Less(after, es[|es| - 2].id)
    ensures var n, r := |es|, Select(es, after, count);
      |r| >= 2 && r[|r| - 1] == es[n - 1] && r[|r| - 2] == es[n - 2]
  {
    if |es| == 2 {
      assert es[1..] == [es[1]] && Select([es[1]], after, count - 1) == [es[1]];
    } else if AtMost(es[0].id, after) {
      SelectEnds(es[1..], after, count);
    } else {
      SelectEnds(es[1..], after, count - 1);
    }
  }

  /** Two gifts with the same id. */
  predicate Repeats(given: seq<Gift>) { exists i, j :: 0 <= i < j < |given| && given[i].entry.id == given[j].entry.id }

  /** Reading everything twice when the newest entry is not beyond the one before it. */
  lemma ReadTwiceRepeats(es: seq<Entry>, start: Id, consumer: string, born: map<Id, nat>)
    requires |es| >= 2 && Less(start, es[|es| - 1].id) && AtMost(es[|es| - 1].id, es[|es| - 2].id)
    ensures Repeats(Gifts(Select(es, start, |es|), consumer, born)
                    + Gifts(Select(es, es[|es| - 1].id, |es|), consumer, born))
    ensures var r := Select(es, start, |es|); r != [] && r[|r| - 1] == es[|es| - 1]
  {
    var n, e, x := |es|, es[|es| - 1], es[|es| - 2];
    var r1, r2 := Select(es, start, n), Select(es, e.id, n);
    var given := Gifts(r1, consumer, born) + Gifts(r2, consumer, born);
    SelectEnds(es, start, n);
    SelectAll(es, e.id, n);
    assert given[|r1| - 2].entry.id == x.id && given[|r1| - 1].entry.id == e.id;
    if Less(e.id, x.id) {
      var k :| 0 <= k < |r2| && r2[k] == x;
      assert given[|r1| + k].entry.id == x.id;
    }
  }

  /** The four steps that show it: add, create a group, read everything, read again. */
  function Demonstration(s: Sys, add: Step, name: string, consumer: string): seq<Step>
    requires add.AddAuto? && Enabled(s, add)
  {
    var read := ReadGroup(name, consumer, |Next(s, add).stream.entries|);
    [add, CreateGroup(name, Id(0, 0)), read, read]
  }

  lemma RunOfFour(s: Sys, a: Step, b: Step, c: Step, d: Step)
    requires Enabled(s, a) && Enabled(Next(s, a), b) && Enabled(Next(Next(s, a), b), c)
    requires Enabled(Next(Next(Next(s, a), b), c), d)
    ensures IsRun(s, [a, b, c, d]) && After(s, [a, b, c, d]) == Next(Next(Next(Next(s, a), b), c), d)
  {
    RunPush(s, [], a);
    assert [] + [a] == [a] && [a] + [b] == [a, b] && [a, b] + [c] == [a, b, c] && [a, b, c] + [d] == [a, b, c, d];
    RunPush(s, [a], b);
    RunPush(s, [a, b], c);
    RunPush(s, [a, b, c], d);
  }

  /**
   The condition is needed: after any run with fine ids, one generated id that is not fine lets a new
   group be given an entry twice. (An entry 0-0 is beyond no start id and never given to anyone.)
   */
  lemma BackwardIdIsDeliveredTwice(steps: seq<Step>, add: Step, name: string, consumer: string)
    requires IsRun(INIT, steps) && Along(INIT, steps, FineSteps()) && add.AddAuto?
    requires Enabled(After(INIT, steps), add) && !FineSteps()(After(INIT, steps), add)
    requires Less(Id(0, 0), AutoId(add.now, After(INIT, steps).stream.lastGenerated))
    requires name !in After(INIT, steps).stream.groups
    ensures var s := After(INIT, steps);
      var more := Demonstration(s, add, name, consumer);
      IsRun(s, more) && name in After(s, more).histories && Repeats(After(s, more).histories[name].given)
  {
    var s := After(INIT, steps);
    IdsIncrease(steps);
    AcceptsExactly(s.stream, add.now);
    var e := Entry(AutoId(add.now, s.stream.lastGenerated), add.fields);
    AddedEntries(s.stream, e, add.maxLen);
    var t := Next(s, add);
    ReadTwiceRepeats(t.stream.entries, Id(0, 0), consumer, t.born);
    ReadTwice(t, name, consumer);
    var read := ReadGroup(name, consumer, |t.stream.entries|);
    RunOfFour(s, add, CreateGroup(name, Id(0, 0)), read, read);
  }

  lemma ReadTwice(t: Sys, name: string, consumer: string)
    requires name !in t.stream.groups
    ensures var read, made := ReadGroup(name, consumer, |t.stream.entries|), Next(t, CreateGroup(name, Id(0, 0)));
      && Enabled(made, read) && Enabled(Next(made, read), read)
      && var es, u := t.stream.entries, Next(Next(made, read), read);
      && var first := Select(es, Id(0, 0), |es|);
      && name in u.histories
      && (first != [] ==>
            u.histories[name].given
            == Gifts(first, consumer, t.born) + Gifts(Select(es, first[|first| - 1].id, |es|), consumer, t.born))
  {
    var read, made := ReadGroup(name, consumer, |t.stream.entries|), Next(t, CreateGroup(name, Id(0, 0)));
    assert made.histories[name].given == [] && made.stream.groups[name].last == Id(0, 0);
    var es := t.stream.entries;
    var first := Select(es, Id(0, 0), |es|);
    assert [] + Gifts(first, consumer, t.born) == Gifts(first, consumer, t.born);
  }

  // ----- Nothing retained is skipped -----

  predicate WasGivenThis(given: seq<Gift>, e: Entry, serial: nat) {
    exists i :: 0 <= i < |given| && given[i].entry == e && given[i].serial == serial
  }

  /** Every entry between a group's start and its cursor was given to the group: this very entry. */
  predicate NoneSkipped(es: seq<Entry>, born: map<Id, nat>, last: Id, h: History) {
    forall e | e in es && Less(h.start, e.id) && AtMost(e.id, last) ::
      WasGivenThis(h.given, e, SerialOf(born, e.id))
  }

  predicate NoneSkippedAt(s: Sys, name: string) {
    name in s.histories && name in s.stream.groups ==>
      NoneSkipped(s.stream.entries, s.born, s.stream.groups[name].last, s.histories[name])
  }

  function NothingSkipped(): Sys -> bool {
    (s: Sys) => forall name | name in s.histories :: NoneSkippedAt(s, name)
  }

  /** The id a step adds an entry under. */
  function AddedId(s: Sys, step: Step): Option<Id>
    requires Enabled(s, step)
  {
    match step
    case AddAuto(_, now, _) => Some(AutoId(now, s.stream.lastGenerated))
    case AddExplicit(_, id, _) => if Accepts(s.stream, id) then Some(id) else None
    case _ => None
  }

  /** An id above some group's start and at or below its cursor. */
  predicate Behind(s: Sys, id: Id) {
    exists name :: name in s.histories && BehindAt(s, name, id)
  }

  predicate BehindAt(s: Sys, name: string, id: Id) {
    && name in s.histories && name in s.stream.groups
    && Less(s.histories[name].start, id) && AtMost(id, s.stream.groups[name].last)
  }

  function AheadSteps(): (Sys, Step) -> bool {
    (s: Sys, step: Step) =>
      Enabled(s, step) && AddedId(s, step).Some? ==> !Behind(s, AddedId(s, step).value)
  }

  /** Additions are numbered, and nothing is given that was not added. */
  predicate SerialsOk(s: Sys) {
    && (forall id | id in s.born :: s.born[id] < s.added)
    && (forall e | e in s.stream.entries :: e.id in s.born)
    && (forall name | name in s.histories :: GivenBefore(s.histories[name].given, s.added))
  }

  predicate GivenBefore(given: seq<Gift>, added: nat) {
    forall i | 0 <= i < |given| :: given[i].serial < added
  }

  lemma SelectSerials(r: seq<Entry>, es: seq<Entry>, consumer: string, born: map<Id, nat>, added: nat)
    requires forall i | 0 <= i < |r| :: r[i] in es
    requires (forall id | id in born :: born[id] < added) && forall e | e in es :: e.id in born
    ensures GivenBefore(Gifts(r, consumer, born), added)
  {
    forall i | 0 <= i < |r| ensures Gifts(r, consumer, born)[i].serial < added {
      assert r[i] in es;
    }
  }

  lemma ReadSerials(s: Sys, step: Step)
    requires SerialsOk(s) && Ordered(s.stream.entries) && step.ReadGroup? && Enabled(s, step)
    ensures SerialsOk(Next(s, step))
  {
    var last, h := s.stream.groups[step.name].last, s.histories[step.name];
    var r := Select(s.stream.entries, last, step.count);
    SelectIs(s.stream.entries, last, step.count);
    SelectSerials(r, s.stream.entries, step.consumer, s.born, s.added);
    assert GivenBefore(h.given, s.added);
    assert GivenBefore(h.given + Gifts(r, step.consumer, s.born), s.added);
  }

  lemma FewerEntries(s: Sys, step: Step)
    requires Enabled(s, step) && !step.AddAuto? && !step.AddExplicit?
    ensures forall e | e in Next(s, step).stream.entries :: e in s.stream.entries
  {
    if step.Delete? {
      WithoutIs(s.stream.entries, step.id);
    }
  }

  lemma StoredSerials(s: Sys, e: Entry, maxLen: nat)
    requires SerialsOk(s)
    ensures SerialsOk(Stored(s, e, maxLen))
  {
    AddedEntries(s.stream, e, maxLen);
    forall name | name in s.histories ensures GivenBefore(s.histories[name].given, s.added + 1) {
      assert GivenBefore(s.histories[name].given, s.added);
    }
  }

  lemma SerialsStep(s: Sys, step: Step)
    requires SerialsOk(s) && Ordered(s.stream.entries) && Enabled(s, step)
    ensures SerialsOk(Next(s, step))
  {
    match step
    case AddAuto(fields, now, maxLen) =>
      StoredSerials(s, Entry(AutoId(now, s.stream.lastGenerated), fields), maxLen);
    case AddExplicit(fields, id, maxLen) =>
      StoredSerials(s, Entry(id, fields), maxLen);
    case ReadGroup(_, _, _) => ReadSerials(s, step);
    case _ =>
      FewerEntries(s, step);
      forall name | name in Next(s, step).histories ensures GivenBefore(Next(s, step).histories[name].given, s.added) {
        assert name in s.histories ==> GivenBefore(s.histories[name].given, s.added);
      }
  }

  /** The entries an addition leaves keep their numbers; the new one has a number never given. */
  lemma AddedSkips(
      es: seq<Entry>, fs: seq<Entry>, e: Entry, born: map<Id, nat>, n: nat, last: Id, h: History)
    requires NoneSkipped(es, born, last, h) && GivenBefore(h.given, n)
    requires e in fs && forall x | x in fs :: x == e || (x in es && x.id != e.id)
    ensures NoneSkipped(fs, born[e.id := n], last, h) <==> !(Less(h.start, e.id) && AtMost(e.id, last))
  {
    var after := born[e.id := n];
    if Less(h.start, e.id) && AtMost(e.id, last) {
      assert SerialOf(after, e.id) == n && !WasGivenThis(h.given, e, n);
    } else {
      forall x | x in fs && Less(h.start, x.id) && AtMost(x.id, last)
        ensures WasGivenThis(h.given, x, SerialOf(after, x.id))
      {
        assert SerialOf(after, x.id) == SerialOf(born, x.id);
      }
    }
  }

  lemma AddSkipsExactly(s: Sys, e: Entry, maxLen: nat, name: string)
    requires Ordered(s.stream.entries) && (Accepts(s.stream, e.id) || maxLen == 1)
    requires SerialsOk(s) && name in s.histories && name in s.stream.groups && NoneSkippedAt(s, name)
    ensures NoneSkippedAt(Stored(s, e, maxLen), name) <==> !BehindAt(s, name, e.id)
  {
    var fs := Added(s.stream, e, maxLen).entries;
    AddedEntries(s.stream, e, maxLen);
    forall x | x in fs ensures x == e || (x in s.stream.entries && x.id != e.id) {
      OldIdsDiffer(s.stream, e, x);
    }
    AddedSkips(s.stream.entries, fs, e, s.born, s.added, s.stream.groups[name].last, s.histories[name]);
  }

  lemma OldIdsDiffer(st: Stream, e: Entry, x: Entry)
    requires Ordered(st.entries)
    ensures Accepts(st, e.id) && x in st.entries ==> x.id != e.id
  {
    if x in st.entries {
      var i :| 0 <= i < |st.entries| && st.entries[i] == x;
      assert i < |st.entries| - 1 ==> Less(x.id, st.entries[|st.entries| - 1].id);
    }
  }

  lemma AddSkips(s: Sys, e: Entry, maxLen: nat)
    requires StreamOk(s.stream) && GroupsOk(s) && SerialsOk(s) && NothingSkipped()(s)
    requires Accepts(s.stream, e.id) || maxLen == 1
    ensures NothingSkipped()(Stored(s, e, maxLen)) <==> !Behind(s, e.id)
  {
    forall name | name in s.histories
      ensures NoneSkippedAt(Stored(s, e, maxLen), name) <==> !BehindAt(s, name, e.id)
    {
      AddSkipsExactly(s, e, maxLen, name);
    }
  }

  lemma GivenGrows(given: seq<Gift>, more: seq<Gift>, e: Entry, serial: nat)
    ensures WasGivenThis(given, e, serial) || WasGivenThis(more, e, serial) ==>
      WasGivenThis(given + more, e, serial)
  {
    if i :| 0 <= i < |given| && given[i].entry == e && given[i].serial == serial {
      assert (given + more)[i] == given[i];
    } else if i :| 0 <= i < |more| && more[i].entry == e && more[i].serial == serial {
      assert (given + more)[|given| + i] == more[i];
    }
  }

  lemma ReadSkipsNone(
      es: seq<Entry>, born: map<Id, nat>, g: Group, h: History, r: seq<Entry>, consumer: string)
    requires Selected(es, g.last, r) && NoneSkipped(es, born, g.last, h)
    ensures NoneSkipped(es, born, Delivered(g, r, consumer).last, Given(h, r, consumer, born))
  {
    var gifts := Gifts(r, consumer, born);
    forall e | e in es && Less(h.start, e.id) && AtMost(e.id, Delivered(g, r, consumer).last)
      ensures WasGivenThis(h.given + gifts, e, SerialOf(born, e.id))
    {
      GivenGrows(h.given, gifts, e, SerialOf(born, e.id));
      if !AtMost(e.id, g.last) {
        var i :| 0 <= i < |r| && r[i] == e;
        assert gifts[i] == Gift(e, consumer, SerialOf(born, e.id));
      }
    }
  }

  lemma ReadStepSkipsNone(s: Sys, step: Step)
    requires Ordered(s.stream.entries) && step.ReadGroup? && Enabled(s, step) && NoneSkippedAt(s, step.name)
    ensures NoneSkippedAt(Next(s, step), step.name)
  {
    var g := s.stream.groups[step.name];
    var r := Select(s.stream.entries, g.last, step.count);
    SelectIs(s.stream.entries, g.last, step.count);
    ReadSkipsNone(s.stream.entries, s.born, g, s.histories[step.name], r, step.consumer);
  }

  /** The group was neither given anything nor moved. */
  predicate Untouched(s: Sys, t: Sys, name: string) {
    && name in s.histories && name in s.stream.groups && name in t.histories && name in t.stream.groups
    && t.histories[name].start == s.histories[name].start && t.histories[name].given == s.histories[name].given
    && t.stream.groups[name].last == s.stream.groups[name].last && t.born == s.born
  }

  lemma OthersUntouched(s: Sys, step: Step, name: string)
    requires name in s.histories && name in s.stream.groups && s.stream.groups.Keys == s.histories.Keys
    requires Enabled(s, step) && !step.AddAuto? && !step.AddExplicit? && !(step.ReadGroup? && step.name == name)
    ensures Untouched(s, Next(s, step), name)
  {
  }

  lemma FewerSkipNone(s: Sys, t: Sys, name: string)
    requires Untouched(s, t, name) && NoneSkippedAt(s, name)
    requires forall e | e in t.stream.entries :: e in s.stream.entries
    ensures NoneSkippedAt(t, name)
  {
  }

  /** Only additions can leave an entry behind. */
  lemma OthersSkipNone(s: Sys, step: Step, name: string)
    requires Ordered(s.stream.entries) && GroupsOk(s) && NothingSkipped()(s)
    requires Enabled(s, step) && !step.AddAuto? && !step.AddExplicit?
    ensures NoneSkippedAt(Next(s, step), name)
  {
    if name in s.histories {
      assert NoneSkippedAt(s, name);
      if step.ReadGroup? && step.name == name {
        ReadStepSkipsNone(s, step);
      } else {
        FewerEntries(s, step);
        OthersUntouched(s, step, name);
        FewerSkipNone(s, Next(s, step), name);
      }
    } else {
      NewGroupSkipsNone(s, step, name);
    }
  }

  lemma NewGroupSkipsNone(s: Sys, step: Step, name: string)
    requires GroupsOk(s) && name !in s.histories && Enabled(s, step) && !step.AddAuto? && !step.AddExplicit?
    ensures NoneSkippedAt(Next(s, step), name)
  {
  }

  lemma SkipStep(s: Sys, step: Step)
    requires StreamOk(s.stream) && GroupsOk(s) && SerialsOk(s) && NothingSkipped()(s)
    requires Enabled(s, step) && FineSteps()(s, step)
    ensures NothingSkipped()(Next(s, step)) <==> AheadSteps()(s, step)
  {
    match step
    case AddAuto(fields, now, maxLen) =>
      AcceptsExactly(s.stream, now);
      AddSkips(s, Entry(AutoId(now, s.stream.lastGenerated), fields), maxLen);
    case AddExplicit(fields, id, maxLen) =>
      if Accepts(s.stream, id) {
        AddSkips(s, Entry(id, fields), maxLen);
      }
    case _ =>
      forall name ensures NoneSkippedAt(Next(s, step), name) {
        OthersSkipNone(s, step, name);
      }
  }

  /**
   In every run with fine ids, whatever is trimmed or deleted, every entry still in the stream between
   a group's start and its cursor was delivered to the group, all along the run, if and only if no
   entry was ever added under an id above a group's start and at or below its cursor.
   */
  lemma {:induction false} NothingRetainedIsSkipped(steps: seq<Step>)
    requires IsRun(INIT, steps) && Along(INIT, steps, FineSteps())
    ensures Throughout(INIT, steps, NothingSkipped()) <==> Along(INIT, steps, AheadSteps())
    ensures SerialsOk(After(INIT, steps))
  {
    if steps != [] {
      var before, step := steps[..|steps| - 1], steps[|steps| - 1];
      NothingRetainedIsSkipped(before);
      IdsIncrease(before);
      NothingDeliveredTwice(before);
      SerialsStep(After(INIT, before), step);
      if Throughout(INIT, before, NothingSkipped()) {
        SkipStep(After(INIT, before), step);
      }
    }
  }

  /** Every id added, generated or given, is beyond the last one used. */
  function GrowingSteps(): (Sys, Step) -> bool {
    (s: Sys, step: Step) =>
      Enabled(s, step) && AddedId(s, step).Some? ==> Less(s.stream.lastGenerated, AddedId(s, step).value)
  }

  /** A cursor that moved is not beyond the last id used. */
  predicate ReachedAt(s: Sys, name: string) {
    name in s.histories && name in s.stream.groups && s.histories[name].given != [] ==>
      AtMost(s.stream.groups[name].last, s.stream.lastGenerated)
  }

  lemma AddReaches(s: Sys, e: Entry, maxLen: nat, name: string)
    requires ReachedAt(s, name) && Less(s.stream.lastGenerated, e.id)
    ensures ReachedAt(Stored(s, e, maxLen), name)
  {
  }

  lemma ReadReaches(s: Sys, step: Step)
    requires StreamOk(s.stream) && step.ReadGroup? && Enabled(s, step) && ReachedAt(s, step.name)
    ensures ReachedAt(Next(s, step), step.name)
  {
    var es, g := s.stream.entries, s.stream.groups[step.name];
    var r := Select(es, g.last, step.count);
    SelectIs(es, g.last, step.count);
    if r != [] {
      LastIsMost(es, r[|r| - 1]);
    }
  }

  lemma ReachedStep(s: Sys, step: Step, name: string)
    requires StreamOk(s.stream) && s.stream.groups.Keys == s.histories.Keys && ReachedAt(s, name)
    requires Enabled(s, step) && GrowingSteps()(s, step)
    ensures ReachedAt(Next(s, step), name)
  {
    match step
    case AddAuto(fields, now, maxLen) =>
      AddReaches(s, Entry(AutoId(now, s.stream.lastGenerated), fields), maxLen, name);
    case AddExplicit(fields, id, maxLen) =>
      if Accepts(s.stream, id) {
        AddReaches(s, Entry(id, fields), maxLen, name);
      }
    case ReadGroup(_, _, _) =>
      if step.name == name {
        ReadReaches(s, step);
      }
    case _ =>
      if name in s.histories {
        OthersUntouched(s, step, name);
      }
  }

  lemma GrowingIsAhead(s: Sys, step: Step)
    requires StreamOk(s.stream) && GroupsOk(s) && Enabled(s, step) && GrowingSteps()(s, step)
    requires forall name | name in s.histories :: ReachedAt(s, name)
    ensures FineSteps()(s, step) && AheadSteps()(s, step)
  {
    if AddedId(s, step).Some? {
      var id := AddedId(s, step).value;
      if step.AddAuto? {
        AutoIdGrowsExactly(step.now, s.stream.lastGenerated);
      }
      forall name | name in s.histories ensures !BehindAt(s, name, id) {
        assert ReachedAt(s, name) && CursorOk(s.stream.groups[name].last, s.histories[name]);
      }
    }
  }

  lemma {:induction false} GrowingRun(steps: seq<Step>)
    requires IsRun(INIT, steps) && Along(INIT, steps, GrowingSteps())
    ensures Along(INIT, steps, FineSteps()) && Along(INIT, steps, AheadSteps())
    ensures forall name | name in After(INIT, steps).histories :: ReachedAt(After(INIT, steps), name)
  {
    if steps != [] {
      var before, step := steps[..|steps| - 1], steps[|steps| - 1];
      GrowingRun(before);
      IdsIncrease(before);
      NothingDeliveredTwice(before);
      var s := After(INIT, before);
      GrowingIsAhead(s, step);
      forall name ensures ReachedAt(Next(s, step), name) {
        assert name !in s.histories ==> ReachedAt(s, name);
        ReachedStep(s, step, name);
      }
    }
  }

  /** While every id is beyond the last one used, the ids kept increase and nothing is ever skipped. */
  lemma GrowingIdsSkipNothing(steps: seq<Step>)
    requires IsRun(INIT, steps) && Along(INIT, steps, GrowingSteps())
    ensures Throughout(INIT, steps, InOrder()) && Throughout(INIT, steps, NothingSkipped())
  {
    GrowingRun(steps);
    IdsIncrease(steps);
    NothingRetainedIsSkipped(steps);
  }

  function HidingSteps(fields: seq<(string, string)>): seq<Step> {
    [AddExplicit(fields, Id(5, 0), 0), CreateGroup("g", Id(0, 0)), ReadGroup("g", "c", 1), Delete(Id(5, 0))]
  }

  /** An entry is added, given to a group and deleted. */
  lemma Hiding(fields: seq<(string, string)>)
    ensures IsRun(INIT, HidingSteps(fields))
    ensures var s := After(INIT, HidingSteps(fields));
      && s.stream.entries == [] && s.added == 1
      && "g" in s.stream.groups && s.stream.groups["g"].last == Id(5, 0)
      && "g" in s.histories && s.histories["g"] == History(Id(0, 0), [Gift(Entry(Id(5, 0), fields), "c", 0)], {})
  {
    var steps := HidingSteps(fields);
    var s1 := Next(INIT, steps[0]);
    assert s1.stream.entries == [Entry(Id(5, 0), fields)];
    var s2 := Next(s1, steps[1]);
    assert Select(s2.stream.entries, Id(0, 0), 1) == s2.stream.entries;
    var s3 := Next(s2, steps[2]);
    assert s3.histories["g"].given == [Gift(Entry(Id(5, 0), fields), "c", 0)];
    RunOfFour(INIT, steps[0], steps[1], steps[2], steps[3]);
  }

  /**
   The failing case: the newest entry is read and deleted. The test of an explicit id looks at the
   entries left, not at the ids used, so an entry goes behind the group's cursor, even under the id
   that was already delivered, and the group was never given it.
   */
  lemma RemovingNewestHidesEntries(fields: seq<(string, string)>, other: seq<(string, string)>, id: Id)
    requires Less(Id(0, 0), id) && AtMost(id, Id(5, 0)) && IsUint64(id)
    ensures var steps := HidingSteps(fields) + [AddExplicit(other, id, 0)];
      && IsRun(INIT, steps)
      && After(INIT, steps).stream.entries == [Entry(id, other)] && !NothingSkipped()(After(INIT, steps))
  {
    Hiding(fields);
    var s, e := After(INIT, HidingSteps(fields)), Entry(id, other);
    RunPush(INIT, HidingSteps(fields), AddExplicit(other, id, 0));
    var t := Stored(s, e, 0);
    assert t.stream.entries == [e] && SerialOf(t.born, id) == 1;
    assert !WasGivenThis(t.histories["g"].given, e, 1);
    assert e in t.stream.entries && !NoneSkippedAt(t, "g");
  }
}
