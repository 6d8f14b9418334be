/**
 Publishing across workers (src/astra/server/worker.hpp): the publishing worker delivers to its own
 subscribers and queues the message for every other worker, which delivers it when it gets to it.
 */
module PubSubRuns {
  import opened Common
  import opened PubSub

  datatype Message = Message(id: nat, channel: string)

  /** A message handed out: the subscriptions at that moment and the copies sent. */
  datatype Delivery = Delivery(id: nat, channel: string, channels: Index, patterns: Index, copies: seq<Copy>)

  datatype Worker = Worker(channels: Index, patterns: Index, inbox: seq<Message>, log: seq<Delivery>)

  datatype Sys = Sys(workers: seq<Worker>, next: nat, sent: map<nat, string>)

  datatype Step =
    | Change(w: nat, channels: Index, patterns: Index)
    | Publish(w: nat, channel: string, copies: seq<Copy>)
    | Process(w: nat, i: nat, copies: seq<Copy>)

  ghost predicate Enabled(s: Sys, step: Step) {
    && step.w < |s.workers|
    && var w := s.workers[step.w];
    match step
    case Change(_, channels, patterns) => Mirrored(channels) && Mirrored(patterns)
    case Publish(_, channel, copies) => Exactly(w.channels, w.patterns, channel, copies)
    case Process(_, i, copies) => i < |w.inbox| && Exactly(w.channels, w.patterns, w.inbox[i].channel, copies)
  }

  function HandedOut(w: Worker, m: Message, copies: seq<Copy>): Worker {
    w.(log := w.log + [Delivery(m.id, m.channel, w.channels, w.patterns, copies)])
  }

  function Notified(w: Worker, m: Message): Worker { w.(inbox := w.inbox + [m]) }

  ghost function Next(s: Sys, step: Step): Sys
    requires Enabled(s, step)
  {
    match step
    case Change(self, channels, patterns) =>
      s.(workers := s.workers[self := s.workers[self].(channels := channels, patterns := patterns)])
    case Publish(self, channel, copies) =>
      var m := Message(s.next, channel);
      Sys(seq(|s.workers|, w requires 0 <= w < |s.workers| =>
                if w == self then HandedOut(s.workers[w], m, copies) else Notified(s.workers[w], m)),
          s.next + 1, s.sent[s.next := channel])
    case Process(self, i, copies) =>
      var w := s.workers[self];
      s.(workers := s.workers[self := HandedOut(w.(inbox := RemoveAt(w.inbox, i)), w.inbox[i], copies)])
  }

  ghost predicate IsRun(s: Sys, steps: seq<Step>)
    decreases |steps|, 0
  {
    steps == []
    || (IsRun(s, steps[..|steps| - 1]) && Enabled(After(s, steps[..|steps| - 1]), steps[|steps| - 1]))
  }

  ghost function After(s: Sys, steps: seq<Step>): Sys
    requires IsRun(s, steps)
    decreases |steps|, 1
  {
    if steps == [] then s else Next(After(s, steps[..|steps| - 1]), steps[|steps| - 1])
  }

  ghost predicate IsInit(s: Sys) {
    && s.next == 0 && s.sent == map[]
    && forall w | 0 <= w < |s.workers| :: s.workers[w].inbox == [] && s.workers[w].log == []
  }

  // ----- Counting -----

  function IsMessage(id: nat): Message -> bool { (m: Message) => m.id == id }

  function IsDelivery(id: nat): Delivery -> bool { (d: Delivery) => d.id == id }

  function Waiting(inbox: seq<Message>, id: nat): nat { Count(inbox, IsMessage(id)) }

  function Handed(log: seq<Delivery>, id: nat): nat { Count(log, IsDelivery(id)) }

  // ----- Every message reaches every worker once -----

  /** A message is handed out or waiting, once, if it was published at all. */
  ghost predicate OnceAt(s: Sys, w: Worker, id: nat) {
    Handed(w.log, id) + Waiting(w.inbox, id) == if id < s.next then 1 else 0
  }

  ghost predicate TruthAt(s: Sys, w: Worker) {
    && (forall i | 0 <= i < |w.inbox| :: w.inbox[i].id in s.sent && s.sent[w.inbox[i].id] == w.inbox[i].channel)
    && (forall i | 0 <= i < |w.log| ::
          && w.log[i].id in s.sent && s.sent[w.log[i].id] == w.log[i].channel
          && Exactly(w.log[i].channels, w.log[i].patterns, w.log[i].channel, w.log[i].copies))
    && (forall id | id in s.sent :: id < s.next)
  }

  ghost predicate Inv(s: Sys) {
    forall w | 0 <= w < |s.workers| :: TruthAt(s, s.workers[w]) && forall id :: OnceAt(s, s.workers[w], id)
  }

  lemma PublishCounts(s: Sys, x: Worker, m: Message, d: Delivery, id: nat)
    requires OnceAt(s, x, id) && m.id == d.id == s.next
    ensures Handed(x.log + [d], id) + Waiting(x.inbox, id) == if id < s.next + 1 then 1 else 0
    ensures Handed(x.log, id) + Waiting(x.inbox + [m], id) == if id < s.next + 1 then 1 else 0
  {
    CountPush(x.log, d, IsDelivery(id));
    CountPush(x.inbox, m, IsMessage(id));
  }

  lemma PublishKeeps(s: Sys, step: Step, w: nat)
    requires Inv(s) && step.Publish? && Enabled(s, step) && w < |s.workers|
    ensures var t := Next(s, step);
      TruthAt(t, t.workers[w]) && forall id :: OnceAt(t, t.workers[w], id)
  {
    var t := Next(s, step);
    var x, m := s.workers[w], Message(s.next, step.channel);
    var d := Delivery(m.id, m.channel, x.channels, x.patterns, step.copies);
    assert TruthAt(s, x);
    assert t.workers[w] == if w == step.w then HandedOut(x, m, step.copies) else Notified(x, m);
    PublishTruth(s, x, m, d, t);
    forall id ensures OnceAt(t, t.workers[w], id) {
      assert OnceAt(s, x, id);
      PublishCounts(s, x, m, d, id);
    }
  }

  lemma PublishTruth(s: Sys, x: Worker, m: Message, d: Delivery, t: Sys)
    requires TruthAt(s, x) && m.id == d.id == s.next && m.channel == d.channel
    requires t.next == s.next + 1 && t.sent == s.sent[s.next := m.channel]
    ensures TruthAt(t, x.(inbox := x.inbox + [m]))
    ensures Exactly(d.channels, d.patterns, d.channel, d.copies) ==> TruthAt(t, x.(log := x.log + [d]))
  {
  }

  lemma ProcessKeeps(s: Sys, step: Step)
    requires Inv(s) && step.Process? && Enabled(s, step)
    ensures Inv(Next(s, step))
  {
    var t := Next(s, step);
    var x := s.workers[step.w];
    assert TruthAt(s, x);
    forall id ensures OnceAt(t, t.workers[step.w], id) {
      assert OnceAt(s, x, id);
      CountTake(x.inbox, step.i, IsMessage(id));
      CountPush(x.log, t.workers[step.w].log[|x.log|], IsDelivery(id));
    }
    forall w, id | 0 <= w < |s.workers| && w != step.w ensures OnceAt(t, t.workers[w], id) {
      assert OnceAt(s, s.workers[w], id);
    }
    forall w | 0 <= w < |s.workers| ensures TruthAt(t, t.workers[w]) {
      assert TruthAt(s, s.workers[w]);
    }
  }

  lemma {:induction false} RunKeepsInv(s: Sys, steps: seq<Step>)
    requires IsInit(s) && IsRun(s, steps)
    ensures Inv(After(s, steps)) && |After(s, steps).workers| == |s.workers|
  {
    if steps != [] {
      var before, step := steps[..|steps| - 1], steps[|steps| - 1];
      RunKeepsInv(s, before);
      var t := After(s, before);
      match step
      case Change(_, _, _) => ChangeKeeps(t, step);
      case Publish(_, _, _) =>
        forall w | 0 <= w < |t.workers|
          ensures TruthAt(Next(t, step), Next(t, step).workers[w])
          ensures forall id :: OnceAt(Next(t, step), Next(t, step).workers[w], id)
        {
          PublishKeeps(t, step, w);
        }
      case Process(_, _, _) => ProcessKeeps(t, step);
    }
  }

  lemma ChangeKeeps(s: Sys, step: Step)
    requires Inv(s) && step.Change? && Enabled(s, step)
    ensures Inv(Next(s, step))
  {
    var t := Next(s, step);
    forall w | 0 <= w < |s.workers| ensures TruthAt(t, t.workers[w]) && forall id :: OnceAt(t, t.workers[w], id) {
      assert TruthAt(s, s.workers[w]);
      forall id ensures OnceAt(t, t.workers[w], id) {
        assert OnceAt(s, s.workers[w], id);
      }
    }
  }

  // ----- What the steps say -----

  /** The channels published on, in order. */
  function Published(steps: seq<Step>): seq<string> {
    if steps == [] then []
    else
      var before, last := Published(steps[..|steps| - 1]), steps[|steps| - 1];
      if last.Publish? then before + [last.channel] else before
  }

  datatype Subscriptions = Subscriptions(channels: Index, patterns: Index)

  /** What worker `w` is subscribed to after the steps. */
  function SubscribedAfter(s: Sys, steps: seq<Step>, w: nat): Subscriptions
    requires w < |s.workers|
  {
    if steps == [] then Subscriptions(s.workers[w].channels, s.workers[w].patterns)
    else
      var last := steps[|steps| - 1];
      if last.Change? && last.w == w then Subscriptions(last.channels, last.patterns)
      else SubscribedAfter(s, steps[..|steps| - 1], w)
  }

  /** The worker had these subscriptions at some moment since message `id` was published. */
  predicate HadSince(s: Sys, steps: seq<Step>, w: nat, id: nat, subs: Subscriptions)
    requires w < |s.workers|
  {
    && id < |Published(steps)|
    && (SubscribedAfter(s, steps, w) == subs || HadSince(s, steps[..|steps| - 1], w, id, subs))
  }

  predicate Recorded(steps: seq<Step>, t: Sys) {
    t.next == |Published(steps)| && forall id | 0 <= id < t.next :: id in t.sent && t.sent[id] == Published(steps)[id]
  }

  predicate Followed(s: Sys, steps: seq<Step>, w: nat, x: Worker)
    requires w < |s.workers|
  {
    && SubscribedAfter(s, steps, w) == Subscriptions(x.channels, x.patterns)
    && forall d | d in x.log :: HadSince(s, steps, w, d.id, Subscriptions(d.channels, d.patterns))
  }

  lemma StepRecorded(steps: seq<Step>, t: Sys, step: Step)
    requires Recorded(steps, t) && Enabled(t, step)
    ensures Recorded(steps + [step], Next(t, step))
  {
    assert (steps + [step])[..|steps|] == steps;
  }

  lemma StepFollowed(s: Sys, steps: seq<Step>, t: Sys, step: Step, w: nat)
    requires Recorded(steps, t) && Enabled(t, step) && w < |s.workers| == |t.workers|
    requires Followed(s, steps, w, t.workers[w]) && Inv(t)
    ensures Followed(s, steps + [step], w, Next(t, step).workers[w])
  {
    var x, y := t.workers[w], Next(t, step).workers[w];
    assert (steps + [step])[..|steps|] == steps;
    forall d | d in y.log ensures HadSince(s, steps + [step], w, d.id, Subscriptions(d.channels, d.patterns)) {
      if d in x.log {
        assert HadSince(s, steps, w, d.id, Subscriptions(d.channels, d.patterns));
      } else {
        assert TruthAt(t, x);
      }
    }
  }

  lemma {:induction false} RunFollowed(s: Sys, steps: seq<Step>)
    requires IsInit(s) && IsRun(s, steps)
    ensures Recorded(steps, After(s, steps)) && |After(s, steps).workers| == |s.workers|
    ensures forall w | 0 <= w < |s.workers| :: Followed(s, steps, w, After(s, steps).workers[w])
  {
    RunKeepsInv(s, steps);
    if steps != [] {
      var before, step := steps[..|steps| - 1], steps[|steps| - 1];
      RunFollowed(s, before);
      RunKeepsInv(s, before);
      assert steps == before + [step];
      StepRecorded(before, After(s, before), step);
      forall w | 0 <= w < |s.workers| ensures Followed(s, steps, w, After(s, steps).workers[w]) {
        StepFollowed(s, before, After(s, before), step, w);
      }
    }
  }

  /**
   In every run, every published message is at every worker exactly once, waiting or handed out; and
   handing it out sends exactly one copy for each channel subscription and each matching pattern
   subscription that the worker had at some moment since it was published.
   */
  lemma PublishedOnceEverywhere(s: Sys, steps: seq<Step>, w: nat, id: nat)
    requires IsInit(s) && IsRun(s, steps) && w < |s.workers|
    ensures w < |After(s, steps).workers|
    ensures var x := After(s, steps).workers[w];
      && Handed(x.log, id) + Waiting(x.inbox, id) == (if id < |Published(steps)| then 1 else 0)
      && forall d | d in x.log ::
        && d.id < |Published(steps)| && HadSince(s, steps, w, d.id, Subscriptions(d.channels, d.patterns))
        && Exactly(d.channels, d.patterns, Published(steps)[d.id], d.copies)
  {
    RunKeepsInv(s, steps);
    RunFollowed(s, steps);
    var t := After(s, steps);
    assert TruthAt(t, t.workers[w]) && OnceAt(t, t.workers[w], id);
  }

  // ----- Fixed subscriptions -----

  lemma {:induction false} SubscriptionsStay(s: Sys, steps: seq<Step>, w: nat, id: nat, subs: Subscriptions)
    requires w < |s.workers| && forall step | step in steps :: !(step.Change? && step.w == w)
    ensures SubscribedAfter(s, steps, w) == Subscriptions(s.workers[w].channels, s.workers[w].patterns)
    ensures HadSince(s, steps, w, id, subs) ==> subs == Subscriptions(s.workers[w].channels, s.workers[w].patterns)
  {
    if steps != [] {
      SubscriptionsStay(s, steps[..|steps| - 1], w, id, subs);
      assert steps[|steps| - 1] in steps;
    }
  }

  /**
   A worker whose subscriptions do not change and whose inbox is empty has handed out every message
   published anywhere exactly once, with exactly one copy for each of its channel subscriptions to
   the message's channel and each of its matching pattern subscriptions.
   */
  lemma FixedSubscribersGetEverything(s: Sys, steps: seq<Step>, w: nat, id: nat)
    requires IsInit(s) && IsRun(s, steps) && w < |s.workers|
    requires forall step | step in steps :: !(step.Change? && step.w == w)
    ensures w < |After(s, steps).workers|
    ensures var x, subs := After(s, steps).workers[w], s.workers[w];
      x.inbox == [] && id < |Published(steps)| ==>
        exists i ::
          && 0 <= i < |x.log| && x.log[i].id == id
          && Exactly(subs.channels, subs.patterns, Published(steps)[id], x.log[i].copies)
          && forall j | 0 <= j < |x.log| && x.log[j].id == id :: j == i
  {
    PublishedOnceEverywhere(s, steps, w, id);
    var x := After(s, steps).workers[w];
    if x.inbox == [] && id < |Published(steps)| {
      CountOne(x.log, IsDelivery(id));
      var i :| IsOnly(x.log, IsDelivery(id), i);
      assert x.log[i] in x.log;
      SubscriptionsStay(s, steps, w, id, Subscriptions(x.log[i].channels, x.log[i].patterns));
    }
  }
}
