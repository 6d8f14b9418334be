/**
 What a multi-shard SINTER answers, told from the steps alone: the members common to all the keys it was
 started on, each set as its own worker held it at some moment since, or nothing if it gave up.
 */
module ScatterGatherAnswers {
  import opened Common
  import opened SetIntersection
  import opened ScatterGather
  import opened ScatterGatherRuns

  // ----- What the steps say -----

  /** The keys worker `w` was last asked to intersect. */
  function LastStart(steps: seq<Step>, w: nat): Option<seq<string>> {
    if steps == [] then None
    else
      var last := steps[|steps| - 1];
      if last.Start? && last.w == w then Some(last.keys) else LastStart(steps[..|steps| - 1], w)
  }

  /** Worker `w` gave up waiting since it last started. */
  predicate TimedOut(steps: seq<Step>, w: nat) {
    steps != [] &&
    var last := steps[|steps| - 1];
    if last.w == w && last.Start? then false
    else last == Timeout(w) || TimedOut(steps[..|steps| - 1], w)
  }

  /** What worker `g` holds after the steps. */
  function SetsAfter(s: Sys, steps: seq<Step>, g: nat): Sets
    requires g < |s|
  {
    if steps == [] then s[g].sets
    else
      var last := steps[|steps| - 1];
      if last.Write? && last.w == g then last.sets else SetsAfter(s, steps[..|steps| - 1], g)
  }

  /** At some moment since worker `w` last started, worker `g` held `view`. */
  ghost predicate Held(s: Sys, steps: seq<Step>, w: nat, g: nat, view: Sets) {
    && g < |s|
    && steps != []
    && var last := steps[|steps| - 1];
    || SetsAfter(s, steps, g) == view
    || (!(last.w == w && last.Start?) && Held(s, steps[..|steps| - 1], w, g, view))
  }

  lemma Push(s: Sys, steps: seq<Step>, step: Step, w: nat)
    ensures (steps + [step])[..|steps|] == steps
    ensures LastStart(steps + [step], w) ==
            if step.Start? && step.w == w then Some(step.keys) else LastStart(steps, w)
    ensures TimedOut(steps + [step], w) <==>
            !(step.Start? && step.w == w) && (step == Timeout(w) || TimedOut(steps, w))
    ensures w < |s| ==>
      SetsAfter(s, steps + [step], w) == if step.Write? && step.w == w then step.sets else SetsAfter(s, steps, w)
  {
    assert (steps + [step])[..|steps|] == steps;
  }

  lemma HeldLater(s: Sys, steps: seq<Step>, step: Step, w: nat, g: nat, view: Sets)
    requires Held(s, steps, w, g, view) && !(step.Start? && step.w == w)
    ensures Held(s, steps + [step], w, g, view)
  {
    Push(s, steps, step, w);
  }

  lemma HeldNow(s: Sys, steps: seq<Step>, step: Step, w: nat, g: nat)
    requires g < |s| && !(step.Write? && step.w == g)
    ensures Held(s, steps + [step], w, g, SetsAfter(s, steps, g))
  {
    Push(s, steps, step, g);
  }

  // ----- The state against the steps -----

  ghost predicate PartHeld(s: Sys, steps: seq<Step>, w: nat, p: Part) {
    p.late || Held(s, steps, w, p.worker, p.view)
  }

  ghost predicate AskHeld(s: Sys, steps: seq<Step>, w: nat, ask: Ask) {
    ask.view.Some? ==> Held(s, steps, w, ask.worker, ask.view.value)
  }

  ghost predicate FuturesHeld(s: Sys, steps: seq<Step>, w: nat, n: Worker, b: Batch) {
    forall i | 0 <= i < |b.futures| :: b.futures[i] in n.asked && AskHeld(s, steps, w, n.asked[b.futures[i]])
  }

  ghost predicate PartsHeld(s: Sys, steps: seq<Step>, w: nat, b: Batch) {
    forall i | 0 <= i < |b.parts| :: PartHeld(s, steps, w, b.parts[i])
  }

  ghost predicate BatchTracked(s: Sys, steps: seq<Step>, w: nat, n: Worker, b: Batch) {
    && LastStart(steps, w) == Some(b.keys)
    && FuturesHeld(s, steps, w, n, b) && PartsHeld(s, steps, w, b)
    && (TimedOut(steps, w) <==> GaveUp(b))
  }

  ghost predicate Tracked(s: Sys, steps: seq<Step>, w: nat, n: Worker)
    requires w < |s|
  {
    n.sets == SetsAfter(s, steps, w) && (n.batch.Some? ==> BatchTracked(s, steps, w, n, n.batch.value))
  }

  /** What was held before a step that is no start of the worker's was held after it. */
  lemma StillHeld(s: Sys, steps: seq<Step>, step: Step, w: nat, n: Worker, b: Batch)
    requires FuturesHeld(s, steps, w, n, b) && PartsHeld(s, steps, w, b) && !(step.Start? && step.w == w)
    ensures FuturesHeld(s, steps + [step], w, n, b) && PartsHeld(s, steps + [step], w, b)
  {
    forall i | 0 <= i < |b.futures| ensures AskHeld(s, steps + [step], w, n.asked[b.futures[i]]) {
      var ask := n.asked[b.futures[i]];
      assert AskHeld(s, steps, w, ask);
      if ask.view.Some? {
        HeldLater(s, steps, step, w, ask.worker, ask.view.value);
      }
    }
    forall i | 0 <= i < |b.parts| ensures PartHeld(s, steps + [step], w, b.parts[i]) {
      assert PartHeld(s, steps, w, b.parts[i]);
      if !b.parts[i].late {
        HeldLater(s, steps, step, w, b.parts[i].worker, b.parts[i].view);
      }
    }
  }

  /** A step that is not the worker's own, or leaves its data, tickets and batch alone. */
  lemma Untouched(s: Sys, steps: seq<Step>, step: Step, w: nat, n: Worker, n': Worker)
    requires w < |s| && Tracked(s, steps, w, n)
    requires n'.sets == n.sets && n'.asked == n.asked && (n'.batch == n.batch || n'.batch.None?)
    requires step.w != w || !(step.Write? || step.Start? || step.Timeout?)
    ensures Tracked(s, steps + [step], w, n')
  {
    Push(s, steps, step, w);
    if n'.batch.Some? {
      StillHeld(s, steps, step, w, n, n.batch.value);
      assert FuturesHeld(s, steps + [step], w, n', n.batch.value);
    }
  }

  lemma SendLocalTracked(s: Sys, steps: seq<Step>, step: Step, n: Worker, part: Part)
    requires step.SendLocal? && step.w < |s| && Tracked(s, steps, step.w, n) && n.batch.Some?
    requires part.worker == step.w && part.view == n.sets && !part.late
    ensures var b := n.batch.value;
      Tracked(s, steps + [step], step.w, n.(batch := Some(b.(todo := b.todo - {step.w}, parts := b.parts + [part]))))
  {
    var w, b := step.w, n.batch.value;
    var b' := b.(todo := b.todo - {w}, parts := b.parts + [part]);
    Push(s, steps, step, w);
    StillHeld(s, steps, step, w, n, b);
    HeldNow(s, steps, step, w, w);
    assert forall p :: p in b'.parts <==> p in b.parts || p == part;
    assert FuturesHeld(s, steps + [step], w, n.(batch := Some(b')), b');
  }

  lemma SendRemoteTracked(route: string -> nat, s: Sys, steps: seq<Step>, step: Step, n: Worker)
    requires step.SendRemote? && step.w < |s| && Tracked(s, steps, step.w, n) && n.batch.Some? && TicketsOk(n)
    ensures Tracked(s, steps + [step], step.w, Sent(route, n, step.target))
  {
    var w, b := step.w, n.batch.value;
    var n' := Sent(route, n, step.target);
    Push(s, steps, step, w);
    StillHeld(s, steps, step, w, n, b);
    forall i | 0 <= i < |n'.batch.value.futures|
      ensures n'.batch.value.futures[i] in n'.asked
      ensures AskHeld(s, steps + [step], w, n'.asked[n'.batch.value.futures[i]])
    {
      if i < |b.futures| {
        assert b.futures[i] < n.nextId;
      }
    }
  }

  lemma CollectTracked(s: Sys, steps: seq<Step>, step: Step, n: Worker)
    requires step.Collect? && step.w < |s| && Tracked(s, steps, step.w, n) && n.batch.Some?
    requires step.i < |n.batch.value.futures|
    requires n.batch.value.futures[step.i] in n.promises && n.batch.value.futures[step.i] in n.asked
    requires n.asked[n.batch.value.futures[step.i]].view.Some?
    ensures Tracked(s, steps + [step], step.w, Collected(n, step.i))
  {
    var w, b := step.w, n.batch.value;
    var b' := Collected(n, step.i).batch.value;
    Push(s, steps, step, w);
    StillHeld(s, steps, step, w, n, b);
    assert AskHeld(s, steps + [step], w, n.asked[b.futures[step.i]]);
    forall i | 0 <= i < |b'.futures|
      ensures b'.futures[i] in n.asked && AskHeld(s, steps + [step], w, n.asked[b'.futures[i]])
    {
      assert b'.futures[i] == b.futures[if i < step.i then i else i + 1];
    }
    assert forall p :: p in b'.parts <==> p in b.parts || p == b'.parts[|b.parts|];
  }

  lemma TimeoutTracked(s: Sys, steps: seq<Step>, step: Step, n: Worker)
    requires step.Timeout? && step.w < |s| && Tracked(s, steps, step.w, n) && n.batch.Some?
    requires n.batch.value.futures != [] && forall id | id in n.batch.value.futures :: id in n.asked
    ensures var b := n.batch.value;
      var late := b.(futures := [], parts := b.parts + LateParts(n, b.futures));
      Tracked(s, steps + [step], step.w, n.(batch := Some(late)))
  {
    var w, b := step.w, n.batch.value;
    var late := LateParts(n, b.futures);
    var b' := b.(futures := [], parts := b.parts + late);
    Push(s, steps, step, w);
    StillHeld(s, steps, step, w, n, b);
    assert b'.parts[|b.parts|] == late[0] && late[0] in b'.parts;
    forall i | 0 <= i < |b'.parts| ensures PartHeld(s, steps + [step], w, b'.parts[i]) {
      if i < |b.parts| {
        assert PartHeld(s, steps + [step], w, b.parts[i]);
      } else {
        assert b'.parts[i] == late[i - |b.parts|];
      }
    }
  }

  /** The worker that is served learns what the server holds now. */
  lemma AnsweredTracked(s: Sys, steps: seq<Step>, step: Step, w: nat, n: Worker, id: nat, result: seq<string>)
    requires step.Serve? && w < |s| && step.w < |s| && Tracked(s, steps, w, n)
    requires id in n.asked && n.asked[id].worker == step.w
    ensures Tracked(s, steps + [step], w, Answered(n, id, SetsAfter(s, steps, step.w), result))
  {
    var n' := Answered(n, id, SetsAfter(s, steps, step.w), result);
    Push(s, steps, step, w);
    HeldNow(s, steps, step, w, step.w);
    if n.batch.Some? {
      var b := n.batch.value;
      StillHeld(s, steps, step, w, n, b);
      forall i | 0 <= i < |b.futures| ensures AskHeld(s, steps + [step], w, n'.asked[b.futures[i]]) {
        assert AskHeld(s, steps + [step], w, n.asked[b.futures[i]]);
      }
    }
  }

  lemma OwnStepTracked(route: Router, s: Sys, steps: seq<Step>, t: Sys, step: Step)
    requires |t| == |s| && Enabled(route, t, step) && Inv(route, t) && Tracked(s, steps, step.w, t[step.w])
    requires !step.Serve?
    ensures Tracked(s, steps + [step], step.w, Next(route, t, step)[step.w])
  {
    var w := step.w;
    var n := t[w];
    match step
    case Write(_, _) => Push(s, steps, step, w);
    case Start(_, _) => Push(s, steps, step, w);
    case SendLocal(_, result) =>
      SendLocalTracked(s, steps, step, n, Part(w, KeysOf(route(w), n.batch.value.keys, w), n.sets, result, false));
    case SendRemote(_, target) =>
      assert TicketsOk(n);
      SendRemoteTracked(route(w), s, steps, step, n);
    case Receive(_, i) => Untouched(s, steps, step, w, n, Received(n, i));
    case Collect(_, _) => CollectTracked(s, steps, step, n);
    case Timeout(_) => TimeoutTracked(s, steps, step, n);
    case Finish(_, _) => Untouched(s, steps, step, w, n, n.(batch := None));
  }

  lemma ServeTracked(route: Router, s: Sys, steps: seq<Step>, t: Sys, step: Step, w: nat)
    requires |t| == |s| && w < |s| && Enabled(route, t, step) && QueueOk(t, step.w) && step.Serve?
    requires Tracked(s, steps, w, t[w]) && Tracked(s, steps, step.w, t[step.w])
    ensures Tracked(s, steps + [step], w, Next(route, t, step)[w])
  {
    var req := t[step.w].requests[step.i];
    var popped := t[step.w].(requests := RemoveAt(t[step.w].requests, step.i));
    assert RequestOk(t, step.w, req);
    if w == req.source {
      var n := if w == step.w then popped else t[w];
      assert n.batch.Some? ==> BatchTracked(s, steps, w, n, n.batch.value);
      AnsweredTracked(s, steps, step, w, n, req.id, step.result);
    } else {
      Untouched(s, steps, step, w, t[w], Next(route, t, step)[w]);
    }
  }

  lemma OtherTracked(route: Router, s: Sys, steps: seq<Step>, t: Sys, step: Step, w: nat)
    requires |t| == |s| && w < |s| && Enabled(route, t, step) && !step.Serve? && w != step.w
    requires Tracked(s, steps, w, t[w])
    ensures Tracked(s, steps + [step], w, Next(route, t, step)[w])
  {
    OthersKeep(route, t, step, w);
    Untouched(s, steps, step, w, t[w], Next(route, t, step)[w]);
  }

  /** Only serving reaches into the data, tickets or batch of another worker. */
  lemma OthersKeep(route: Router, t: Sys, step: Step, w: nat)
    requires Enabled(route, t, step) && !step.Serve? && w < |t| && w != step.w
    ensures var n, n' := t[w], Next(route, t, step)[w];
      n'.sets == n.sets && n'.asked == n.asked && n'.batch == n.batch
  {
  }

  lemma StepTracked(route: Router, s: Sys, steps: seq<Step>, t: Sys, step: Step, w: nat)
    requires |t| == |s| && w < |s| && Enabled(route, t, step) && Inv(route, t)
    requires Tracked(s, steps, w, t[w]) && Tracked(s, steps, step.w, t[step.w])
    ensures Tracked(s, steps + [step], w, Next(route, t, step)[w])
  {
    if step.Serve? {
      assert QueueOk(t, step.w);
      ServeTracked(route, s, steps, t, step, w);
    } else if w == step.w {
      OwnStepTracked(route, s, steps, t, step);
    } else {
      OtherTracked(route, s, steps, t, step, w);
    }
  }

  lemma {:induction false} RunTracked(route: Router, s: Sys, steps: seq<Step>)
    requires IsInit(s) && IsRun(route, s, steps)
    ensures |After(route, s, steps)| == |s| && Inv(route, After(route, s, steps))
    ensures forall w | 0 <= w < |s| :: Tracked(s, steps, w, After(route, s, steps)[w])
  {
    RunKeepsInv(route, s, steps);
    if steps != [] {
      var before, step := steps[..|steps| - 1], steps[|steps| - 1];
      RunTracked(route, s, before);
      assert steps == before + [step];
      forall w | 0 <= w < |s| ensures Tracked(s, steps, w, After(route, s, steps)[w]) {
        StepTracked(route, s, before, After(route, s, before), step, w);
      }
    }
  }

  // ----- Every owner is asked once -----

  function PartWorkers(b: Batch): seq<nat> { seq(|b.parts|, i requires 0 <= i < |b.parts| => b.parts[i].worker) }

  predicate Asked(n: Worker, b: Batch) { forall i | 0 <= i < |b.futures| :: b.futures[i] in n.asked }

  function FutureWorkers(n: Worker, b: Batch): seq<nat>
    requires Asked(n, b)
  {
    seq(|b.futures|, i requires 0 <= i < |b.futures| => n.asked[b.futures[i]].worker)
  }

  predicate Distinct(s: seq<nat>) { forall i, j | 0 <= i < j < |s| :: s[i] != s[j] }

  /** The owners that are still to be asked, were asked and have answered are all different. */
  predicate Apart(n: Worker, b: Batch) {
    && Asked(n, b)
    && Distinct(PartWorkers(b) + FutureWorkers(n, b))
    && forall g | g in b.todo :: g !in PartWorkers(b) && g !in FutureWorkers(n, b)
  }

  predicate WorkerApart(n: Worker) { n.batch.Some? ==> Apart(n, n.batch.value) }

  /** The same owners in another order. */
  lemma Reordered(s: seq<nat>, t: seq<nat>, i: nat)
    requires i < |t| && Distinct(s + t)
    ensures Distinct((s + [t[i]]) + RemoveAt(t, i))
    ensures forall g :: g in s + t <==> g in (s + [t[i]]) + RemoveAt(t, i)
  {
    var u, r := s + t, (s + [t[i]]) + RemoveAt(t, i);
    var n := |s|;
    forall j | 0 <= j < |r|
      ensures r[j] == u[if j < n then j else if j == n then n + i else if j <= n + i then j - 1 else j]
    {
    }
    forall j | 0 <= j < |u|
      ensures u[j] == r[if j < n then j else if j < n + i then j + 1 else if j == n + i then n else j]
    {
    }
  }

  lemma CollectApart(n: Worker, i: nat)
    requires n.batch.Some? && i < |n.batch.value.futures| && WorkerApart(n)
    requires n.batch.value.futures[i] in n.promises && n.batch.value.futures[i] in n.asked
    requires n.asked[n.batch.value.futures[i]].view.Some?
    ensures WorkerApart(Collected(n, i))
  {
    var b, n' := n.batch.value, Collected(n, i);
    var b' := n'.batch.value;
    var ps, fs := PartWorkers(b), FutureWorkers(n, b);
    Reordered(ps, fs, i);
    forall j | 0 <= j < |b'.futures| ensures b'.futures[j] in n'.asked {
      assert b'.futures[j] == b.futures[if j < i then j else j + 1];
    }
    assert PartWorkers(b') == ps + [fs[i]];
    assert FutureWorkers(n', b') == RemoveAt(fs, i);
    forall g | g in b'.todo ensures g !in PartWorkers(b') && g !in FutureWorkers(n', b') {
      assert g !in ps + fs;
    }
  }

  lemma TimeoutApart(n: Worker)
    requires n.batch.Some? && WorkerApart(n) && n.batch.value.todo == {}
    requires forall id | id in n.batch.value.futures :: id in n.asked
    ensures var b := n.batch.value;
      WorkerApart(n.(batch := Some(b.(futures := [], parts := b.parts + LateParts(n, b.futures)))))
  {
    var b := n.batch.value;
    var late := LateParts(n, b.futures);
    var b' := b.(futures := [], parts := b.parts + late);
    forall j | 0 <= j < |b'.parts| ensures PartWorkers(b')[j] == (PartWorkers(b) + FutureWorkers(n, b))[j] {
      if j >= |b.parts| {
        assert b'.parts[j] == late[j - |b.parts|];
      }
    }
    assert PartWorkers(b') + FutureWorkers(n.(batch := Some(b')), b') == PartWorkers(b) + FutureWorkers(n, b);
  }

  lemma SendRemoteApart(route: string -> nat, n: Worker, target: nat)
    requires n.batch.Some? && WorkerApart(n) && TicketsOk(n) && target in n.batch.value.todo
    ensures WorkerApart(Sent(route, n, target))
  {
    var b, n' := n.batch.value, Sent(route, n, target);
    var b' := n'.batch.value;
    forall j | 0 <= j < |b'.futures| ensures b'.futures[j] in n'.asked {
      if j < |b.futures| {
        assert b.futures[j] in n.asked;
      }
    }
    forall j | 0 <= j < |b.futures| ensures n'.asked[b.futures[j]].worker == n.asked[b.futures[j]].worker {
      assert b.futures[j] < n.nextId;
    }
    assert FutureWorkers(n', b') == FutureWorkers(n, b) + [target];
    assert PartWorkers(b') == PartWorkers(b);
    Later(PartWorkers(b), FutureWorkers(n, b), target);
  }

  lemma Later(s: seq<nat>, t: seq<nat>, g: nat)
    requires Distinct(s + t) && g !in s && g !in t
    ensures Distinct(s + (t + [g]))
  {
    assert s + (t + [g]) == (s + t) + [g];
    assert g !in s + t;
  }

  lemma SendLocalApart(n: Worker, part: Part)
    requires n.batch.Some? && WorkerApart(n) && part.worker in n.batch.value.todo
    ensures var b := n.batch.value;
      WorkerApart(n.(batch := Some(b.(todo := b.todo - {part.worker}, parts := b.parts + [part]))))
  {
    var b := n.batch.value;
    var b' := b.(todo := b.todo - {part.worker}, parts := b.parts + [part]);
    var n' := n.(batch := Some(b'));
    assert PartWorkers(b') == PartWorkers(b) + [part.worker];
    assert FutureWorkers(n', b') == FutureWorkers(n, b);
    Between(PartWorkers(b), FutureWorkers(n, b), part.worker);
  }

  lemma Between(s: seq<nat>, t: seq<nat>, g: nat)
    requires Distinct(s + t) && g !in s && g !in t
    ensures Distinct(s + [g] + t)
  {
    var u, r := s + t, s + [g] + t;
    forall i, j | 0 <= i < j < |r| ensures r[i] != r[j] {
      if i != |s| && j != |s| {
        assert r[i] == u[if i < |s| then i else i - 1] && r[j] == u[if j < |s| then j else j - 1];
      }
    }
  }

  /** Owners do not change while a worker is answered. */
  lemma SameApart(n: Worker, n': Worker)
    requires WorkerApart(n) && (n'.batch.None? || n'.batch == n.batch)
    requires forall id | id in n.asked :: id in n'.asked && n'.asked[id].worker == n.asked[id].worker
    ensures WorkerApart(n')
  {
    if n'.batch.Some? {
      var b := n.batch.value;
      forall j | 0 <= j < |b.futures| ensures b.futures[j] in n'.asked {
        assert b.futures[j] in n.asked;
      }
      assert FutureWorkers(n', b) == FutureWorkers(n, b);
    }
  }

  /** The step works on the worker's own batch. */
  predicate WorksOnBatch(step: Step, w: nat) {
    step.w == w && (step.Start? || step.SendLocal? || step.SendRemote? || step.Collect? || step.Timeout?)
  }

  lemma OthersApart(route: Router, t: Sys, step: Step, w: nat)
    requires Enabled(route, t, step) && w < |t| && WorkerApart(t[w]) && !WorksOnBatch(step, w)
    ensures WorkerApart(Next(route, t, step)[w])
  {
    SameApart(t[w], Next(route, t, step)[w]);
  }

  lemma OwnApart(route: Router, t: Sys, step: Step)
    requires Enabled(route, t, step) && TicketsOk(t[step.w]) && WorkerApart(t[step.w]) && WorksOnBatch(step, step.w)
    ensures WorkerApart(Next(route, t, step)[step.w])
  {
    var w := step.w;
    var n := t[w];
    match step
    case Start(_, _) =>
    case SendLocal(_, result) =>
      SendLocalApart(n, Part(w, KeysOf(route(w), n.batch.value.keys, w), n.sets, result, false));
    case SendRemote(_, target) => SendRemoteApart(route(w), n, target);
    case Collect(_, i) => CollectApart(n, i);
    case Timeout(_) => TimeoutApart(n);
  }

  lemma StepApart(route: Router, t: Sys, step: Step, w: nat)
    requires Inv(route, t) && Enabled(route, t, step) && w < |t| && WorkerApart(t[w])
    ensures WorkerApart(Next(route, t, step)[w])
  {
    if WorksOnBatch(step, w) {
      assert TicketsOk(t[w]);
      OwnApart(route, t, step);
    } else {
      OthersApart(route, t, step, w);
    }
  }

  lemma {:induction false} RunApart(route: Router, s: Sys, steps: seq<Step>)
    requires IsInit(s) && IsRun(route, s, steps)
    ensures forall w | 0 <= w < |After(route, s, steps)| :: WorkerApart(After(route, s, steps)[w])
  {
    RunKeepsInv(route, s, steps);
    if steps != [] {
      var before, step := steps[..|steps| - 1], steps[|steps| - 1];
      RunApart(route, s, before);
      RunKeepsInv(route, s, before);
      forall w | 0 <= w < |s| ensures WorkerApart(After(route, s, steps)[w]) {
        StepApart(route, After(route, s, before), step, w);
      }
    }
  }

  // ----- What SINTER answers -----

  /** The set each key named when its own worker looked at it, since the intersection was started. */
  ghost predicate Looked(route: string -> nat, s: Sys, steps: seq<Step>, w: nat, keys: seq<string>,
                         look: map<string, Sets>) {
    forall k | k in keys :: k in look && Held(s, steps, w, route(k), look[k])
  }

  ghost predicate IsIntersection(keys: seq<string>, look: map<string, Sets>, result: seq<string>)
    requires forall k | k in keys :: k in look
  {
    forall x :: x in result <==> keys != [] && forall k | k in keys :: x in Members(look[k], k)
  }

  /** What the workers saw, key by key. */
  lemma Views(route: string -> nat, s: Sys, steps: seq<Step>, w: nat, n: Worker, b: Batch, result: seq<string>)
    returns (look: map<string, Sets>)
    requires BatchTracked(s, steps, w, n, b) && Apart(n, b) && RightAnswer(route, b, result) && !GaveUp(b)
    ensures Looked(route, s, steps, w, b.keys, look) && IsIntersection(b.keys, look, result)
  {
    look := map k | k in b.keys :: View(route, b, result, k);
    forall k | k in b.keys
      ensures Held(s, steps, w, route(k), look[k]) && forall x :: Seen(b, k, x) <==> x in Members(look[k], k)
    {
      OneView(route, s, steps, w, n, b, result, k);
    }
    forall x ensures x in result <==> b.keys != [] && forall k | k in b.keys :: x in Members(look[k], k) {
      assert RightFor(b, result, x);
    }
  }

  ghost function View(route: string -> nat, b: Batch, result: seq<string>, k: string): Sets
    requires RightAnswer(route, b, result) && k in b.keys
  {
    var p :| p in b.parts && p.worker == route(k) && k in p.keys;
    p.view
  }

  lemma OneView(route: string -> nat, s: Sys, steps: seq<Step>, w: nat, n: Worker, b: Batch, result: seq<string>,
                k: string)
    requires BatchTracked(s, steps, w, n, b) && Apart(n, b) && RightAnswer(route, b, result) && !GaveUp(b)
    requires k in b.keys
    ensures var view := View(route, b, result, k);
      Held(s, steps, w, route(k), view) && forall x :: Seen(b, k, x) <==> x in Members(view, k)
  {
    var p :| p in b.parts && p.worker == route(k) && k in p.keys && p.view == View(route, b, result, k);
    var i :| 0 <= i < |b.parts| && b.parts[i] == p;
    assert PartHeld(s, steps, w, b.parts[i]);
    forall q | q in b.parts && k in q.keys ensures q == p {
      var j :| 0 <= j < |b.parts| && b.parts[j] == q;
      var owners := PartWorkers(b) + FutureWorkers(n, b);
      assert owners[i] == owners[j];
    }
  }

  /**
   For every routing, every run and every order in which answers arrive: a SINTER that ends answers for
   exactly the keys it was last started on. If it gave up it answers nothing. Otherwise it answers,
   without duplicates, the members common to all the named sets, each as its own worker held it at some
   moment since the start.
   */
  lemma SInterExact(route: Router, s: Sys, steps: seq<Step>, w: nat, result: seq<string>)
    requires IsInit(s) && IsRun(route, s, steps) && Enabled(route, After(route, s, steps), Finish(w, result))
    ensures LastStart(steps, w).Some? && NoDuplicates(result)
    ensures if TimedOut(steps, w) then result == [] else exists look ::
      && Looked(route(w), s, steps, w, LastStart(steps, w).value, look)
      && IsIntersection(LastStart(steps, w).value, look, result)
  {
    RunTracked(route, s, steps);
    RunApart(route, s, steps);
    var n := After(route, s, steps)[w];
    var b := n.batch.value;
    AnswerIsRight(route(w), n, b, result);
    assert Tracked(s, steps, w, n) && WorkerApart(n);
    if TimedOut(steps, w) {
      assert result == [] || result[0] in result;
      forall x ensures x !in result {
        assert RightFor(b, result, x);
      }
    } else {
      var look := Views(route(w), s, steps, w, n, b, result);
    }
  }

  // ----- Without concurrent writes the answer is the intersection over the whole keyspace -----

  lemma {:induction false} QuietHeld(s: Sys, steps: seq<Step>, w: nat, g: nat, view: Sets)
    requires g < |s| && forall step | step in steps :: !step.Write?
    ensures SetsAfter(s, steps, g) == s[g].sets && (Held(s, steps, w, g, view) ==> view == s[g].sets)
  {
    if steps != [] {
      QuietHeld(s, steps[..|steps| - 1], w, g, view);
    }
  }

  /** The intersection of what the owners hold. */
  ghost predicate IsWholeIntersection(route: string -> nat, s: Sys, keys: seq<string>, result: seq<string>)
    requires forall k :: route(k) < |s|
  {
    forall x :: x in result <==> keys != [] && forall k | k in keys :: x in Members(s[route(k)].sets, k)
  }

  lemma QuietLook(route: string -> nat, s: Sys, steps: seq<Step>, w: nat, keys: seq<string>, look: map<string, Sets>,
                  result: seq<string>)
    requires (forall step | step in steps :: !step.Write?) && forall k :: route(k) < |s|
    requires Looked(route, s, steps, w, keys, look) && IsIntersection(keys, look, result)
    ensures IsWholeIntersection(route, s, keys, result)
  {
    forall k | k in keys ensures look[k] == s[route(k)].sets {
      QuietHeld(s, steps, w, route(k), look[k]);
    }
  }

  lemma QuietSInterIsIntersection(
      route: Router, s: Sys, steps: seq<Step>, w: nat, result: seq<string>)
    requires IsInit(s) && IsRun(route, s, steps) && Enabled(route, After(route, s, steps), Finish(w, result))
    requires forall step | step in steps :: !step.Write?
    requires w < |s| && forall k :: route(w)(k) < |s|
    ensures LastStart(steps, w).Some? && NoDuplicates(result)
    ensures if TimedOut(steps, w) then result == []
            else IsWholeIntersection(route(w), s, LastStart(steps, w).value, result)
  {
    SInterExact(route, s, steps, w, result);
    var keys := LastStart(steps, w).value;
    if !TimedOut(steps, w) {
      var look :| Looked(route(w), s, steps, w, keys, look) && IsIntersection(keys, look, result);
      QuietLook(route(w), s, steps, w, keys, look, result);
    }
  }
}
