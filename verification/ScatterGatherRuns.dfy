/** What every run of multi-shard SINTER guarantees, and when it cannot answer. */
module ScatterGatherRuns {
  import opened Common
  import opened SetIntersection
  import opened ScatterGather

  predicate IsInit(s: Sys) {
    forall w | 0 <= w < |s| ::
      && s[w].requests == [] && s[w].responses == [] && s[w].asked == map[]
      && s[w].pending == {} && s[w].promises == map[] && s[w].batch.None?
  }

  lemma {:induction false} RunKeepsInv(route: Router, s: Sys, steps: seq<Step>)
    requires IsInit(s) && IsRun(route, s, steps)
    ensures Inv(route, After(route, s, steps)) && |After(route, s, steps)| == |s|
  {
    if steps != [] {
      var before, step := steps[..|steps| - 1], steps[|steps| - 1];
      RunKeepsInv(route, s, before);
      StepKeepsInv(route, After(route, s, before), step);
    }
  }

  lemma StepKeepsInv(route: Router, s: Sys, step: Step)
    requires Inv(route, s) && Enabled(route, s, step)
    ensures Inv(route, Next(route, s, step)) && |Next(route, s, step)| == |s|
  {
    match step
    case SendRemote(self, target) => SendKeeps(route, s, self, target);
    case Serve(self, i, result) => ServeKeeps(route, s, self, i, result);
    case _ => LocalStepKeeps(route, s, step);
  }

  /**
   In every run each response finds its request still pending, so no promise is set twice and no
   response is dropped as unknown; and every request is waiting, answered or fulfilled.
   */
  lemma PromisesFulfilledOnce(route: Router, s: Sys, steps: seq<Step>, w: nat)
    requires IsInit(s) && IsRun(route, s, steps) && w < |s|
    ensures |After(route, s, steps)| == |s|
    ensures var n := After(route, s, steps)[w];
      && (forall resp | resp in n.responses :: resp.id in n.pending && resp.id !in n.promises)
      && (forall i, j | 0 <= i < j < |n.responses| :: n.responses[i].id != n.responses[j].id)
      && n.pending !! n.promises.Keys && n.asked.Keys == n.pending + n.promises.Keys
      && forall id | id in n.asked :: Placed(After(route, s, steps), w, id)
  {
    RunKeepsInv(route, s, steps);
    var t := After(route, s, steps);
    assert InboxOk(t[w]) && TicketsOk(t[w]) && NothingLost(t, w);
    forall resp | resp in t[w].responses ensures resp.id in t[w].pending && resp.id !in t[w].promises {
      var i :| 0 <= i < |t[w].responses| && t[w].responses[i] == resp;
    }
  }

  // ----- What SINTER answers -----

  /** `x` was in the set named `k` when the worker that owns `k` looked. */
  predicate Seen(b: Batch, k: string, x: string) {
    forall p | p in b.parts && k in p.keys :: x in Members(p.view, k)
  }

  predicate GaveUp(b: Batch) { exists p :: p in b.parts && p.late }

  lemma AllKeysAnswered(route: string -> nat, w: Worker, b: Batch)
    requires BatchOk(route, w, b) && Ready(b)
    ensures forall k | k in b.keys :: exists p :: p in b.parts && p.worker == route(k) && k in p.keys
    ensures forall p, k | p in b.parts && k in p.keys :: k in b.keys && p.worker == route(k)
    ensures b.keys == [] ==> b.parts == []
  {
    forall k | k in b.keys ensures exists p :: p in b.parts && p.worker == route(k) && k in p.keys {
      assert Covered(w, b, route(k));
      var i :| 0 <= i < |b.parts| && b.parts[i].worker == route(k);
      KeysOfMembers(route, b.keys, route(k), k);
      assert PartOk(route, b, b.parts[i]);
    }
    forall p, k | p in b.parts && k in p.keys ensures k in b.keys && p.worker == route(k) {
      var i :| 0 <= i < |b.parts| && b.parts[i] == p;
      assert PartOk(route, b, b.parts[i]);
      KeysOfMembers(route, b.keys, p.worker, k);
    }
    if b.parts != [] {
      assert PartOk(route, b, b.parts[0]);
      assert b.parts[0] in b.parts && b.parts[0].keys[0] in b.parts[0].keys;
    }
  }

  predicate InAllSets(p: Part, x: string) { forall k | k in p.keys :: x in Members(p.view, k) }

  lemma PartMember(route: string -> nat, w: Worker, b: Batch, p: Part, x: string)
    requires BatchOk(route, w, b) && p in b.parts && !p.late
    ensures x in p.result <==> InAllSets(p, x)
  {
    var i :| 0 <= i < |b.parts| && b.parts[i] == p;
    assert PartOk(route, b, b.parts[i]);
    assert x in p.result <==> x in Elems(p.result);
  }

  /** Asking part by part is asking key by key. */
  lemma PartsAreKeys(b: Batch, x: string)
    requires forall p, k | p in b.parts && k in p.keys :: k in b.keys
    ensures (forall p | p in b.parts :: InAllSets(p, x)) <==> (forall k | k in b.keys :: Seen(b, k, x))
  {
    if forall k | k in b.keys :: Seen(b, k, x) {
      forall p | p in b.parts ensures InAllSets(p, x) {
        forall k | k in p.keys ensures x in Members(p.view, k) {
          assert Seen(b, k, x);
        }
      }
    }
  }

  lemma AggregateMember(parts: seq<Part>, result: seq<string>, x: string)
    requires IsAggregate(parts, result)
    ensures x in result <==> parts != [] && forall p | p in parts :: x in p.result
  {
    var rs := Results(parts);
    assert x in result <==> x in Elems(result);
    if parts != [] {
      forall p | p in parts ensures p.result in rs {
        var i :| 0 <= i < |parts| && parts[i] == p;
        assert rs[i] == p.result;
      }
      forall r | r in rs ensures exists p :: p in parts && p.result == r {
        var i :| 0 <= i < |rs| && rs[i] == r;
        assert parts[i] in parts;
      }
    }
  }

  lemma AnswerExact(route: string -> nat, w: Worker, b: Batch, result: seq<string>, x: string)
    requires BatchOk(route, w, b) && Ready(b) && IsAggregate(b.parts, result)
    ensures x in result <==> !GaveUp(b) && b.keys != [] && forall k | k in b.keys :: Seen(b, k, x)
  {
    AggregateMember(b.parts, result, x);
    AllKeysAnswered(route, w, b);
    if GaveUp(b) {
      var p :| p in b.parts && p.late;
      var i :| 0 <= i < |b.parts| && b.parts[i] == p;
      assert PartOk(route, b, b.parts[i]);
    } else {
      PartsAreKeys(b, x);
      forall p | p in b.parts ensures x in p.result <==> InAllSets(p, x) {
        PartMember(route, w, b, p, x);
      }
    }
  }

  /**
   What a SINTER on the keys of a batch must answer: no duplicates, and exactly the members of every
   named set, each read as its own worker saw it, unless the wait timed out, when it is empty.
   */
  ghost predicate RightAnswer(route: string -> nat, b: Batch, result: seq<string>) {
    && NoDuplicates(result)
    && (forall k | k in b.keys :: exists p :: p in b.parts && p.worker == route(k) && k in p.keys)
    && (forall p, k | p in b.parts && k in p.keys :: k in b.keys && p.worker == route(k))
    && (forall x :: RightFor(b, result, x))
  }

  ghost predicate RightFor(b: Batch, result: seq<string>, x: string) {
    x in result <==> !GaveUp(b) && b.keys != [] && forall k | k in b.keys :: Seen(b, k, x)
  }

  lemma AnswerIsRight(route: string -> nat, w: Worker, b: Batch, result: seq<string>)
    requires BatchOk(route, w, b) && Ready(b) && IsAggregate(b.parts, result)
    ensures RightAnswer(route, b, result)
  {
    AllKeysAnswered(route, w, b);
    forall x ensures RightFor(b, result, x) {
      AnswerExact(route, w, b, result, x);
    }
  }

  // ----- Two SINTERs that need each other wait for each other -----

  /** Worker `a` waits for an answer that worker `b` has not computed yet. */
  predicate WaitsOn(s: Sys, a: nat, b: nat) {
    && a < |s| && s[a].batch.Some?
    && exists id :: id in s[a].batch.value.futures && Unanswered(s[a], id, b)
  }

  predicate Unanswered(w: Worker, id: nat, b: nat) {
    id in w.asked && w.asked[id].worker == b && w.asked[id].view.None?
  }

  /** A worker that waits itself serves nobody. */
  lemma StillUnanswered(route: Router, s: Sys, step: Step, a: nat, b: nat, id: nat)
    requires a < |s| && b < |s| && Enabled(route, s, step) && QueueOk(s, step.w)
    requires s[b].batch.Some? && TicketsOk(s[a]) && Unanswered(s[a], id, b)
    ensures |Next(route, s, step)| == |s| && Unanswered(Next(route, s, step)[a], id, b)
  {
    if step.Serve? {
      assert RequestOk(s, step.w, s[step.w].requests[step.i]);
    }
  }

  /** A worker keeps waiting for a future that is not ready. */
  lemma StillWaiting(route: Router, s: Sys, step: Step, a: nat, id: nat)
    requires a < |s| && Enabled(route, s, step) && step != Timeout(a)
    requires s[a].batch.Some? && id in s[a].batch.value.futures && id !in s[a].promises
    ensures |Next(route, s, step)| == |s| && Next(route, s, step)[a].batch.Some?
    ensures id in Next(route, s, step)[a].batch.value.futures
  {
    var t, futures := Next(route, s, step), s[a].batch.value.futures;
    if step.w == a && step.Collect? {
      StillAmong(futures, step.i, id);
    } else if step.w == a && step.SendRemote? {
      assert t[a].batch.value.futures == futures + [s[a].nextId];
    } else {
      assert t[a].batch.Some? && t[a].batch.value.futures == futures;
    }
  }

  lemma StillAmong(futures: seq<nat>, i: nat, id: nat)
    requires i < |futures| && id in futures && futures[i] != id
    ensures id in RemoveAt(futures, i)
  {
    var j :| 0 <= j < |futures| && futures[j] == id;
    assert RemoveAt(futures, i)[if j < i then j else j - 1] == id;
  }

  lemma WaitKept(route: Router, s: Sys, step: Step, a: nat, b: nat)
    requires a < |s| && b < |s| && Enabled(route, s, step) && step != Timeout(a)
    requires s[b].batch.Some? && WaitsOn(s, a, b) && TicketsOk(s[a]) && QueueOk(s, step.w)
    ensures WaitsOn(Next(route, s, step), a, b)
  {
    var id :| id in s[a].batch.value.futures && Unanswered(s[a], id, b);
    StillUnanswered(route, s, step, a, b, id);
    StillWaiting(route, s, step, a, id);
  }

  /** What every allowed step keeps, every run of allowed steps keeps. */
  lemma {:induction false} RunInduction(
      route: Router, s: Sys, steps: seq<Step>, allowed: Step -> bool, p: Sys -> bool)
    requires IsRun(route, s, steps) && p(s) && forall step | step in steps :: allowed(step)
    requires forall t, step | p(t) && Enabled(route, t, step) && allowed(step) :: p(Next(route, t, step))
    ensures p(After(route, s, steps))
  {
    if steps != [] {
      RunInduction(route, s, steps[..|steps| - 1], allowed, p);
    }
  }

  predicate Crossed(s: Sys, a: nat, b: nat) {
    a < |s| && b < |s| && WaitsOn(s, a, b) && WaitsOn(s, b, a)
  }

  lemma RunPush(route: Router, s: Sys, steps: seq<Step>, step: Step)
    requires IsRun(route, s, steps) && Enabled(route, After(route, s, steps), step)
    ensures IsRun(route, s, steps + [step])
    ensures After(route, s, steps + [step]) == Next(route, After(route, s, steps), step)
  {
    assert (steps + [step])[..|steps|] == steps;
  }

  lemma RunOfFour(route: Router, s: Sys, steps: seq<Step>, t: Sys, a: Step, b: Step, c: Step, d: Step)
    requires IsRun(route, s, steps) && t == After(route, s, steps)
    requires Enabled(route, t, a) && Enabled(route, Next(route, t, a), b)
    requires Enabled(route, Next(route, Next(route, t, a), b), c)
    requires Enabled(route, Next(route, Next(route, Next(route, t, a), b), c), d)
    ensures IsRun(route, s, steps + [a, b, c, d])
    ensures After(route, s, steps + [a, b, c, d])
         == Next(route, Next(route, Next(route, Next(route, t, a), b), c), d)
  {
    RunPush(route, s, steps, a);
    RunPush(route, s, steps + [a], b);
    RunPush(route, s, steps + [a] + [b], c);
    RunPush(route, s, steps + [a] + [b] + [c], d);
    assert steps + [a] + [b] + [c] + [d] == steps + [a, b, c, d];
  }

  /** Two SINTERs, each with a key of the other's worker, started before either asks. */
  function CrossingSteps(a: nat, b: nat, x: string, y: string): seq<Step> {
    [Start(a, [x, y]), Start(b, [x, y]), SendRemote(a, b), SendRemote(b, a)]
  }

  /** Each has yet to ask the other. */
  predicate AboutToCross(s: Sys, a: nat, b: nat) {
    && a < |s| && b < |s| && a != b && s[a].batch.Some? && s[b].batch.Some?
    && b in s[a].batch.value.todo && a in s[b].batch.value.todo
  }

  lemma CrossingStarts(route: Router, s: Sys, a: nat, b: nat, keys: seq<string>)
    requires a < |s| && b < |s| && a != b && s[a].batch.None? && s[b].batch.None?
    requires forall k | k in keys :: route(a)(k) < |s| && route(b)(k) < |s|
    requires (exists k :: k in keys && route(a)(k) == b) && exists k :: k in keys && route(b)(k) == a
    ensures Enabled(route, s, Start(a, keys)) && Enabled(route, Next(route, s, Start(a, keys)), Start(b, keys))
    ensures AboutToCross(Next(route, Next(route, s, Start(a, keys)), Start(b, keys)), a, b)
  {
  }

  lemma CrossingAsks(route: Router, s: Sys, a: nat, b: nat)
    requires AboutToCross(s, a, b)
    ensures Enabled(route, s, SendRemote(a, b))
    ensures Enabled(route, Next(route, s, SendRemote(a, b)), SendRemote(b, a))
    ensures Crossed(Next(route, Next(route, s, SendRemote(a, b)), SendRemote(b, a)), a, b)
  {
    var u := Next(route, Next(route, s, SendRemote(a, b)), SendRemote(b, a));
    var i, j := |s[a].batch.value.futures|, |s[b].batch.value.futures|;
    assert u[a].batch.value.futures[i] in u[a].batch.value.futures && Unanswered(u[a], u[a].batch.value.futures[i], b);
    assert u[b].batch.value.futures[j] in u[b].batch.value.futures && Unanswered(u[b], u[b].batch.value.futures[j], a);
  }

  /** After every run it takes only these for two idle workers to wait on each other. */
  lemma CrossingIsReachable(
      route: Router, s: Sys, steps: seq<Step>, t: Sys, a: nat, b: nat, x: string, y: string)
    requires IsRun(route, s, steps) && t == After(route, s, steps)
    requires a < |t| && b < |t| && a != b && t[a].batch.None? && t[b].batch.None?
    requires route(a)(x) == a && route(a)(y) == b && route(b)(x) == a && route(b)(y) == b
    ensures IsRun(route, s, steps + CrossingSteps(a, b, x, y))
    ensures Crossed(After(route, s, steps + CrossingSteps(a, b, x, y)), a, b)
  {
    var keys := [x, y];
    assert x in keys && y in keys;
    CrossingStarts(route, t, a, b, keys);
    CrossingAsks(route, Next(route, Next(route, t, Start(a, keys)), Start(b, keys)), a, b);
    RunOfFour(route, s, steps, t, Start(a, keys), Start(b, keys), SendRemote(a, b), SendRemote(b, a));
  }
}
