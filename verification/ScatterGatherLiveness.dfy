/**
 When a multi-shard SINTER can be answered without anyone giving up. A worker inside SendBatchRequest
 serves nobody, so workers that need each other wait until a timeout.
 */
module ScatterGatherLiveness {
  import opened Common
  import opened SetIntersection
  import opened ScatterGather
  import opened ScatterGatherRuns

  // ----- Groups in which everybody needs somebody -----

  type Relation = (nat, nat) -> bool

  predicate NeedsOneOf(needs: Relation, a: nat, group: set<nat>) { exists b :: b in group && needs(a, b) }

  predicate Closed(needs: Relation, group: set<nat>) {
    forall a {:trigger NeedsOneOf(needs, a, group)} | a in group :: NeedsOneOf(needs, a, group)
  }

  lemma ClosedKept(needs: Relation, after: Relation, group: set<nat>)
    requires Closed(needs, group) && forall a, b | a in group && b in group && needs(a, b) :: after(a, b)
    ensures Closed(after, group)
  {
    forall a | a in group ensures NeedsOneOf(after, a, group) {
      assert NeedsOneOf(needs, a, group);
      var b :| b in group && needs(a, b);
      assert after(a, b);
    }
  }

  /** A ring: each needs the next one and the last one the first. */
  predicate Ring(needs: Relation, ring: seq<nat>) {
    ring != [] && forall i | 0 <= i < |ring| :: needs(ring[i], ring[if i + 1 < |ring| then i + 1 else 0])
  }

  lemma RingIsClosed(needs: Relation, ring: seq<nat>)
    requires Ring(needs, ring)
    ensures Closed(needs, set a | a in ring)
  {
    var group := set a | a in ring;
    forall a | a in group ensures NeedsOneOf(needs, a, group) {
      var i :| 0 <= i < |ring| && ring[i] == a;
      var b := ring[if i + 1 < |ring| then i + 1 else 0];
      assert b in group && needs(a, b);
    }
  }

  /** A walk inside the group that meets nobody twice. */
  predicate Walk(needs: Relation, group: set<nat>, path: seq<nat>) {
    && path != []
    && (forall i | 0 <= i < |path| :: path[i] in group)
    && (forall i | 0 <= i < |path| - 1 :: needs(path[i], path[i + 1]))
    && (forall i, j | 0 <= i < j < |path| :: path[i] != path[j])
  }

  lemma {:induction false} DistinctFit(path: seq<nat>, group: set<nat>)
    requires forall i | 0 <= i < |path| :: path[i] in group
    requires forall i, j | 0 <= i < j < |path| :: path[i] != path[j]
    ensures |path| <= |group|
  {
    if path != [] {
      var n := |path| - 1;
      DistinctFit(path[..n], group - {path[n]});
    }
  }

  /** A way from `w` along the relation to a ring. */
  predicate Leads(needs: Relation, w: nat, path: seq<nat>, ring: seq<nat>) {
    && path != [] && path[0] == w
    && (forall i | 0 <= i < |path| - 1 :: needs(path[i], path[i + 1]))
    && Ring(needs, ring) && path[|path| - 1] == ring[0]
  }

  ghost predicate ReachesRing(needs: Relation, w: nat) { exists path, ring :: Leads(needs, w, path, ring) }

  lemma WalkLeads(needs: Relation, group: set<nat>, path: seq<nat>, j: nat)
    requires Walk(needs, group, path) && j < |path| && needs(path[|path| - 1], path[j])
    ensures Leads(needs, path[0], path[..j + 1], path[j..])
  {
    var ring := path[j..];
    forall i | 0 <= i < |ring| ensures needs(ring[i], ring[if i + 1 < |ring| then i + 1 else 0]) {
      assert ring[i] == path[j + i];
      assert i + 1 < |ring| ==> ring[i + 1] == path[j + i + 1];
    }
  }

  /** Where everybody needs somebody, every walk ends up in a ring. */
  lemma {:induction false} WalkCloses(needs: Relation, group: set<nat>, path: seq<nat>)
    requires Closed(needs, group) && Walk(needs, group, path)
    ensures ReachesRing(needs, path[0])
    decreases |group| - |path|
  {
    assert NeedsOneOf(needs, path[|path| - 1], group);
    var b :| b in group && needs(path[|path| - 1], b);
    if b in path {
      var j :| 0 <= j < |path| && path[j] == b;
      WalkLeads(needs, group, path, j);
    } else {
      DistinctFit(path + [b], group);
      WalkCloses(needs, group, path + [b]);
    }
  }

  lemma LeadsIsClosed(needs: Relation, w: nat, path: seq<nat>, ring: seq<nat>)
    requires Leads(needs, w, path, ring)
    ensures Closed(needs, set a | a in path + ring)
  {
    var group := set a | a in path + ring;
    RingIsClosed(needs, ring);
    forall a | a in group ensures NeedsOneOf(needs, a, group) {
      if a in ring {
        var i :| 0 <= i < |ring| && ring[i] == a;
        var b := ring[if i + 1 < |ring| then i + 1 else 0];
        assert b in ring && b in group && needs(a, b);
      } else {
        var i :| 0 <= i < |path| && path[i] == a;
        assert i < |path| - 1 by { assert path[|path| - 1] in ring; }
        assert path[i + 1] in group && needs(a, path[i + 1]);
      }
    }
  }

  /** Someone is in a group of which each needs another exactly if a ring can be reached. */
  lemma ClosedExactly(needs: Relation, w: nat)
    ensures (exists group :: w in group && Closed(needs, group)) <==> ReachesRing(needs, w)
  {
    if group :| w in group && Closed(needs, group) {
      WalkCloses(needs, group, [w]);
    }
    if ReachesRing(needs, w) {
      var path, ring :| Leads(needs, w, path, ring);
      LeadsIsClosed(needs, w, path, ring);
      assert w in path + ring;
    }
  }

  // ----- Who needs whom -----

  /** Worker `a` waits for an answer of worker `b`, or has yet to ask it. */
  predicate Needs(s: Sys, a: nat, b: nat) {
    a < |s| && s[a].batch.Some? && ((b != a && b in s[a].batch.value.todo) || WaitsOn(s, a, b))
  }

  function NeedsIn(s: Sys): Relation { (a: nat, b: nat) => Needs(s, a, b) }

  /** Workers of which each needs another of them. */
  predicate Doomed(s: Sys, group: set<nat>) { Closed(NeedsIn(s), group) }

  ghost predicate IsDoomed(s: Sys, w: nat) { exists group :: w in group && Doomed(s, group) }

  lemma DoomedReachesRing(s: Sys, w: nat)
    ensures IsDoomed(s, w) <==> ReachesRing(NeedsIn(s), w)
  {
    ClosedExactly(NeedsIn(s), w);
    if group :| w in group && Closed(NeedsIn(s), group) {
      assert Doomed(s, group);
    }
    if group :| w in group && Doomed(s, group) {
      assert Closed(NeedsIn(s), group);
    }
  }

  lemma DoomedWaits(s: Sys, group: set<nat>, a: nat)
    requires Doomed(s, group) && a in group
    ensures a < |s| && s[a].batch.Some?
  {
    assert NeedsOneOf(NeedsIn(s), a, group);
    var b :| b in group && NeedsIn(s)(a, b);
  }

  // ----- Doomed workers stay doomed -----

  lemma StillToAsk(route: Router, s: Sys, step: Step, a: nat, b: nat)
    requires a < |s| && b < |s| && Enabled(route, s, step)
    requires s[a].batch.Some? && b != a && b in s[a].batch.value.todo
    ensures Needs(Next(route, s, step), a, b)
  {
    var t := Next(route, s, step);
    if step == SendRemote(a, b) {
      var futures := t[a].batch.value.futures;
      assert futures[|futures| - 1] in futures && Unanswered(t[a], futures[|futures| - 1], b);
    }
  }

  lemma NeedKept(route: Router, s: Sys, step: Step, a: nat, b: nat)
    requires Enabled(route, s, step) && step != Timeout(a) && Needs(s, a, b) && b < |s| && s[b].batch.Some?
    requires TicketsOk(s[a]) && QueueOk(s, step.w)
    ensures Needs(Next(route, s, step), a, b)
  {
    if WaitsOn(s, a, b) {
      WaitKept(route, s, step, a, b);
    } else {
      StillToAsk(route, s, step, a, b);
    }
  }

  lemma DoomedStep(route: Router, s: Sys, step: Step, group: set<nat>)
    requires Inv(route, s) && Doomed(s, group) && Enabled(route, s, step)
    requires !(step.Timeout? && step.w in group)
    ensures Doomed(Next(route, s, step), group)
  {
    forall a, b | a in group && b in group && NeedsIn(s)(a, b)
      ensures NeedsIn(Next(route, s, step))(a, b)
    {
      DoomedWaits(s, group, a);
      DoomedWaits(s, group, b);
      assert TicketsOk(s[a]) && QueueOk(s, step.w);
      NeedKept(route, s, step, a, b);
    }
    ClosedKept(NeedsIn(s), NeedsIn(Next(route, s, step)), group);
  }

  predicate NoTimeout(steps: seq<Step>, group: set<nat>) {
    forall step | step in steps :: !(step.Timeout? && step.w in group)
  }

  /**
   Workers that need each other, in a ring of any length or any other way, all stay without an answer
   until one of them gives up, whatever the other workers do in the meantime.
   */
  lemma DoomedStarve(route: Router, s: Sys, steps: seq<Step>, group: set<nat>)
    requires Inv(route, s) && Doomed(s, group) && IsRun(route, s, steps) && NoTimeout(steps, group)
    ensures Doomed(After(route, s, steps), group)
    ensures forall a | a in group :: a < |After(route, s, steps)| && After(route, s, steps)[a].batch.Some?
  {
    var p := t => Inv(route, t) && Doomed(t, group);
    var allowed := (step: Step) => !(step.Timeout? && step.w in group);
    forall t, step | p(t) && Enabled(route, t, step) && allowed(step) ensures p(Next(route, t, step)) {
      DoomedStep(route, t, step, group);
      StepKeepsInv(route, t, step);
    }
    RunInduction(route, s, steps, allowed, p);
    forall a | a in group ensures a < |After(route, s, steps)| && After(route, s, steps)[a].batch.Some? {
      DoomedWaits(After(route, s, steps), group, a);
    }
  }

  /** So do workers that wait on each other in a ring. */
  lemma RingStarves(route: Router, s: Sys, steps: seq<Step>, ring: seq<nat>)
    requires Inv(route, s) && Ring(NeedsIn(s), ring) && IsRun(route, s, steps)
    requires NoTimeout(steps, set a | a in ring)
    ensures forall a | a in ring :: a < |After(route, s, steps)| && After(route, s, steps)[a].batch.Some?
  {
    var group := set a | a in ring;
    RingIsClosed(NeedsIn(s), ring);
    DoomedStarve(route, s, steps, group);
    assert forall a | a in ring :: a in group;
  }

  /** Two workers that wait on each other are such a ring. */
  lemma CrossedIsRing(s: Sys, a: nat, b: nat)
    requires Crossed(s, a, b)
    ensures Ring(NeedsIn(s), [a, b])
  {
    assert forall i | 0 <= i < 2 :: Needs(s, [a, b][i], [a, b][1 - i]);
  }

  // ----- Somebody can go on unless all who wait are doomed -----

  /** The steps that bring some SINTER closer to its end. */
  predicate Advances(step: Step) {
    step.SendLocal? || step.SendRemote? || step.Serve? || step.Receive? || step.Collect? || step.Finish?
  }

  /** Only existing workers are asked. */
  predicate InRange(s: Sys) {
    forall w | 0 <= w < |s| :: s[w].batch.Some? ==> forall g | g in s[w].batch.value.todo :: g < |s|
  }

  lemma StepKeepsRange(route: Router, s: Sys, step: Step)
    requires InRange(s) && Enabled(route, s, step)
    ensures InRange(Next(route, s, step))
  {
    var t := Next(route, s, step);
    assert |t| == |s|;
    forall w | 0 <= w < |s| && t[w].batch.Some? ensures forall g | g in t[w].batch.value.todo :: g < |s| {
      assert s[w].batch.Some? ==> forall g | g in s[w].batch.value.todo :: g < |s|;
    }
  }

  lemma {:induction false} Enumeration(members: set<string>) returns (r: seq<string>)
    ensures NoDuplicates(r) && Elems(r) == members
  {
    if members == {} {
      r := [];
    } else {
      var x :| x in members;
      var rest := Enumeration(members - {x});
      r := rest + [x];
      ElemsPush(rest, x);
      assert forall i | 0 <= i < |rest| :: rest[i] in Elems(rest);
    }
  }

  lemma SendStep(route: Router, s: Sys, a: nat) returns (step: Step)
    requires Inv(route, s) && InRange(s) && a < |s| && s[a].batch.Some? && s[a].batch.value.todo != {}
    ensures Enabled(route, s, step) && Advances(step)
  {
    var b := s[a].batch.value;
    var g :| g in b.todo;
    if g == a {
      var keys := KeysOf(route(a), b.keys, a);
      assert BatchOk(route(a), s[a], b);
      var result := Enumeration(Intersection(s[a].sets, keys));
      step := SendLocal(a, result);
    } else {
      step := SendRemote(a, g);
    }
  }

  lemma FinishStep(route: Router, s: Sys, a: nat) returns (step: Step)
    requires a < |s| && s[a].batch.Some? && Ready(s[a].batch.value)
    ensures Enabled(route, s, step) && Advances(step)
  {
    var parts := s[a].batch.value.parts;
    var result := Enumeration(if parts == [] then {} else InAll(Results(parts)));
    step := Finish(a, result);
  }

  lemma ServeStep(route: Router, s: Sys, a: nat, id: nat) returns (step: Step)
    requires a < |s| && id in s[a].asked && s[a].asked[id].view.None? && s[a].asked[id].keys != []
    requires Placed(s, a, id) && s[s[a].asked[id].worker].batch.None?
    ensures Enabled(route, s, step) && Advances(step)
  {
    var ask := s[a].asked[id];
    var u := s[ask.worker];
    var i :| 0 <= i < |u.requests| && u.requests[i] == Request(a, id, ask.keys);
    var result := Enumeration(Intersection(u.sets, ask.keys));
    step := Serve(ask.worker, i, result);
  }

  function Waiting(s: Sys): set<nat> { set a | 0 <= a < |s| && s[a].batch.Some? }

  /** A worker with a SINTER can go on, or waits on a worker that has one too. */
  lemma GoOn(route: Router, s: Sys, a: nat) returns (step: Option<Step>)
    requires Inv(route, s) && InRange(s) && a < |s| && s[a].batch.Some?
    ensures step.Some? ==> Enabled(route, s, step.value) && Advances(step.value)
    ensures step.None? ==> NeedsOneOf(NeedsIn(s), a, Waiting(s))
  {
    var b := s[a].batch.value;
    if b.todo != {} {
      var send := SendStep(route, s, a);
      step := Some(send);
    } else if b.futures == [] {
      var finish := FinishStep(route, s, a);
      step := Some(finish);
    } else {
      var id := b.futures[0];
      assert BatchOk(route(a), s[a], b) && FutureOk(route(a), s[a], b, id);
      assert NothingLost(s, a) && Placed(s, a, id);
      var ask := s[a].asked[id];
      if ask.view.None? && s[ask.worker].batch.Some? {
        assert id in b.futures && Unanswered(s[a], id, ask.worker);
        assert WaitsOn(s, a, ask.worker) && ask.worker in Waiting(s) && NeedsIn(s)(a, ask.worker);
        step := None;
      } else if ask.view.None? {
        var serve := ServeStep(route, s, a, id);
        step := Some(serve);
      } else if id in s[a].promises {
        step := Some(Collect(a, 0));
      } else {
        var i :| 0 <= i < |s[a].responses| && s[a].responses[i].id == id;
        step := Some(Receive(a, i));
      }
    }
  }

  /** A step for one of these workers, or all of them need others who wait. */
  lemma {:induction false} AnyGoesOn(route: Router, s: Sys, left: set<nat>) returns (step: Option<Step>)
    requires Inv(route, s) && InRange(s) && left <= Waiting(s)
    ensures step.Some? ==> Enabled(route, s, step.value) && Advances(step.value)
    ensures step.None? ==> forall a | a in left :: NeedsOneOf(NeedsIn(s), a, Waiting(s))
    decreases left
  {
    if left == {} {
      step := None;
    } else {
      var a :| a in left;
      step := GoOn(route, s, a);
      if step.None? {
        step := AnyGoesOn(route, s, left - {a});
      }
    }
  }

  /** If nobody who waits could go on, all of them would be doomed. */
  lemma SomebodyGoesOn(route: Router, s: Sys, w: nat) returns (step: Step)
    requires Inv(route, s) && InRange(s) && w in Waiting(s) && !IsDoomed(s, w)
    ensures Enabled(route, s, step) && Advances(step)
  {
    var go := AnyGoesOn(route, s, Waiting(s));
    assert go.None? ==> Doomed(s, Waiting(s));
    step := go.value;
  }

  // ----- Going on never dooms anyone, and it ends -----

  lemma WaitIsOld(route: Router, s: Sys, step: Step, a: nat, b: nat)
    requires Enabled(route, s, step) && Advances(step) && WaitsOn(Next(route, s, step), a, b)
    ensures Needs(s, a, b)
  {
    var t := Next(route, s, step);
    var id :| id in t[a].batch.value.futures && Unanswered(t[a], id, b);
    if id in s[a].batch.value.futures && Unanswered(s[a], id, b) {
      assert WaitsOn(s, a, b);
    }
  }

  lemma NeedIsOld(route: Router, s: Sys, step: Step, a: nat, b: nat)
    requires Enabled(route, s, step) && Advances(step) && Needs(Next(route, s, step), a, b)
    ensures Needs(s, a, b)
  {
    if WaitsOn(Next(route, s, step), a, b) {
      WaitIsOld(route, s, step, a, b);
    }
  }

  lemma DoomIsOld(route: Router, s: Sys, step: Step, w: nat)
    requires Enabled(route, s, step) && Advances(step)
    ensures IsDoomed(Next(route, s, step), w) ==> IsDoomed(s, w)
  {
    var t := Next(route, s, step);
    if IsDoomed(t, w) {
      var group :| w in group && Doomed(t, group);
      forall a, b | a in group && b in group && NeedsIn(t)(a, b) ensures NeedsIn(s)(a, b) {
        NeedIsOld(route, s, step, a, b);
      }
      ClosedKept(NeedsIn(t), NeedsIn(s), group);
      assert Doomed(s, group);
    }
  }

  function WorkOf(w: Worker): nat {
    3 * |w.requests| + 2 * |w.responses|
    + if w.batch.Some? then 5 * |w.batch.value.todo| + |w.batch.value.futures| + 1 else 0
  }

  /** What is left to do for the SINTERs under way. */
  function Work(s: Sys): nat { if s == [] then 0 else Work(s[..|s| - 1]) + WorkOf(s[|s| - 1]) }

  lemma {:induction false} WorkUpdate(s: Sys, i: nat, x: Worker)
    requires i < |s|
    ensures Work(s[i := x]) + WorkOf(s[i]) == Work(s) + WorkOf(x)
  {
    var n := |s| - 1;
    if i < n {
      assert s[i := x][..n] == s[..n][i := x];
      WorkUpdate(s[..n], i, x);
    } else {
      assert s[i := x][..n] == s[..n];
    }
  }

  lemma SendShrinks(route: Router, s: Sys, step: Step)
    requires step.SendRemote? && Enabled(route, s, step)
    ensures Work(Next(route, s, step)) < Work(s)
  {
    var sent := s[step.w := Sent(route(step.w), s[step.w], step.target)];
    WorkUpdate(s, step.w, sent[step.w]);
    WorkUpdate(sent, step.target, Next(route, s, step)[step.target]);
  }

  lemma ServeShrinks(route: Router, s: Sys, step: Step)
    requires step.Serve? && Enabled(route, s, step)
    ensures Work(Next(route, s, step)) < Work(s)
  {
    var w := s[step.w];
    var popped := s[step.w := w.(requests := RemoveAt(w.requests, step.i))];
    var source := w.requests[step.i].source;
    WorkUpdate(s, step.w, popped[step.w]);
    WorkUpdate(popped, source, Next(route, s, step)[source]);
  }

  lemma AdvanceShrinks(route: Router, s: Sys, step: Step)
    requires Advances(step) && Enabled(route, s, step)
    ensures Work(Next(route, s, step)) < Work(s)
  {
    if step.SendRemote? {
      SendShrinks(route, s, step);
    } else if step.Serve? {
      ServeShrinks(route, s, step);
    } else {
      WorkUpdate(s, step.w, Next(route, s, step)[step.w]);
    }
  }

  /** A run that got from `s` to `t` goes on until the worker has its answer. */
  lemma {:induction false} GoOnUntilFinished(route: Router, s: Sys, steps: seq<Step>, t: Sys, w: nat)
    returns (all: seq<Step>)
    requires IsRun(route, s, steps) && t == After(route, s, steps) && forall step | step in steps :: Advances(step)
    requires Inv(route, t) && InRange(t) && w < |t| && !IsDoomed(t, w)
    ensures IsRun(route, s, all) && forall step | step in all :: Advances(step)
    ensures w < |After(route, s, all)| && After(route, s, all)[w].batch.None?
    decreases Work(t)
  {
    if t[w].batch.None? {
      all := steps;
    } else {
      var step := SomebodyGoesOn(route, t, w);
      StepKeepsInv(route, t, step);
      StepKeepsRange(route, t, step);
      DoomIsOld(route, t, step, w);
      AdvanceShrinks(route, t, step);
      RunPush(route, s, steps, step);
      all := GoOnUntilFinished(route, s, steps + [step], Next(route, t, step), w);
    }
  }

  lemma FinishingRun(route: Router, s: Sys, w: nat) returns (steps: seq<Step>)
    requires Inv(route, s) && InRange(s) && w < |s| && !IsDoomed(s, w)
    ensures IsRun(route, s, steps) && forall step | step in steps :: Advances(step)
    ensures w < |After(route, s, steps)| && After(route, s, steps)[w].batch.None?
  {
    assert IsRun(route, s, []) && After(route, s, []) == s;
    steps := GoOnUntilFinished(route, s, [], s, w);
  }

  /** Nobody gives up, and at the end the worker has no SINTER under way. */
  predicate FinishesBy(route: Router, s: Sys, w: nat, more: seq<Step>) {
    && IsRun(route, s, more) && (forall step | step in more :: !step.Timeout?)
    && w < |After(route, s, more)| && After(route, s, more)[w].batch.None?
  }

  /** The worker's SINTER is answered in some continuation in which nobody gives up. */
  ghost predicate CanFinish(route: Router, s: Sys, w: nat) {
    exists more :: FinishesBy(route, s, w, more)
  }

  lemma {:induction false} RunKeepsRange(route: Router, s: Sys, steps: seq<Step>)
    requires IsInit(s) && IsRun(route, s, steps)
    ensures InRange(After(route, s, steps))
  {
    if steps != [] {
      RunKeepsRange(route, s, steps[..|steps| - 1]);
      StepKeepsRange(route, After(route, s, steps[..|steps| - 1]), steps[|steps| - 1]);
    }
  }

  /**
   After every run, a worker's SINTER can be answered without anyone giving up if and only if the
   worker is not in a group of workers of which each waits for, or has yet to ask, another; that is,
   if and only if no ring of such workers can be reached from it.
   */
  lemma SInterFinishesExactly(route: Router, s: Sys, steps: seq<Step>, w: nat)
    requires IsInit(s) && IsRun(route, s, steps) && w < |s|
    ensures CanFinish(route, After(route, s, steps), w) <==> !IsDoomed(After(route, s, steps), w)
    ensures CanFinish(route, After(route, s, steps), w) <==> !ReachesRing(NeedsIn(After(route, s, steps)), w)
  {
    RunKeepsInv(route, s, steps);
    RunKeepsRange(route, s, steps);
    var t := After(route, s, steps);
    DoomedReachesRing(t, w);
    if IsDoomed(t, w) {
      var group :| w in group && Doomed(t, group);
      forall more ensures !FinishesBy(route, t, w, more) {
        if IsRun(route, t, more) && NoTimeout(more, group) {
          DoomedStarve(route, t, more, group);
        }
      }
    } else {
      var more := FinishingRun(route, t, w);
      assert FinishesBy(route, t, w, more);
    }
  }

  /** Two workers that wait on each other can neither be answered without a timeout. */
  lemma CrossedCannotFinish(route: Router, s: Sys, steps: seq<Step>, a: nat, b: nat)
    requires IsInit(s) && IsRun(route, s, steps) && Crossed(After(route, s, steps), a, b)
    ensures !CanFinish(route, After(route, s, steps), a) && !CanFinish(route, After(route, s, steps), b)
  {
    var t := After(route, s, steps);
    var group := set w | w in [a, b];
    RunKeepsInv(route, s, steps);
    CrossedIsRing(t, a, b);
    RingIsClosed(NeedsIn(t), [a, b]);
    assert a in group && b in group && Doomed(t, group);
    SInterFinishesExactly(route, s, steps, a);
    SInterFinishesExactly(route, s, steps, b);
  }

  /**
   The failing case: after every run, any two idle workers get into this when each starts a SINTER
   with a key of the other before either asks.
   */
  lemma CrossingSIntersCannotFinish(
      route: Router, s: Sys, steps: seq<Step>, t: Sys, a: nat, b: nat, x: string, y: string)
    requires IsInit(s) && IsRun(route, s, steps) && t == After(route, s, steps)
    requires a < |t| && b < |t| && a != b && t[a].batch.None? && t[b].batch.None?
    requires route(a)(x) == a && route(a)(y) == b && route(b)(x) == a && route(b)(y) == b
    ensures var all := steps + CrossingSteps(a, b, x, y);
      && IsRun(route, s, all)
      && !CanFinish(route, After(route, s, all), a) && !CanFinish(route, After(route, s, all), b)
  {
    CrossingIsReachable(route, s, steps, t, a, b, x, y);
    CrossedCannotFinish(route, s, steps + CrossingSteps(a, b, x, y), a, b);
  }
}
