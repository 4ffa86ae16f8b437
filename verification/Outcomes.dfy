/**
 What the outcome of a pass means: when a Route becomes Active and what is then in the store, whether its
 count of managed resources is right, when a pass asks not to be run again, and what a deletion takes away.
 */
module Outcomes {
  import opened RouteApi
  import opened ChildNames
  import opened ChildPass
  import opened Convergence
  import opened ExactCount
  import opened Conflicts
  import opened StaleChildren
  import opened RouteStatus
  import opened Reconcile
  import B = BackendHealth
  import C = Canary
  import Cert = Certificates
  import M = Metrics
  import S = StoredObjects

  // ---------------------------------------------------------------- Active

  /** The children a finished pass leaves, when it saw no error: the target, counted exactly. */
  ghost predicate Synchronised(before: Store, after: Store, count: nat, key: RouteKey, spec: Spec,
                               canary: Option<Canary>) {
    && after == Target(before, OwnerOf(key, spec), PassOps(key, spec, canary))
    && InPlace(after, key, spec, canary)
    && count == ClosedForm(spec, canary)
    && count == |Desired(OwnerOf(key, spec), PassOps(key, spec, canary)).Keys|
  }

  lemma UnfailedIsSynchronised(key: RouteKey, spec: Spec, canary: Option<Canary>, children: Store, calls: nat,
                               oracle: Oracle)
    ensures var end := Run(OwnerOf(key, spec), Begin(children, calls), PassOps(key, spec, canary), oracle);
            !end.failed ==> Synchronised(children, end.children, |end.written|, key, spec, canary)
  {
    var owner, ops := OwnerOf(key, spec), PassOps(key, spec, canary);
    var end := Run(owner, Begin(children, calls), ops, oracle);
    if !end.failed {
      PassOpsApart(key, spec, canary);
      UnfailedPass(owner, Begin(children, calls), ops, oracle);
      TargetInPlace(children, key, spec, canary);
      ExactCount.ExactCount(key, spec, canary, children, calls, oracle);
    }
  }

  /** The Route is there with the finalizer, and only its status differs. */
  ghost predicate Kept(after: World, key: RouteKey, route: Route) {
    key in after.routes && after.routes[key] == route.(held := true, status := after.routes[key].status)
  }

  /** When a served Route is looked at again: after the probe interval of its rollback policy, by default 30 s. */
  ghost predicate ProbedAgainAfter(spec: Spec, delay: int) {
    if spec.canary.None? || spec.canary.value.rollback.None? then delay == 0
    else
      match spec.canary.value.rollback.value.intervalSeconds
      case None => delay == 30_000_000_000
      case Some(seconds) => delay == if seconds > 0 then seconds * 1_000_000_000 else 0
  }

  /** What the result of a pass over a live Route says about the world it leaves. */
  ghost predicate Meant(w: World, after: World, key: RouteKey, route: Route, result: Result, env: Env) {
    && (result.outcome == Success ==>
          && Kept(after, key, route) && after.routes[key].status.phase == Active
          && Synchronised(w.children, after.children, after.routes[key].status.managedResources, key, route.spec,
                          EffectiveCanary(w, key, route.spec, env))
          && M.Rows(after.gauges, key, Active, M.HealthyState, after.routes[key].status.managedResources)
          && ProbedAgainAfter(route.spec, result.requeueAfter) && !result.failed)
    && (result.outcome in {ConflictFound, BackendBlocked} ==>
          && Kept(after, key, route) && after.routes[key].status.phase != Active
          && after.routes[key].status.managedResources == 0 && after.children == w.children
          && result.requeueAfter == 15_000_000_000 && !result.failed)
    && (result.outcome !in {Success, ConflictFound, BackendBlocked} ==> result.failed && result.requeueAfter == 0)
  }

  lemma JudgedFields(route: Route, c: Condition, j: Judgement, now: int)
    requires ProperJudgement(j)
    ensures var st := Judged(SetStatus(route.status, c), j, now, route.generation);
            && st.managedResources == (if j.Blocked? then 0 else j.count)
            && (st.phase == Active <==> j.Finished? && !j.failed)
  {
  }

  lemma BlockMeans(w: World, key: RouteKey, route: Route, phase: Phase, reason: Reason, env: Env)
    requires route.held && key in w.routes && w.routes[key] == route && !CertVerdictOf(route, env).CertError?
    requires ProperJudgement(Blocked(phase, reason, env.texts(reason)))
    ensures var (after, result) := Block(w, key, route, phase, reason, env); Meant(w, after, key, route, result, env)
  {
    var c := CertCondition(route, env);
    JudgedFields(route, c, Blocked(phase, reason, env.texts(reason)), env.now);
  }

  lemma DelayMeans(spec: Spec)
    ensures ProbedAgainAfter(spec, ProbeRequeue(spec))
  {
  }

  lemma SettleMeans(w: World, canary: C.CanaryState, key: RouteKey, route: Route, end: PassState, env: Env)
    requires route.held && key in w.routes && w.routes[key] == route && !CertVerdictOf(route, env).CertError?
    requires !end.failed ==>
               Synchronised(w.children, end.children, |end.written|, key, route.spec,
                            EffectiveCanary(w, key, route.spec, env))
    ensures var (after, result) := Settle(w.(canary := canary), key, route, end, env);
            Meant(w, after, key, route, result, env)
  {
    var c := CertCondition(route, env);
    JudgedFields(route, c, Finished(end.failed, |end.written|, env.texts(ReconcileError)), env.now);
    M.GaugeUpdates(w.gauges, key, Active, M.HealthyState, |end.written|);
    DelayMeans(route.spec);
  }

  lemma ServeMeans(w: World, key: RouteKey, route: Route, env: Env)
    requires route.held && key in w.routes && w.routes[key] == route && !CertVerdictOf(route, env).CertError?
    ensures var (after, result) := Serve(w, key, route, env); Meant(w, after, key, route, result, env)
  {
    UnfailedIsSynchronised(key, route.spec, EffectiveCanary(w, key, route.spec, env), w.children, w.calls,
                           env.childCalls);
    SettleMeans(w, CanaryStep(w, key, route.spec, env).0, key, route, ChildrenEnd(w, key, route.spec, env), env);
  }

  lemma LiveMeans(w: World, key: RouteKey, route: Route, env: Env)
    requires route.held && key in w.routes && w.routes[key] == route
    ensures var (after, result) := LivePass(w, key, route, env); Meant(w, after, key, route, result, env)
  {
    if CertVerdictOf(route, env).CertError? || !env.routesListed {
    } else if Conflicted(w.routes, route) {
      BlockMeans(w, key, route, Degraded, RouteConflict, env);
    } else if BackendsUnreadable(route.spec, env) {
    } else if !BackendSummary(route.spec, env).AllReady() {
      var (phase, reason) := B.BlockedPhase(BackendSummary(route.spec, env));
      BlockMeans(w, key, route, phase, reason, env);
    } else {
      ServeMeans(w, key, route, env);
    }
  }

  /** The finalizer is added first. */
  lemma AddMeans(w: World, key: RouteKey, env: Env)
    requires key in w.routes && !w.routes[key].deleting && !w.routes[key].held && env.getOk
    ensures var (after, result) := Pass(w, key, env); Meant(w, after, key, w.routes[key], result, env)
  {
    if env.finalizerUpdate.Done? {
      var held := w.routes[key].(held := true);
      var added := w.(routes := w.routes[key := held]);
      LiveMeans(added, key, held, env);
      assert Pass(w, key, env) == LivePass(added, key, held, env);
    }
  }

  /**
   Whatever fails: a pass that reports success leaves exactly the target in the store, the Route
   Active with the closed-form count, and the gauges saying so; it is run again after the probe interval of the
   rollback policy, if there is one. A pass that reports a block leaves the children as they were, although the
   status then counts none, and is run again after 15 s. Any other pass reports an error.
   */
  lemma OutcomeMeans(w: World, key: RouteKey, env: Env)
    requires key in w.routes && !w.routes[key].deleting
    ensures var (after, result) := Pass(w, key, env); Meant(w, after, key, w.routes[key], result, env)
  {
    if env.getOk {
      if w.routes[key].held { LiveMeans(w, key, w.routes[key], env); } else { AddMeans(w, key, env); }
    }
  }

  /** After a success the store holds, for every feature of the Route, what the fields of its spec ask for. */
  lemma SuccessStores(w: World, key: RouteKey, env: Env)
    requires key in w.routes && !w.routes[key].deleting && Pass(w, key, env).1.outcome == Success
    ensures var spec := w.routes[key].spec;
            S.AllStored(Pass(w, key, env).0.children, key, spec, EffectiveCanary(w, key, spec, env))
  {
    OutcomeMeans(w, key, env);
    S.PlacedIsStored(Pass(w, key, env).0.children, key, w.routes[key].spec,
                     EffectiveCanary(w, key, w.routes[key].spec, env));
  }

  // ---------------------------------------------------------------- the count of managed resources

  /**
   "The status counts the Route's objects" is false. After a block the count is the number of its objects in
   the store exactly if there are none; after success exactly if none was stale before the pass.
   */
  lemma CountTellsExactly(w: World, key: RouteKey, env: Env)
    requires key in w.routes && !w.routes[key].deleting
    ensures var (after, result) := Pass(w, key, env);
            var spec := w.routes[key].spec;
            var owner := OwnerOf(key, spec);
            && (result.outcome in {ConflictFound, BackendBlocked} ==>
                  key in after.routes &&
                  (after.routes[key].status.managedResources == |OwnObjects(after.children, owner)| <==>
                   OwnObjects(w.children, owner) == {}))
            && (result.outcome == Success ==>
                  key in after.routes &&
                  (after.routes[key].status.managedResources == |OwnObjects(after.children, owner)| <==>
                   NothingStale(w.children, key, spec, EffectiveCanary(w, key, spec, env))))
  {
    OutcomeMeans(w, key, env);
    TargetCount(key, w.routes[key].spec, EffectiveCanary(w, key, w.routes[key].spec, env), w.children);
  }

  lemma ServedHasObjects(key: RouteKey, spec: Spec, canary: Option<Canary>, children: Store)
    requires spec.rules != [] && InPlace(children, key, spec, canary)
    ensures OwnObjects(children, OwnerOf(key, spec)) != {}
  {
    var owner := OwnerOf(key, spec);
    TouchedExactly(key, spec, canary, RuleRoute(0));
    assert SlotKey(owner, RuleRoute(0)) in OwnObjects(children, owner);
  }

  /** A Route that was Active and is then blocked counts nothing, while its objects are all there. */
  lemma BlockHidesObjects(w: World, key: RouteKey, first: Env, second: Env)
    requires key in w.routes && !w.routes[key].deleting && w.routes[key].spec.rules != []
    requires Pass(w, key, first).1.outcome == Success
    requires Pass(Pass(w, key, first).0, key, second).1.outcome in {ConflictFound, BackendBlocked}
    ensures var served := Pass(w, key, first).0;
            var after := Pass(served, key, second).0;
            && key in after.routes && after.routes[key].status.managedResources == 0
            && after.children == served.children
            && |OwnObjects(after.children, OwnerOf(key, w.routes[key].spec))| > 0
  {
    OutcomeMeans(w, key, first);
    var served, spec := Pass(w, key, first).0, w.routes[key].spec;
    OutcomeMeans(served, key, second);
    ServedHasObjects(key, spec, EffectiveCanary(w, key, spec, first), served.children);
  }

  // ---------------------------------------------------------------- asking not to be run again

  /** Nothing is left to do for a Route: it is gone, let go, or Active with its children in place. */
  ghost predicate NothingToDo(w: World, after: World, key: RouteKey, env: Env) {
    || key !in after.routes
    || (after.routes[key].deleting && !after.routes[key].held && M.NoRows(after.gauges, key)
        && C.View(after.canary, C.KeyText(key)) == C.FRESH)
    || (after.routes[key].status.phase == Active
        && InPlace(after.children, key, after.routes[key].spec, EffectiveCanary(w, key, after.routes[key].spec, env)))
  }

  /** A pass asks not to be run again only when nothing is left to do. */
  lemma QuietOnlyWhenDone(w: World, key: RouteKey, env: Env)
    ensures var (after, result) := Pass(w, key, env);
            !result.failed && result.requeueAfter == 0 ==> NothingToDo(w, after, key, env)
  {
    if env.getOk && key in w.routes {
      if w.routes[key].deleting {
        M.GaugeUpdates(w.gauges, key, NoPhase, M.UnknownState, 0);
      } else {
        OutcomeMeans(w, key, env);
      }
    }
  }

  // ---------------------------------------------------------------- when a Route becomes Active

  /** The pass reads everything it asks for, and its updates of the Route and its status are acknowledged. */
  ghost predicate Unhindered(env: Env) {
    && env.getOk && env.finalizerUpdate.Done? && env.routesListed && env.statusUpdate.Done?
    && !env.gateway.ReadError?
    && (forall s: Cert.SecretName :: !env.secrets(s).ReadError?)
    && (forall s: string :: !env.services(s).ReadError? && !env.endpoints(s).ReadError?)
  }

  lemma NoCertError(route: Route, env: Env)
    requires Unhindered(env)
    ensures !CertVerdictOf(route, env).CertError?
  {
  }

  lemma {:induction false} DropWhenDone(owner: Owner, st: PassState, slots: seq<Slot>, oracle: Oracle)
    requires forall n: nat :: oracle(n).Done?
    ensures ExecDrop(owner, st, slots, oracle) == ExecDrop(owner, st, slots, CALM)
    decreases |slots|
  {
    if slots != [] {
      DropWhenDone(owner, st.(children := st.children - {SlotKey(owner, slots[0])}, calls := st.calls + 1),
                   slots[1..], oracle);
    }
  }

  lemma {:induction false} RunWhenDone(owner: Owner, st: PassState, ops: seq<Op>, oracle: Oracle)
    requires forall n: nat :: oracle(n).Done?
    ensures Run(owner, st, ops, oracle) == Run(owner, st, ops, CALM)
  {
    if ops != [] {
      RunWhenDone(owner, st, ops[..|ops| - 1], oracle);
      var last := ops[|ops| - 1];
      if last.Drop? { DropWhenDone(owner, Run(owner, st, ops[..|ops| - 1], CALM), last.slots, oracle); }
    }
  }

  /** The backends a spec refers to, canary included, are all ready. */
  ghost predicate BackendsReady(spec: Spec, env: Env) {
    forall s :: B.Referred(spec.rules, spec.canary, s) ==> B.Serving(env.services, env.endpoints, s)
  }

  lemma ServeSucceedsExactly(w: World, key: RouteKey, route: Route, env: Env)
    requires !CertVerdictOf(route, env).CertError? && env.statusUpdate.Done? && forall n: nat :: env.childCalls(n).Done?
    ensures Serve(w, key, route, env).1.outcome == Success <==> Renderable(route.spec)
  {
    var canary := EffectiveCanary(w, key, route.spec, env);
    RunWhenDone(OwnerOf(key, route.spec), Begin(w.children, w.calls), PassOps(key, route.spec, canary), env.childCalls);
    CalmPassSucceedsExactly(key, route.spec, canary, w.children, w.calls);
  }

  lemma ReadableBackends(spec: Spec, env: Env)
    requires Unhindered(env)
    ensures !BackendsUnreadable(spec, env)
    ensures BackendSummary(spec, env).AllReady() <==> BackendsReady(spec, env)
  {
    B.UnreadableExactly(spec.rules, spec.canary, env.services, env.endpoints);
    B.ClassificationExact(spec.rules, spec.canary, env.services, env.endpoints);
  }

  lemma LiveSucceedsExactly(w: World, key: RouteKey, route: Route, env: Env)
    requires Unhindered(env) && forall n: nat :: env.childCalls(n).Done?
    ensures LivePass(w, key, route, env).1.outcome == Success <==>
            !Conflicted(w.routes, route) && BackendsReady(route.spec, env) && Renderable(route.spec)
  {
    NoCertError(route, env);
    ReadableBackends(route.spec, env);
    if !Conflicted(w.routes, route) && BackendsReady(route.spec, env) {
      ServeSucceedsExactly(w, key, route, env);
      assert LivePass(w, key, route, env) == Serve(w, key, route, env);
    } else {
      assert LivePass(w, key, route, env).1.outcome != Success;
    }
  }

  lemma ConflictedIgnoresFinalizers(routes: Routes, key: RouteKey, route: Route)
    requires key in routes && routes[key].key == key && route == routes[key].(held := true)
    ensures Conflicted(routes[key := route], route) <==> Conflicted(routes, routes[key])
  {
    SameSpecSameClaims(route, routes[key]);
    var after := routes[key := route];
    if k :| k in routes && Blocks(routes[k], routes[key]) {
      assert Blocks(after[k], route);
    }
    if k :| k in after && Blocks(after[k], route) {
      assert Blocks(routes[k], routes[key]);
    }
  }

  /**
   When no API call fails, a live Route becomes Active exactly if no earlier live Route claims one of
   its identities, every backend it refers to is ready, and its spec can be rendered.
   */
  lemma ActiveExactly(w: World, key: RouteKey, env: Env)
    requires Keyed(w.routes) && Live(w.routes, key)
    requires Unhindered(env) && forall n: nat :: env.childCalls(n).Done?
    ensures Pass(w, key, env).1.outcome == Success <==>
            && !Conflicted(w.routes, w.routes[key])
            && BackendsReady(w.routes[key].spec, env)
            && Renderable(w.routes[key].spec)
  {
    var route := w.routes[key];
    if route.held {
      LiveSucceedsExactly(w, key, route, env);
    } else {
      var held := route.(held := true);
      ConflictedIgnoresFinalizers(w.routes, key, held);
      LiveSucceedsExactly(w.(routes := w.routes[key := held]), key, held, env);
    }
  }

  lemma LiveBlocksExactly(w: World, key: RouteKey, route: Route, env: Env)
    requires Unhindered(env)
    ensures var outcome := LivePass(w, key, route, env).1.outcome;
            && (outcome == ConflictFound <==> Conflicted(w.routes, route))
            && (outcome == BackendBlocked <==> !Conflicted(w.routes, route) && !BackendsReady(route.spec, env))
  {
    NoCertError(route, env);
    ReadableBackends(route.spec, env);
    if Conflicted(w.routes, route) {
      assert LivePass(w, key, route, env) == Block(w, key, route, Degraded, RouteConflict, env);
    } else if !BackendsReady(route.spec, env) {
      var (phase, reason) := B.BlockedPhase(BackendSummary(route.spec, env));
      assert LivePass(w, key, route, env) == Block(w, key, route, phase, reason, env);
    } else {
      ServeIsNoBlock(w, key, route, env);
      assert LivePass(w, key, route, env) == Serve(w, key, route, env);
    }
  }

  lemma ServeIsNoBlock(w: World, key: RouteKey, route: Route, env: Env)
    requires !CertVerdictOf(route, env).CertError?
    ensures Serve(w, key, route, env).1.outcome !in {ConflictFound, BackendBlocked}
  {
  }

  /** A pass that reads what it needs is blocked by a conflict, or by a backend, in exactly these cases. */
  lemma BlockedExactly(w: World, key: RouteKey, env: Env)
    requires Keyed(w.routes) && Live(w.routes, key) && Unhindered(env)
    ensures var outcome := Pass(w, key, env).1.outcome;
            && (outcome == ConflictFound <==> Conflicted(w.routes, w.routes[key]))
            && (outcome == BackendBlocked <==>
                  !Conflicted(w.routes, w.routes[key]) && !BackendsReady(w.routes[key].spec, env))
  {
    var route := w.routes[key];
    if route.held {
      LiveBlocksExactly(w, key, route, env);
    } else {
      var held := route.(held := true);
      ConflictedIgnoresFinalizers(w.routes, key, held);
      LiveBlocksExactly(w.(routes := w.routes[key := held]), key, held, env);
    }
  }

  // ---------------------------------------------------------------- canary switched off

  /**
   A pass serves without the canary exactly when the Route has a deadline that is still to come, or its probe, which
   got no answer or a status of 500 or more, failed for the threshold-th time in a row.
   */
  lemma CanaryOffExactly(w: World, key: RouteKey, spec: Spec, env: Env)
    requires spec.canary.Some?
    requires Probed(spec) ==>
               spec.canary.value.rollback.value.threshold >= 1 && C.Window(spec.canary.value.rollback.value) > 0
    ensures var k := C.View(w.canary, C.KeyText(key));
            EffectiveCanary(w, key, spec, env).None? <==>
            && Probed(spec)
            && ((k.until.Some? && k.until.value > env.now)
                || ((env.probe.ProbeFailed? || env.probe.status >= 500)
                    && k.count + 1 >= spec.canary.value.rollback.value.threshold))
  {
    if Probed(spec) && !C.InCooldown(w.canary, C.KeyText(key), env.now) {
      C.RecordIsKeyStep(w.canary, C.KeyText(key), env.now, spec.canary.value.rollback.value, env.probe);
    }
  }

  /**
   What a probe does to the canary state: nothing while a rollback lasts; an answer below 500 ends the run of
   failures; any other result extends it, and at the threshold starts a rollback of the policy's seconds, or of
   five minutes, with the count back at zero.
   */
  lemma ProbeMovesState(w: World, key: RouteKey, spec: Spec, env: Env)
    requires spec.canary.Some? && spec.canary.value.rollback.Some?
    requires var policy := spec.canary.value.rollback.value; policy.threshold >= 1 && C.Window(policy) > 0
    ensures var policy := spec.canary.value.rollback.value;
            var before := C.View(w.canary, C.KeyText(key));
            var after := C.View(CanaryStep(w, key, spec, env).0, C.KeyText(key));
            && (before.until.Some? && before.until.value > env.now ==> after == before)
            && (before.until.None? || before.until.value <= env.now ==>
                  match env.probe
                  case Answered(status) =>
                    if status < 500 then after == C.KeyState(0, None)
                    else FailureCounted(before, after, policy, env.now)
                  case ProbeFailed => FailureCounted(before, after, policy, env.now))
  {
    if !C.InCooldown(w.canary, C.KeyText(key), env.now) {
      C.RecordIsKeyStep(w.canary, C.KeyText(key), env.now, spec.canary.value.rollback.value, env.probe);
    }
  }

  ghost predicate FailureCounted(before: C.KeyState, after: C.KeyState, policy: RollbackPolicy, now: int) {
    if before.count + 1 < policy.threshold then after == C.KeyState(before.count + 1, None)
    else
      match policy.cooldownSeconds
      case None => after == C.KeyState(0, Some(now + 300_000_000_000))
      case Some(seconds) => after == C.KeyState(0, Some(now + seconds * 1_000_000_000))
  }

  // ---------------------------------------------------------------- deletion

  /** The labelled objects in the Route's gateway namespace whose list and delete took effect. */
  ghost predicate CleanedUp(w: World, key: RouteKey, gatewayNs: string, env: Env, k: ChildKey) {
    && k in w.children && !Owned(k.kind) && k.ns == gatewayNs && w.children[k].routeLabel == Some(key.name)
    && env.cleanupLists(k.kind) && env.cleanupDeletes(k).Applied()
  }

  /**
   A deletion pass over a Route that holds the finalizer: it takes away exactly the labelled objects it
   could list and delete, never an owned one; the finalizer goes exactly if the update took effect, and the Route
   with it unless somebody else holds it; canary state and gauges are cleared exactly if it was acknowledged.
   */
  lemma DeletionMeans(w: World, key: RouteKey, env: Env)
    requires env.getOk && key in w.routes && w.routes[key].deleting && w.routes[key].held
    ensures var (after, result) := Pass(w, key, env);
            && (forall k :: k in after.children <==>
                  k in w.children && !CleanedUp(w, key, GatewayRef(w.routes[key].spec).ns, env, k))
            && (forall k :: k in after.children ==> after.children[k] == w.children[k])
            && (key in after.routes <==> w.routes[key].foreign || !env.finalizerUpdate.Applied())
            && (key in after.routes ==> after.routes[key] == w.routes[key].(held := !env.finalizerUpdate.Applied()))
            && (result.failed <==> !env.finalizerUpdate.Done?)
            && (if result.failed then after.canary == w.canary && after.gauges == w.gauges
                else M.NoRows(after.gauges, key) && C.View(after.canary, C.KeyText(key)) == C.FRESH)
  {
    M.GaugeUpdates(w.gauges, key, NoPhase, M.UnknownState, 0);
  }

  /** Garbage collection: an object goes with its owner. */
  ghost function Collected(children: Store, routes: Routes): Store {
    map k | k in children && (children[k].owner.Some? ==> children[k].owner.value in routes) :: children[k]
  }

  /**
   A deletion whose calls take effect, on a Route that nobody else holds, leaves nothing under any name the Route
   writes, at the gateway it has, once its own objects are collected: owner references and labels between them
   reach every object.
   */
  lemma DeletionLeavesNothing(w: World, key: RouteKey, env: Env)
    requires env.getOk && key in w.routes && w.routes[key].deleting && w.routes[key].held && !w.routes[key].foreign
    requires S.Attributed(w.children, OwnerOf(key, w.routes[key].spec))
    requires (forall kind: Kind :: env.cleanupLists(kind)) && (forall k: ChildKey :: env.cleanupDeletes(k).Applied())
    requires env.finalizerUpdate.Applied()
    ensures var after := Pass(w, key, env).0;
            forall s: Slot :: SlotKey(OwnerOf(key, w.routes[key].spec), s) !in Collected(after.children, after.routes)
  {
    var owner, after := OwnerOf(key, w.routes[key].spec), Pass(w, key, env).0;
    DeletionMeans(w, key, env);
    forall s: Slot
      ensures SlotKey(owner, s) !in Collected(after.children, after.routes)
    {
      var k := SlotKey(owner, s);
      if k in w.children && !Owned(k.kind) { assert CleanedUp(w, key, owner.gatewayNs, env, k); }
    }
  }
}
