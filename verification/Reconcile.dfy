/**
 `Reconcile` as a whole: one pass over one Route, from reading it to persisting its status, over
 the stored Routes, their children, the canary state and the gauges. The pass is specified by
 `Pass` and carried out, on mutable state, by `RouteReconciler.Reconcile`.
 */
module Reconcile {
  import opened RouteApi
  import opened ChildNames
  import opened ChildPass
  import opened ChildWriter
  import opened Conflicts
  import opened RouteStatus
  import C = Canary
  import Cert = Certificates
  import B = BackendHealth
  import M = Metrics

  const REQUEUE_DELAY := 15 * SECOND

  /** The API server's Routes and children, and the two tables the controller keeps in its process. */
  datatype World = World(routes: Routes, children: Store, calls: nat, canary: C.CanaryState, gauges: M.Gauges)

  /** Everything one pass reads from outside, and how each of its API calls ends. */
  datatype Env = Env(
    now: int,
    getOk: bool,
    finalizerUpdate: ApiOutcome,
    cleanupLists: Kind -> bool,
    cleanupDeletes: ChildKey -> ApiOutcome,
    gateway: Lookup<seq<Cert.TlsListener>>,
    secrets: Cert.SecretReads,
    routesListed: bool,
    services: B.ServiceReads,
    endpoints: B.EndpointReads,
    probe: C.ProbeResult,
    childCalls: Oracle,
    statusUpdate: ApiOutcome,
    texts: Reason -> string)

  datatype Outcome =
    | RouteNotFound | GetError | Deleted | FinalizerUpdateError | FinalizerAddError | CertCheckError
    | PlainError | StatusUpdateError | ConflictFound | BackendBlocked | ReconcileFailed | Success

  /** What the pass returns to the work queue, and the label it counts under. */
  datatype Result = Result(outcome: Outcome, requeueAfter: int, failed: bool)

  // ---------------------------------------------------------------- the pass, specified

  /** The server drops a Route that is being deleted once nothing holds it. */
  function StoreRoute(routes: Routes, key: RouteKey, route: Route): Routes {
    if route.deleting && !route.held && !route.foreign then routes - {key} else routes[key := route]
  }

  function StoreStatus(routes: Routes, key: RouteKey, st: Status): Routes {
    if key in routes then routes[key := routes[key].(status := st)] else routes
  }

  function Forget(w: World, key: RouteKey): World {
    w.(canary := C.ClearState(w.canary, C.KeyText(key)), gauges := M.ClearGauges(w.gauges, key))
  }

  function Finalize(w: World, key: RouteKey, route: Route, env: Env): (World, Result) {
    if !route.held then (Forget(w, key), Result(Deleted, 0, false))
    else
      var children := Teardown(w.children, key.name, GatewayRef(route.spec).ns, env.cleanupLists, env.cleanupDeletes);
      var released := StoreRoute(w.routes, key, route.(held := false));
      var routes := if env.finalizerUpdate.Applied() then released else w.routes;
      var torn := w.(children := children, routes := routes);
      if env.finalizerUpdate.Done? then (Forget(torn, key), Result(Deleted, 0, false))
      else (torn, Result(FinalizerUpdateError, 0, true))
  }

  /** The status update that ends a pass; the gauges follow it only if it was acknowledged. */
  function Persist(w: World, key: RouteKey, st: Status, health: M.HealthState, result: Result, env: Env)
    : (World, Result)
  {
    var stored := if env.statusUpdate.Applied() then w.(routes := StoreStatus(w.routes, key, st)) else w;
    if env.statusUpdate.Done?
    then (stored.(gauges := M.SetGauges(stored.gauges, key, st.phase, health, st.managedResources)), result)
    else (stored, Result(StatusUpdateError, 0, true))
  }

  function CertVerdictOf(route: Route, env: Env): Cert.CertVerdict {
    Cert.CertCheck(env.gateway, GatewayRef(route.spec).ns, env.secrets, env.now)
  }

  function CertCondition(route: Route, env: Env): Condition
    requires !CertVerdictOf(route, env).CertError?
  {
    var verdict := CertVerdictOf(route, env);
    Condition(CertificateHealth, verdict.status, verdict.reason, env.texts(verdict.reason), env.now, route.generation)
  }

  function WithCertificate(route: Route, env: Env): Status
    requires !CertVerdictOf(route, env).CertError?
  {
    SetStatus(route.status, CertCondition(route, env))
  }

  ghost predicate BackendsUnreadable(spec: Spec, env: Env) {
    exists s :: s in B.References(spec.rules, spec.canary) && B.Unreadable(env.services, env.endpoints, s)
  }

  function BackendSummary(spec: Spec, env: Env): B.Summary {
    B.Classify(B.References(spec.rules, spec.canary), env.services, env.endpoints)
  }

  ghost function LivePass(w: World, key: RouteKey, route: Route, env: Env): (World, Result) {
    if CertVerdictOf(route, env).CertError? then (w, Result(CertCheckError, 0, true))
    else if !env.routesListed then (w, Result(PlainError, 0, true))
    else if Conflicted(w.routes, route) then Block(w, key, route, Degraded, RouteConflict, env)
    else if BackendsUnreadable(route.spec, env) then (w, Result(PlainError, 0, true))
    else if !BackendSummary(route.spec, env).AllReady() then
      var (phase, reason) := B.BlockedPhase(BackendSummary(route.spec, env));
      Block(w, key, route, phase, reason, env)
    else Serve(w, key, route, env)
  }

  function HealthOf(reason: Reason): M.HealthState {
    match reason
    case RouteConflict => M.ConflictState
    case BackendServiceMissing => M.MissingServiceState
    case BackendNoEndpoints => M.ZeroEndpointsState
    case _ => M.HealthyState
  }

  function BlockResult(reason: Reason): Result {
    Result(if reason.RouteConflict? then ConflictFound else BackendBlocked, REQUEUE_DELAY, false)
  }

  function Block(w: World, key: RouteKey, route: Route, phase: Phase, reason: Reason, env: Env): (World, Result)
    requires !CertVerdictOf(route, env).CertError?
  {
    var st := Judged(WithCertificate(route, env), Blocked(phase, reason, env.texts(reason)),
                     env.now, route.generation);
    Persist(w, key, st, HealthOf(reason), BlockResult(reason), env)
  }

  predicate Probed(spec: Spec) {
    spec.canary.Some? && spec.canary.value.rollback.Some?
  }

  /** The canary state after the evaluation, and whether the canary is rolled back. */
  function CanaryStep(w: World, key: RouteKey, spec: Spec, env: Env): (C.CanaryState, bool) {
    if Probed(spec)
    then C.Evaluate(w.canary, C.KeyText(key), env.now, spec.canary.value.rollback.value, env.probe)
    else (w.canary, false)
  }

  function EffectiveCanary(w: World, key: RouteKey, spec: Spec, env: Env): Option<Canary> {
    if CanaryStep(w, key, spec, env).1 then None else spec.canary
  }

  function ChildrenEnd(w: World, key: RouteKey, spec: Spec, env: Env): PassState {
    Run(OwnerOf(key, spec), Begin(w.children, w.calls), PassOps(key, spec, EffectiveCanary(w, key, spec, env)),
        env.childCalls)
  }

  function ProbeRequeue(spec: Spec): int {
    if Probed(spec) && C.ProbeInterval(spec.canary.value.rollback.value) > 0
    then C.ProbeInterval(spec.canary.value.rollback.value) else 0
  }

  function Serve(w: World, key: RouteKey, route: Route, env: Env): (World, Result)
    requires !CertVerdictOf(route, env).CertError?
  {
    Settle(w.(canary := CanaryStep(w, key, route.spec, env).0), key, route, ChildrenEnd(w, key, route.spec, env), env)
  }

  function SettleResult(end: PassState, spec: Spec): Result {
    if end.failed then Result(ReconcileFailed, 0, true) else Result(Success, ProbeRequeue(spec), false)
  }

  function Settle(w: World, key: RouteKey, route: Route, end: PassState, env: Env): (World, Result)
    requires !CertVerdictOf(route, env).CertError?
  {
    var st := Judged(WithCertificate(route, env),
                     Finished(end.failed, |end.written|, env.texts(ReconcileError)), env.now, route.generation);
    Persist(w.(children := end.children, calls := end.calls), key, st, M.HealthyState, SettleResult(end, route.spec),
            env)
  }

  /** One pass over the Route `key`. */
  ghost function Pass(w: World, key: RouteKey, env: Env): (World, Result) {
    if !env.getOk then (w, Result(GetError, 0, true))
    else if key !in w.routes then (w, Result(RouteNotFound, 0, false))
    else
      var route := w.routes[key];
      if route.deleting then Finalize(w, key, route, env)
      else if route.held then LivePass(w, key, route, env)
      else
        var held := route.(held := true);
        var updated := if env.finalizerUpdate.Applied() then w.(routes := w.routes[key := held]) else w;
        if env.finalizerUpdate.Done? then LivePass(updated, key, held, env)
        else (updated, Result(FinalizerAddError, 0, true))
  }

  // ---------------------------------------------------------------- the pass, carried out

  /** The Routes of the API server. */
  class RouteStore {
    var routes: Routes

    constructor ()
      ensures routes == map[]
    {
      routes := map[];
    }

    method Get(key: RouteKey, ok: bool) returns (found: Lookup<Route>)
      ensures found == if !ok then ReadError else if key in routes then Found(routes[key]) else NotFound
    {
      if !ok {
        return ReadError;
      }
      found := if key in routes then Found(routes[key]) else NotFound;
    }

    method List() returns (all: seq<Route>)
      ensures forall r :: r in all <==> exists k :: k in routes && routes[k] == r
    {
      all := [];
      var todo := routes.Keys;
      while todo != {}
        invariant todo <= routes.Keys
        invariant forall r :: r in all <==> exists k :: k in routes.Keys - todo && routes[k] == r
      {
        var k :| k in todo;
        ghost var before, was := all, todo;
        all := all + [routes[k]];
        todo := todo - {k};
        forall r
          ensures r in all <==> exists j :: j in routes.Keys - todo && routes[j] == r
        {
          assert r in all <==> r in before || r == routes[k];
          if r in before {
            var j :| j in routes.Keys - was && routes[j] == r;
            assert j in routes.Keys - todo;
          }
          if r == routes[k] { assert k in routes.Keys - todo; }
        }
      }
    }

    method Update(key: RouteKey, route: Route, outcome: ApiOutcome)
      modifies this
      ensures routes == if outcome.Applied() then StoreRoute(old(routes), key, route) else old(routes)
    {
      if outcome.Applied() {
        if route.deleting && !route.held && !route.foreign {
          routes := routes - {key};
        } else {
          routes := routes[key := route];
        }
      }
    }

    method UpdateStatus(key: RouteKey, st: Status, outcome: ApiOutcome)
      modifies this
      ensures routes == if outcome.Applied() then StoreStatus(old(routes), key, st) else old(routes)
    {
      if outcome.Applied() && key in routes {
        routes := routes[key := routes[key].(status := st)];
      }
    }
  }

  class RouteReconciler {
    const store: RouteStore
    const server: ApiServer
    const tracker: C.CanaryTracker
    const metrics: M.MetricTables

    constructor (store: RouteStore, server: ApiServer)
      ensures this.store == store && this.server == server && fresh(tracker) && fresh(metrics)
      ensures View() == World(store.routes, server.children, server.calls, C.NO_CANARY_STATE, M.NO_GAUGES)
    {
      this.store, this.server := store, server;
      tracker := new C.CanaryTracker();
      metrics := new M.MetricTables();
    }

    ghost function View(): World
      reads store, server, tracker, metrics
    {
      World(store.routes, server.children, server.calls, tracker.State(), metrics.State())
    }

    method Reconcile(key: RouteKey, env: Env) returns (result: Result)
      modifies store, server, tracker, metrics
      ensures (View(), result) == Pass(old(View()), key, env)
    {
      var found := store.Get(key, env.getOk);
      if found.NotFound? {
        return Result(RouteNotFound, 0, false);
      }
      if found.ReadError? {
        return Result(GetError, 0, true);
      }
      var route := found.value;
      if route.deleting {
        result := FinalizeRoute(key, route, env);
        return;
      }
      if !route.held {
        route := route.(held := true);
        store.Update(key, route, env.finalizerUpdate);
        if !env.finalizerUpdate.Done? {
          return Result(FinalizerAddError, 0, true);
        }
      }
      result := ReconcileLive(key, route, env);
    }

    method FinalizeRoute(key: RouteKey, route: Route, env: Env) returns (result: Result)
      modifies store, server, tracker, metrics
      ensures (View(), result) == Finalize(old(View()), key, route, env)
    {
      if route.held {
        server.CleanupOwnedResources(key.name, GatewayRef(route.spec).ns, env.cleanupLists, env.cleanupDeletes);
        store.Update(key, route.(held := false), env.finalizerUpdate);
        if !env.finalizerUpdate.Done? {
          return Result(FinalizerUpdateError, 0, true);
        }
      }
      tracker.ClearCanaryRuntimeState(C.KeyText(key));
      metrics.ClearRouteMetrics(key);
      result := Result(Deleted, 0, false);
    }

    /** The status update and the gauges after it. */
    method PersistStatus(key: RouteKey, st: Status, health: M.HealthState, result: Result, env: Env) returns (r: Result)
      modifies store, metrics
      ensures (View(), r) == Persist(old(View()), key, st, health, result, env)
    {
      store.UpdateStatus(key, st, env.statusUpdate);
      if !env.statusUpdate.Done? {
        return Result(StatusUpdateError, 0, true);
      }
      metrics.SetRoutePhaseMetric(key, st.phase);
      metrics.SetRouteBackendHealthState(key, health);
      metrics.SetManagedResourcesMetric(key, st.managedResources);
      r := result;
    }

    /** Sets Synced and Ready on the working copy; the other fields of the status are already set. */
    method SetOutcome(copy: RouteCopy, status: ConditionStatus, synced: Reason, syncedText: string,
                      ready: Reason, readyText: string, now: int)
      modifies copy
      ensures copy.route == old(copy.route).(status :=
                SetStatus(SetStatus(old(copy.route).status,
                                    Condition(Synced, status, synced, syncedText, now, old(copy.route).generation)),
                          Condition(Ready, status, ready, readyText, now, old(copy.route).generation)))
    {
      copy.SetCondition(Synced, status, synced, syncedText, now);
      copy.SetCondition(Ready, status, ready, readyText, now);
    }

    method BlockRoute(key: RouteKey, copy: RouteCopy, ghost route: Route, phase: Phase, reason: Reason, env: Env)
      returns (result: Result)
      requires !CertVerdictOf(route, env).CertError?
      requires copy.route == route.(status := WithCertificate(route, env))
      requires reason in {RouteConflict, BackendServiceMissing, BackendNoEndpoints}
      requires phase.Pending? <==> reason.BackendServiceMissing?
      modifies store, metrics, copy
      ensures (View(), result) == Block(old(View()), key, route, phase, reason, env)
    {
      copy.route := copy.route.(status := copy.route.status.(phase := phase, managedResources := 0));
      SetOutcome(copy, IsFalse, reason, env.texts(reason), reason, env.texts(reason), env.now);
      var health := if reason.RouteConflict? then M.ConflictState
                    else if phase.Pending? then M.MissingServiceState else M.ZeroEndpointsState;
      var counted := if reason.RouteConflict? then ConflictFound else BackendBlocked;
      assert health == HealthOf(reason);
      result := PersistStatus(key, copy.route.status, health, Result(counted, REQUEUE_DELAY, false), env);
    }

    method ReconcileLive(key: RouteKey, route: Route, env: Env) returns (result: Result)
      modifies store, server, tracker, metrics
      ensures (View(), result) == LivePass(old(View()), key, route, env)
    {
      var gw := GatewayRef(route.spec);
      var verdict := Cert.EvaluateGatewayCertificate(env.gateway, gw.ns, env.secrets, env.now);
      if verdict.CertError? {
        return Result(CertCheckError, 0, true);
      }
      var copy := new RouteCopy(route);
      copy.SetCondition(CertificateHealth, verdict.status, verdict.reason, env.texts(verdict.reason), env.now);
      if !env.routesListed {
        return Result(PlainError, 0, true);
      }
      var blocked := HasConflicts(copy.route, route);
      if blocked {
        result := BlockRoute(key, copy, route, Degraded, RouteConflict, env);
        return;
      }
      result := ReconcileUnconflicted(key, copy, route, env);
    }

    method HasConflicts(copied: Route, ghost route: Route) returns (blocked: bool)
      requires copied == route.(status := copied.status)
      ensures blocked == Conflicted(store.routes, route)
    {
      var all := store.List();
      var conflicts := EvaluateRouteConflicts(all, copied);
      blocked := |conflicts| > 0;
      SameSpecSameClaims(copied, route);
      assert forall other :: Blocks(other, copied) <==> Blocks(other, route);
      if blocked {
        ghost var i :| 0 <= i < |all| && Blocks(all[i], copied);
        assert all[i] in all;
      }
      if Conflicted(store.routes, route) {
        ghost var k :| k in store.routes && Blocks(store.routes[k], route);
        assert store.routes[k] in all;
      }
    }

    method ReconcileUnconflicted(key: RouteKey, copy: RouteCopy, route: Route, env: Env) returns (result: Result)
      requires env.routesListed && !Conflicted(store.routes, route) && !CertVerdictOf(route, env).CertError?
      requires copy.route == route.(status := WithCertificate(route, env))
      modifies store, server, tracker, metrics, copy
      ensures (View(), result) == LivePass(old(View()), key, route, env)
    {
      var summary, failed := B.EvaluateBackendHealth(route.spec.rules, route.spec.canary, env.services, env.endpoints);
      if failed {
        return Result(PlainError, 0, true);
      }
      if !summary.AllReady() {
        var (phase, reason) := B.BlockedPhase(summary);
        result := BlockRoute(key, copy, route, phase, reason, env);
        return;
      }
      result := ServeRoute(key, copy, route, env);
    }

    /** Evaluates the rollback policy, if there is one, and switches the canary off while it is active. */
    method ChooseCanary(key: RouteKey, spec: Spec, env: Env)
      returns (effectiveCanary: Option<Canary>, probeRequeue: int)
      modifies tracker
      ensures tracker.State() == CanaryStep(old(View()), key, spec, env).0
      ensures effectiveCanary == EffectiveCanary(old(View()), key, spec, env)
      ensures (if probeRequeue > 0 then probeRequeue else 0) == ProbeRequeue(spec)
    {
      effectiveCanary, probeRequeue := spec.canary, 0;
      if spec.canary.Some? && spec.canary.value.rollback.Some? {
        var rollbackActive;
        rollbackActive, probeRequeue := tracker.EvaluateCanaryRollback(
          C.KeyText(key), spec.canary.value.rollback.value, env.now, env.probe);
        if rollbackActive {
          effectiveCanary := None;
        }
      }
    }

    method ServeRoute(key: RouteKey, copy: RouteCopy, route: Route, env: Env) returns (result: Result)
      requires !CertVerdictOf(route, env).CertError?
      requires copy.route == route.(status := WithCertificate(route, env))
      modifies store, server, tracker, metrics, copy
      ensures (View(), result) == Serve(old(View()), key, route, env)
    {
      copy.route := copy.route.(status := copy.route.status.(phase := Provisioning));
      var effectiveCanary, canaryProbeRequeue := ChooseCanary(key, route.spec, env);
      var managedCount, failed := server.ReconcileChildren(key, route.spec, effectiveCanary, env.childCalls);
      ghost var end := ChildrenEnd(old(View()), key, route.spec, env);
      assert failed == end.failed && managedCount == |end.written|;
      result := SettleRoute(key, copy, route, end, managedCount, failed, canaryProbeRequeue, env);
    }

    method SettleRoute(key: RouteKey, copy: RouteCopy, ghost route: Route, ghost end: PassState, managedCount: nat,
                       failed: bool, canaryProbeRequeue: int, env: Env)
      returns (result: Result)
      requires !CertVerdictOf(route, env).CertError?
      requires copy.route == route.(status := WithCertificate(route, env).(phase := Provisioning))
      requires server.children == end.children && server.calls == end.calls
      requires failed == end.failed && managedCount == |end.written|
      requires (if canaryProbeRequeue > 0 then canaryProbeRequeue else 0) == ProbeRequeue(route.spec)
      modifies store, metrics, copy
      ensures (View(), result) == Settle(old(View()), key, route, end, env)
    {
      copy.route := copy.route.(status := copy.route.status.(managedResources := managedCount));
      if failed {
        copy.route := copy.route.(status := copy.route.status.(phase := Degraded));
        SetOutcome(copy, IsFalse, ReconcileError, env.texts(ReconcileError),
                   NotReady, "Some resources failed to reconcile", env.now);
      } else {
        copy.route := copy.route.(status := copy.route.status.(phase := Active));
        SetOutcome(copy, IsTrue, ReconcileSuccess, "All resources synced", Available, "All resources available",
                   env.now);
      }
      var good := Result(Success, if canaryProbeRequeue > 0 then canaryProbeRequeue else 0, false);
      result := PersistStatus(key, copy.route.status, M.HealthyState,
                              if failed then Result(ReconcileFailed, 0, true) else good, env);
    }
  }
}
