/**
 What a pass finds, and where it says so: phase, count and conditions in the status, the gauges, and the
 label and delay it returns, for every environment and whatever the status was before.
 */
module Verdicts {
  import opened RouteApi
  import opened ChildPass
  import opened Conflicts
  import opened RouteStatus
  import opened Reconcile
  import B = BackendHealth
  import C = Canary
  import M = Metrics
  import O = Outcomes

  datatype Verdict = Verdict(
    phase: Phase, status: ConditionStatus, ready: Reason, readyText: string, synced: Reason, syncedText: string,
    count: nat, health: M.HealthState, outcome: Outcome)

  /** Some Service that the Route refers to, canary included, is not there. */
  ghost predicate SomeMissing(spec: Spec, env: Env) {
    exists s :: B.Referred(spec.rules, spec.canary, s) && env.services(s).NotFound?
  }

  /** Some Service that the Route refers to has no ready endpoint. */
  ghost predicate SomeIdle(spec: Spec, env: Env) {
    exists s :: B.Referred(spec.rules, spec.canary, s) && !B.Serving(env.services, env.endpoints, s)
  }

  ghost predicate AllReadable(spec: Spec, env: Env) {
    forall s :: B.Referred(spec.rules, spec.canary, s) ==> B.Readable(env.services, env.endpoints, s)
  }

  ghost function BlockedBy(phase: Phase, reason: Reason, text: string, health: M.HealthState, outcome: Outcome)
    : Verdict
  {
    Verdict(phase, IsFalse, reason, text, reason, text, 0, health, outcome)
  }

  /** A conflict comes first, then a missing Service, then one without endpoints, then what became of the children. */
  ghost function Finding(routes: Routes, route: Route, end: PassState, env: Env): Verdict {
    if Conflicted(routes, route)
    then BlockedBy(Degraded, RouteConflict, env.texts(RouteConflict), M.ConflictState, ConflictFound)
    else if SomeMissing(route.spec, env)
    then BlockedBy(Pending, BackendServiceMissing, env.texts(BackendServiceMissing), M.MissingServiceState,
                   BackendBlocked)
    else if SomeIdle(route.spec, env)
    then BlockedBy(Degraded, BackendNoEndpoints, env.texts(BackendNoEndpoints), M.ZeroEndpointsState, BackendBlocked)
    else if end.failed
    then Verdict(Degraded, IsFalse, NotReady, "Some resources failed to reconcile",
                 ReconcileError, env.texts(ReconcileError), |end.written|, M.HealthyState, ReconcileFailed)
    else Verdict(Active, IsTrue, Available, "All resources available", ReconcileSuccess, "All resources synced",
                 |end.written|, M.HealthyState, Success)
  }

  /** The status says so: each condition is set at the time of the pass, for the generation it saw. */
  ghost predicate Says(before: Status, after: Status, v: Verdict, route: Route, env: Env)
    requires !CertVerdictOf(route, env).CertError?
  {
    var cert := CertVerdictOf(route, env);
    && after.phase == v.phase && after.managedResources == v.count
    && Becomes(Find(before.conditions, Synced), Find(after.conditions, Synced),
               Condition(Synced, v.status, v.synced, v.syncedText, env.now, route.generation))
    && Becomes(Find(before.conditions, Ready), Find(after.conditions, Ready),
               Condition(Ready, v.status, v.ready, v.readyText, env.now, route.generation))
    && Becomes(Find(before.conditions, CertificateHealth), Find(after.conditions, CertificateHealth),
               Condition(CertificateHealth, cert.status, cert.reason, env.texts(cert.reason), env.now,
                         route.generation))
  }

  /** Where the finding goes: to the status as far as the update takes effect, to the gauges once it is acknowledged. */
  ghost predicate Told(w: World, after: World, key: RouteKey, route: Route, result: Result, v: Verdict, env: Env)
    requires !CertVerdictOf(route, env).CertError?
  {
    && key in after.routes
    && (if env.statusUpdate.Applied() then Says(route.status, after.routes[key].status, v, route, env)
        else after.routes[key].status == route.status)
    && (if env.statusUpdate.Done?
        then M.Rows(after.gauges, key, v.phase, v.health, v.count) && result.outcome == v.outcome
        else after.gauges == w.gauges && result == Result(StatusUpdateError, 0, true))
  }

  lemma JudgedSays(route: Route, v: Verdict, j: Judgement, env: Env)
    requires UniqueTypes(route.status.conditions) && !CertVerdictOf(route, env).CertError?
    requires SyncedOf(j, env.now, route.generation) ==
             Condition(Synced, v.status, v.synced, v.syncedText, env.now, route.generation)
    requires ReadyOf(j, env.now, route.generation) ==
             Condition(Ready, v.status, v.ready, v.readyText, env.now, route.generation)
    requires v.phase == PhaseOf(j) && v.count == CountOf(j)
    ensures Says(route.status, Judged(WithCertificate(route, env), j, env.now, route.generation), v, route, env)
  {
    var c, synced := CertCondition(route, env), SyncedOf(j, env.now, route.generation);
    var one := WithCondition(route.status.conditions, c);
    var two := WithCondition(one, synced);
    ConditionBecomes(route.status.conditions, c);
    ConditionBecomes(one, synced);
    ConditionBecomes(two, ReadyOf(j, env.now, route.generation));
  }

  lemma BlockTells(w: World, key: RouteKey, route: Route, phase: Phase, reason: Reason, v: Verdict, env: Env)
    requires key in w.routes && w.routes[key] == route && UniqueTypes(route.status.conditions)
    requires !CertVerdictOf(route, env).CertError?
    requires v == BlockedBy(phase, reason, env.texts(reason), v.health, v.outcome)
    requires v.health == HealthOf(reason) && v.outcome == BlockResult(reason).outcome
    ensures var (after, result) := Block(w, key, route, phase, reason, env); Told(w, after, key, route, result, v, env)
  {
    var j := Blocked(phase, reason, env.texts(reason));
    JudgedSays(route, v, j, env);
    M.GaugeUpdates(w.gauges, key, phase, v.health, 0);
  }

  lemma SettleTells(w: World, canary: C.CanaryState, key: RouteKey, route: Route, end: PassState, v: Verdict, env: Env)
    requires key in w.routes && w.routes[key] == route && UniqueTypes(route.status.conditions)
    requires !CertVerdictOf(route, env).CertError?
    requires v == if end.failed
                  then Verdict(Degraded, IsFalse, NotReady, "Some resources failed to reconcile", ReconcileError,
                               env.texts(ReconcileError), |end.written|, M.HealthyState, ReconcileFailed)
                  else Verdict(Active, IsTrue, Available, "All resources available",
                               ReconcileSuccess, "All resources synced", |end.written|, M.HealthyState, Success)
    ensures var (after, result) := Settle(w.(canary := canary), key, route, end, env);
            Told(w, after, key, route, result, v, env)
  {
    var j := Finished(end.failed, |end.written|, env.texts(ReconcileError));
    JudgedSays(route, v, j, env);
    M.GaugeUpdates(w.gauges, key, v.phase, M.HealthyState, |end.written|);
  }

  lemma PhaseMeans(summary: B.Summary)
    requires !summary.AllReady()
    ensures B.BlockedPhase(summary) ==
            if summary.missingServices != [] then (Pending, BackendServiceMissing) else (Degraded, BackendNoEndpoints)
  {
  }

  /** How the summary of the backends blocks. */
  lemma SummaryFinds(spec: Spec, env: Env)
    ensures BackendsUnreadable(spec, env) <==> !AllReadable(spec, env)
    ensures AllReadable(spec, env) ==>
              var summary := BackendSummary(spec, env);
              && (summary.AllReady() <==> !SomeMissing(spec, env) && !SomeIdle(spec, env))
              && (!summary.AllReady() ==>
                    B.BlockedPhase(summary) ==
                    if SomeMissing(spec, env) then (Pending, BackendServiceMissing) else (Degraded, BackendNoEndpoints))
  {
    B.UnreadableExactly(spec.rules, spec.canary, env.services, env.endpoints);
    if AllReadable(spec, env) {
      B.ClassificationExact(spec.rules, spec.canary, env.services, env.endpoints);
      var summary := BackendSummary(spec, env);
      B.NothingListed(summary.missingServices);
      if !summary.AllReady() { PhaseMeans(summary); }
    }
  }

  lemma LiveTells(w: World, key: RouteKey, route: Route, env: Env)
    requires key in w.routes && w.routes[key] == route && UniqueTypes(route.status.conditions)
    requires !CertVerdictOf(route, env).CertError? && env.routesListed
    requires Conflicted(w.routes, route) || AllReadable(route.spec, env)
    ensures var (after, result) := LivePass(w, key, route, env);
            Told(w, after, key, route, result, Finding(w.routes, route, ChildrenEnd(w, key, route.spec, env), env), env)
  {
    var end := ChildrenEnd(w, key, route.spec, env);
    var v := Finding(w.routes, route, end, env);
    SummaryFinds(route.spec, env);
    if Conflicted(w.routes, route) {
      BlockTells(w, key, route, Degraded, RouteConflict, v, env);
    } else if !BackendSummary(route.spec, env).AllReady() {
      var (phase, reason) := B.BlockedPhase(BackendSummary(route.spec, env));
      BlockTells(w, key, route, phase, reason, v, env);
    } else {
      SettleTells(w, CanaryStep(w, key, route.spec, env).0, key, route, end, v, env);
    }
  }

  /** The pass reads the certificate, the other Routes and its backends, as far as it asks for them. */
  ghost predicate Reads(w: World, key: RouteKey, env: Env)
    requires key in w.routes
  {
    var route := w.routes[key];
    && env.getOk && (route.held || env.finalizerUpdate.Done?)
    && !CertVerdictOf(route, env).CertError? && env.routesListed
    && (Conflicted(w.routes, route) || AllReadable(route.spec, env))
  }

  lemma AddTells(w: World, key: RouteKey, env: Env)
    requires Keyed(w.routes) && Live(w.routes, key) && UniqueTypes(w.routes[key].status.conditions)
    requires Reads(w, key, env) && !w.routes[key].held
    ensures var (after, result) := Pass(w, key, env);
            var route := w.routes[key];
            Told(w, after, key, route, result, Finding(w.routes, route, ChildrenEnd(w, key, route.spec, env), env), env)
  {
    var route := w.routes[key];
    var held := route.(held := true);
    var added := w.(routes := w.routes[key := held]);
    var end := ChildrenEnd(w, key, route.spec, env);
    O.ConflictedIgnoresFinalizers(w.routes, key, held);
    LiveTells(added, key, held, env);
    assert ChildrenEnd(added, key, route.spec, env) == end;
    assert Finding(added.routes, held, end, env) == Finding(w.routes, route, end, env);
    HeldTells(w, added, LivePass(added, key, held, env).0, key, route, LivePass(added, key, held, env).1,
              Finding(w.routes, route, end, env), env);
  }

  lemma HeldTells(w: World, added: World, after: World, key: RouteKey, route: Route, result: Result, v: Verdict,
                  env: Env)
    requires added.gauges == w.gauges && !CertVerdictOf(route, env).CertError?
    requires Told(added, after, key, route.(held := true), result, v, env)
    ensures Told(w, after, key, route, result, v, env)
  {
  }

  /**
   A pass that reads what it needs comes to the finding, in this order of importance, and tells it: in the status
   as far as the status update takes effect, and in the gauges and its label once that is acknowledged.
   */
  lemma FindingIsTold(w: World, key: RouteKey, env: Env)
    requires Keyed(w.routes) && Live(w.routes, key) && UniqueTypes(w.routes[key].status.conditions)
    requires Reads(w, key, env)
    ensures var (after, result) := Pass(w, key, env);
            var route := w.routes[key];
            Told(w, after, key, route, result, Finding(w.routes, route, ChildrenEnd(w, key, route.spec, env), env), env)
  {
    if w.routes[key].held { LiveTells(w, key, w.routes[key], env); } else { AddTells(w, key, env); }
  }

  /** The world with nothing done but the finalizer added. */
  ghost function WithFinalizer(w: World, key: RouteKey): World
    requires key in w.routes
  {
    w.(routes := w.routes[key := w.routes[key].(held := true)])
  }

  /** A pass that gives up early has done nothing, or added the finalizer, and says where it gave up. */
  lemma EarlyReturns(w: World, key: RouteKey, env: Env)
    ensures var (after, result) := Pass(w, key, env);
            && (!env.getOk ==> after == w && result == Result(GetError, 0, true))
            && (env.getOk && key !in w.routes ==> after == w && result == Result(RouteNotFound, 0, false))
    ensures env.getOk && Live(w.routes, key) && !w.routes[key].held && !env.finalizerUpdate.Done? ==>
              Pass(w, key, env) == (if env.finalizerUpdate.LostReply? then WithFinalizer(w, key) else w,
                                    Result(FinalizerAddError, 0, true))
    ensures env.getOk && Live(w.routes, key) && (w.routes[key].held || env.finalizerUpdate.Done?) ==>
              && (CertVerdictOf(w.routes[key], env).CertError? ==>
                    Pass(w, key, env) == (WithFinalizer(w, key), Result(CertCheckError, 0, true)))
              && (!CertVerdictOf(w.routes[key], env).CertError? && !env.routesListed ==>
                    Pass(w, key, env) == (WithFinalizer(w, key), Result(PlainError, 0, true)))
  {
    if key in w.routes && w.routes[key].held { assert WithFinalizer(w, key) == w; }
  }

  /** So does one whose backends cannot be read. */
  lemma UnreadableReturns(w: World, key: RouteKey, env: Env)
    requires Keyed(w.routes) && Live(w.routes, key) && env.getOk && (w.routes[key].held || env.finalizerUpdate.Done?)
    requires !CertVerdictOf(w.routes[key], env).CertError? && env.routesListed
    requires !Conflicted(w.routes, w.routes[key]) && !AllReadable(w.routes[key].spec, env)
    ensures Pass(w, key, env) == (WithFinalizer(w, key), Result(PlainError, 0, true))
  {
    var held := w.routes[key].(held := true);
    SummaryFinds(held.spec, env);
    if w.routes[key].held {
      assert WithFinalizer(w, key) == w;
    } else {
      O.ConflictedIgnoresFinalizers(w.routes, key, held);
    }
  }
}
