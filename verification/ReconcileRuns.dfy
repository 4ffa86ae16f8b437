/**
 Whole runs: users create, edit and delete Routes, others disturb children, the process restarts,
 and passes run in between with any API call failing. What every persisted status and every gauge
 row looks like.
 */
module ReconcileRuns {
  import opened RouteApi
  import opened ChildPass
  import opened Conflicts
  import opened RouteStatus
  import opened Reconcile
  import B = BackendHealth
  import C = Canary
  import M = Metrics

  datatype Event =
    | CreateRoute(key: RouteKey, created: int, spec: Spec)
    | EditRoute(key: RouteKey, spec: Spec)
    | DeleteRoute(key: RouteKey)
    | SetForeign(key: RouteKey, on: bool)   // finalizers of others
    | Disturb(children: Store)              // anything else that happens to children
    | PassOver(key: RouteKey, env: Env)
    | Restart                               // a new process: canary state and gauges are gone

  const EMPTY_WORLD := World(map[], map[], 0, C.NO_CANARY_STATE, M.NO_GAUGES)

  ghost function Next(w: World, e: Event): World {
    match e
    case CreateRoute(key, created, spec) =>
      if key in w.routes then w
      else w.(routes := w.routes[key := Route(key, created, 1, false, false, false, spec, NEW_STATUS)])
    case EditRoute(key, spec) =>
      if key !in w.routes then w
      else w.(routes := w.routes[key := w.routes[key].(spec := spec, generation := w.routes[key].generation + 1)])
    case DeleteRoute(key) =>
      if key !in w.routes then w else w.(routes := StoreRoute(w.routes, key, w.routes[key].(deleting := true)))
    case SetForeign(key, on) =>
      if key !in w.routes || (on && w.routes[key].deleting) then w
      else w.(routes := StoreRoute(w.routes, key, w.routes[key].(foreign := on)))
    case Disturb(children) => w.(children := children)
    case PassOver(key, env) => Pass(w, key, env).0
    case Restart => w.(canary := C.NO_CANARY_STATE, gauges := M.NO_GAUGES)
  }

  ghost function After(w: World, events: seq<Event>): World {
    if events == [] then w else Next(After(w, events[..|events| - 1]), events[|events| - 1])
  }

  // ---------------------------------------------------------------- what a pass does to the Routes

  /** The evaluation that a pass, if it gets that far, persists. */
  ghost predicate Evaluated(before: Status, after: Status, now: int) {
    exists c: Condition, j: Judgement, generation: int ::
      c.ctype == CertificateHealth && c.lastTransition == now && ProperJudgement(j) &&
      after == Judged(SetStatus(before, c), j, now, generation)
  }

  /** Only one Route changes, and of it only the finalizer and the status; it goes away, or
   loses the finalizer, only if it is being deleted. */
  ghost predicate RoutesStep(before: Routes, after: Routes, key: RouteKey, now: int) {
    && (forall k :: k != key ==> (k in before <==> k in after) && (k in before ==> before[k] == after[k]))
    && (key in before && !before[key].deleting ==> key in after && (before[key].held ==> after[key].held))
    && (key in after ==>
          && key in before
          && after[key] == before[key].(held := after[key].held, status := after[key].status)
          && (after[key].status == before[key].status || Evaluated(before[key].status, after[key].status, now)))
  }

  /** What a pass may do to the gauges: nothing, clear the rows of its Route, or set them. */
  ghost predicate GaugeStep(before: M.Gauges, after: M.Gauges, key: RouteKey) {
    || after == before
    || after == M.ClearGauges(before, key)
    || exists p: Phase, h: M.HealthState, n: int :: after == M.SetGauges(before, key, p, h, n)
  }

  ghost predicate CanaryStepOf(before: C.CanaryState, after: C.CanaryState, key: RouteKey) {
    forall text :: text != C.KeyText(key) ==> C.View(after, text) == C.View(before, text)
  }

  /** A pass over `key` moves nothing of any other Route, except children that they share. */
  ghost predicate Effect(w: World, after: World, key: RouteKey, now: int) {
    RoutesStep(w.routes, after.routes, key, now) && GaugeStep(w.gauges, after.gauges, key)
    && CanaryStepOf(w.canary, after.canary, key)
  }

  lemma StoredEffect(w: World, key: RouteKey, st: Status, health: M.HealthState, result: Result, env: Env)
    requires key in w.routes && Evaluated(w.routes[key].status, st, env.now)
    ensures Effect(w, Persist(w, key, st, health, result, env).0, key, env.now)
  {
  }

  lemma JudgedIsEvaluated(st: Status, c: Condition, j: Judgement, now: int, generation: int)
    requires c.ctype == CertificateHealth && c.lastTransition == now && ProperJudgement(j)
    ensures Evaluated(st, Judged(SetStatus(st, c), j, now, generation), now)
  {
  }

  lemma PersistEffect(w: World, key: RouteKey, route: Route, c: Condition, j: Judgement, health: M.HealthState,
                      result: Result, env: Env)
    requires key in w.routes && w.routes[key].status == route.status
    requires c.ctype == CertificateHealth && c.lastTransition == env.now && ProperJudgement(j)
    ensures var st := Judged(SetStatus(route.status, c), j, env.now, route.generation);
            Effect(w, Persist(w, key, st, health, result, env).0, key, env.now)
  {
    JudgedIsEvaluated(route.status, c, j, env.now, route.generation);
    StoredEffect(w, key, Judged(SetStatus(route.status, c), j, env.now, route.generation), health, result, env);
  }

  lemma BlockEffect(w: World, key: RouteKey, route: Route, phase: Phase, reason: Reason, env: Env)
    requires key in w.routes && w.routes[key] == route && !CertVerdictOf(route, env).CertError?
    requires ProperJudgement(Blocked(phase, reason, env.texts(reason)))
    ensures Effect(w, Block(w, key, route, phase, reason, env).0, key, env.now)
  {
    var c := CertCondition(route, env);
    PersistEffect(w, key, route, c, Blocked(phase, reason, env.texts(reason)), HealthOf(reason),
                  BlockResult(reason), env);
  }

  lemma SettleEffect(w: World, canary: C.CanaryState, key: RouteKey, route: Route, end: PassState, env: Env)
    requires key in w.routes && w.routes[key] == route && !CertVerdictOf(route, env).CertError?
    requires CanaryStepOf(w.canary, canary, key)
    ensures Effect(w, Settle(w.(canary := canary), key, route, end, env).0, key, env.now)
  {
    var c := CertCondition(route, env);
    PersistEffect(w.(canary := canary, children := end.children, calls := end.calls), key, route, c,
                  Finished(end.failed, |end.written|, env.texts(ReconcileError)), M.HealthyState,
                  SettleResult(end, route.spec), env);
  }

  lemma CanaryStepLocal(w: World, key: RouteKey, spec: Spec, env: Env)
    ensures CanaryStepOf(w.canary, CanaryStep(w, key, spec, env).0, key)
  {
  }

  lemma ServeEffect(w: World, key: RouteKey, route: Route, env: Env)
    requires key in w.routes && w.routes[key] == route && !CertVerdictOf(route, env).CertError?
    ensures Effect(w, Serve(w, key, route, env).0, key, env.now)
  {
    CanaryStepLocal(w, key, route.spec, env);
    SettleEffect(w, CanaryStep(w, key, route.spec, env).0, key, route, ChildrenEnd(w, key, route.spec, env), env);
  }

  lemma LiveEffect(w: World, key: RouteKey, route: Route, env: Env)
    requires key in w.routes && w.routes[key] == route
    ensures Effect(w, LivePass(w, key, route, env).0, key, env.now)
  {
    if CertVerdictOf(route, env).CertError? || !env.routesListed {
    } else if Conflicted(w.routes, route) {
      BlockEffect(w, key, route, Degraded, RouteConflict, env);
    } else if BackendsUnreadable(route.spec, env) {
    } else if !BackendSummary(route.spec, env).AllReady() {
      var (phase, reason) := B.BlockedPhase(BackendSummary(route.spec, env));
      BlockEffect(w, key, route, phase, reason, env);
    } else {
      ServeEffect(w, key, route, env);
    }
  }

  /** The finalizer is added first; the rest works on the Route as the server returned it. */
  lemma AddEffect(w: World, key: RouteKey, held: Route, env: Env)
    requires key in w.routes && held == w.routes[key].(held := true)
    ensures Effect(w, LivePass(w.(routes := w.routes[key := held]), key, held, env).0, key, env.now)
  {
    var added := w.(routes := w.routes[key := held]);
    LiveEffect(added, key, held, env);
    EffectAfterAdd(w, added, LivePass(added, key, held, env).0, key, env.now);
  }

  lemma EffectAfterAdd(w: World, added: World, after: World, key: RouteKey, now: int)
    requires key in w.routes && added == w.(routes := w.routes[key := w.routes[key].(held := true)])
    requires Effect(added, after, key, now)
    ensures Effect(w, after, key, now)
  {
  }

  lemma FinalizeEffect(w: World, key: RouteKey, route: Route, env: Env)
    requires key in w.routes && w.routes[key] == route && route.deleting
    ensures Effect(w, Finalize(w, key, route, env).0, key, env.now)
  {
  }

  lemma PassEffect(w: World, key: RouteKey, env: Env)
    ensures Effect(w, Pass(w, key, env).0, key, env.now)
  {
    if !env.getOk || key !in w.routes {
    } else if w.routes[key].deleting {
      FinalizeEffect(w, key, w.routes[key], env);
    } else if w.routes[key].held {
      LiveEffect(w, key, w.routes[key], env);
    } else {
      AddEffect(w, key, w.routes[key].(held := true), env);
    }
  }

  // ---------------------------------------------------------------- persisted statuses

  ghost predicate AllSound(routes: Routes) {
    Keyed(routes) && forall k :: k in routes ==> Sound(routes[k].status)
  }

  lemma EvaluatedIsSound(before: Status, after: Status, now: int)
    requires UniqueTypes(before.conditions) && Evaluated(before, after, now)
    ensures UniqueTypes(after.conditions) && Persistable(after)
  {
    var c: Condition, j: Judgement, generation: int :|
      c.ctype == CertificateHealth && c.lastTransition == now && ProperJudgement(j) &&
      after == Judged(SetStatus(before, c), j, now, generation);
    ConditionSet(before.conditions, c);
    JudgedIsPersistable(SetStatus(before, c), j, now, generation);
  }

  lemma SoundByEffect(w: World, after: World, key: RouteKey, now: int)
    requires AllSound(w.routes) && Effect(w, after, key, now)
    ensures AllSound(after.routes)
  {
    if key in after.routes && after.routes[key].status != w.routes[key].status {
      EvaluatedIsSound(w.routes[key].status, after.routes[key].status, now);
    }
  }

  lemma PassSound(w: World, key: RouteKey, env: Env)
    requires AllSound(w.routes)
    ensures AllSound(Pass(w, key, env).0.routes)
  {
    PassEffect(w, key, env);
    SoundByEffect(w, Pass(w, key, env).0, key, env.now);
  }

  lemma StoreSound(routes: Routes, key: RouteKey, route: Route)
    requires AllSound(routes) && route.key == key && Sound(route.status)
    ensures AllSound(StoreRoute(routes, key, route))
  {
  }

  lemma UserSound(w: World, e: Event)
    requires AllSound(w.routes) && !e.PassOver?
    ensures AllSound(Next(w, e).routes)
  {
    match e
    case DeleteRoute(key) => if key in w.routes { StoreSound(w.routes, key, w.routes[key].(deleting := true)); }
    case SetForeign(key, on) => if key in w.routes { StoreSound(w.routes, key, w.routes[key].(foreign := on)); }
    case _ =>
  }

  lemma NextSound(w: World, e: Event)
    requires AllSound(w.routes)
    ensures AllSound(Next(w, e).routes)
  {
    if e.PassOver? {
      PassSound(w, e.key, e.env);
    } else {
      UserSound(w, e);
    }
  }

  lemma {:induction false} RunSound(events: seq<Event>)
    ensures AllSound(After(EMPTY_WORLD, events).routes)
  {
    if events != [] {
      RunSound(events[..|events| - 1]);
      NextSound(After(EMPTY_WORLD, events[..|events| - 1]), events[|events| - 1]);
    }
  }

  /**
   The persisted status, in every run: one of the five tuples or never judged, each condition type at
   most once, Active exactly with Ready and Synced true, and never Provisioning.
   */
  lemma StatusesAreSound(events: seq<Event>)
    ensures var routes := After(EMPTY_WORLD, events).routes;
            && AllSound(routes)
            && forall k :: k in routes ==>
                 && routes[k].status.phase != Provisioning
                 && (routes[k].status.phase == Active <==> StatusTrue(routes[k].status, Ready))
                 && (routes[k].status.phase == Active <==> StatusTrue(routes[k].status, Synced))
  {
    RunSound(events);
    var routes := After(EMPTY_WORLD, events).routes;
    forall k | k in routes && routes[k].status != NEW_STATUS
      ensures routes[k].status.phase != Provisioning
      ensures routes[k].status.phase == Active <==> StatusTrue(routes[k].status, Ready)
      ensures routes[k].status.phase == Active <==> StatusTrue(routes[k].status, Synced)
    {
      ActiveIffReadyIffSynced(routes[k].status);
    }
  }

  /** A condition stays as it is, or its status or reason changes and its transition time is `now`. */
  ghost predicate ConditionMoves(before: Option<Condition>, after: Option<Condition>, now: int) {
    || before == after
    || (&& after.Some? && after.value.lastTransition == now
        && (before.Some? ==> before.value.status != after.value.status || before.value.reason != after.value.reason))
  }

  lemma SetMoves(conditions: seq<Condition>, c: Condition, t: ConditionType)
    requires UniqueTypes(conditions)
    ensures UniqueTypes(WithCondition(conditions, c))
    ensures t != c.ctype ==> Find(WithCondition(conditions, c), t) == Find(conditions, t)
    ensures ConditionMoves(Find(conditions, t), Find(WithCondition(conditions, c), t), c.lastTransition)
  {
    ConditionSet(conditions, c);
    PositionUniqueNew(conditions, c);
  }

  /** Setting three conditions of different types at one time moves each type at most once. */
  lemma ThreeMoves(conditions: seq<Condition>, c: Condition, d: Condition, e: Condition, t: ConditionType)
    requires UniqueTypes(conditions) && c.ctype != d.ctype && d.ctype != e.ctype && c.ctype != e.ctype
    requires c.lastTransition == d.lastTransition == e.lastTransition
    ensures var after := WithCondition(WithCondition(WithCondition(conditions, c), d), e);
            ConditionMoves(Find(conditions, t), Find(after, t), c.lastTransition)
  {
    var one := WithCondition(conditions, c);
    SetMoves(conditions, c, t);
    SetMoves(one, d, t);
    SetMoves(WithCondition(one, d), e, t);
  }

  lemma EvaluatedMoves(before: Status, after: Status, now: int, t: ConditionType)
    requires UniqueTypes(before.conditions) && Evaluated(before, after, now)
    ensures ConditionMoves(Find(before.conditions, t), Find(after.conditions, t), now)
  {
    var c: Condition, j: Judgement, generation: int :|
      c.ctype == CertificateHealth && c.lastTransition == now && ProperJudgement(j) &&
      after == Judged(SetStatus(before, c), j, now, generation);
    ThreeMoves(before.conditions, c, SyncedOf(j, now, generation), ReadyOf(j, now, generation), t);
  }

  /** In every run a persisted condition's transition time moves exactly when its status or reason does. */
  lemma TransitionTimes(events: seq<Event>, e: Event, k: RouteKey, t: ConditionType)
    requires var w := After(EMPTY_WORLD, events); k in w.routes && k in Next(w, e).routes
    ensures var w := After(EMPTY_WORLD, events);
            var before := Find(w.routes[k].status.conditions, t);
            var after := Find(Next(w, e).routes[k].status.conditions, t);
            && (before != after ==> e.PassOver? && e.key == k && ConditionMoves(before, after, e.env.now))
            && (before.Some? ==> after.Some?)
  {
    RunSound(events);
    var w := After(EMPTY_WORLD, events);
    if e.PassOver? {
      PassEffect(w, e.key, e.env);
      var after := Next(w, e).routes;
      if e.key == k && after[k].status != w.routes[k].status {
        EvaluatedMoves(w.routes[k].status, after[k].status, e.env.now, t);
      }
    }
  }

  // ---------------------------------------------------------------- gauges

  ghost predicate OneRow(g: M.Gauges, key: RouteKey) {
    exists p: Phase, h: M.HealthState, n: int :: M.Rows(g, key, p, h, n)
  }

  /** All rows of every Route are absent, or one-hot with a count, in every run. */
  ghost predicate GaugesFormed(g: M.Gauges) {
    forall key :: M.NoRows(g, key) || OneRow(g, key)
  }

  lemma OtherRowsStay(before: M.Gauges, after: M.Gauges, key: RouteKey)
    requires GaugeStep(before, after, key)
    ensures forall other :: other != key ==> M.SameRows(after, before, other)
  {
    M.GaugeUpdates(before, key, NoPhase, M.UnknownState, 0);
    if p: Phase, h: M.HealthState, n: int :| after == M.SetGauges(before, key, p, h, n) {
      M.GaugeUpdates(before, key, p, h, n);
    }
  }

  lemma GaugeStepFormed(before: M.Gauges, after: M.Gauges, key: RouteKey)
    requires GaugesFormed(before) && GaugeStep(before, after, key)
    ensures GaugesFormed(after)
  {
    OtherRowsStay(before, after, key);
    M.GaugeUpdates(before, key, NoPhase, M.UnknownState, 0);
    if p: Phase, h: M.HealthState, n: int :| after == M.SetGauges(before, key, p, h, n) {
      M.GaugeUpdates(before, key, p, h, n);
      assert M.Rows(after, key, p, h, n);
    }
    forall other | other != key
      ensures M.NoRows(after, other) || OneRow(after, other)
    {
      assert M.NoRows(before, other) || OneRow(before, other);
      M.SameRowsRead(after, before, other, NoPhase, M.UnknownState, 0);
      if p: Phase, h: M.HealthState, n: int :| M.Rows(before, other, p, h, n) {
        M.SameRowsRead(after, before, other, p, h, n);
        assert M.Rows(after, other, p, h, n);
      }
    }
  }

  lemma {:induction false} GaugesAreOneHot(events: seq<Event>)
    ensures GaugesFormed(After(EMPTY_WORLD, events).gauges)
  {
    if events != [] {
      var w, e := After(EMPTY_WORLD, events[..|events| - 1]), events[|events| - 1];
      GaugesAreOneHot(events[..|events| - 1]);
      if e.PassOver? {
        PassEffect(w, e.key, e.env);
        GaugeStepFormed(w.gauges, Next(w, e).gauges, e.key);
      }
    }
  }
}
