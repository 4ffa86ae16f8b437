/**
 The canary state of a Route in whole runs of the controller: it is the state of the one-Route machine
 over the evaluations and clears that happened, so what is proved of that machine holds in every run.
 */
module CanaryRuns {
  import opened RouteApi
  import opened ChildPass
  import opened Conflicts
  import opened Reconcile
  import opened ReconcileRuns
  import B = BackendHealth
  import C = Canary
  import T = Text

  // ---------------------------------------------------------------- what one pass does to its Route's state

  /** The schema asks for a threshold of at least 1 and a cooldown of at least ten seconds. */
  ghost predicate SchemaPolicy(spec: Spec) {
    Probed(spec) ==>
      spec.canary.value.rollback.value.threshold >= 1 && C.Window(spec.canary.value.rollback.value) > 0
  }

  /** The pass gets as far as evaluating the canary. */
  ghost predicate LiveEvaluates(routes: Routes, route: Route, env: Env) {
    && !CertVerdictOf(route, env).CertError? && env.routesListed && !Conflicted(routes, route)
    && !BackendsUnreadable(route.spec, env) && BackendSummary(route.spec, env).AllReady()
    && Probed(route.spec)
  }

  ghost predicate PassEvaluates(w: World, key: RouteKey, env: Env) {
    && env.getOk && Live(w.routes, key) && (w.routes[key].held || env.finalizerUpdate.Done?)
    && var held := w.routes[key].(held := true); LiveEvaluates(w.routes[key := held], held, env)
  }

  ghost function StateOf(w: World, key: RouteKey): C.KeyState {
    C.View(w.canary, C.KeyText(key))
  }

  ghost function EvalOf(spec: Spec, env: Env): C.KeyEvent
    requires Probed(spec)
  {
    C.Eval(env.now, spec.canary.value.rollback.value, env.probe)
  }

  lemma CanaryStepState(w: World, key: RouteKey, spec: Spec, env: Env)
    requires SchemaPolicy(spec)
    ensures C.View(CanaryStep(w, key, spec, env).0, C.KeyText(key)) ==
            if Probed(spec) then C.KeyStep(StateOf(w, key), EvalOf(spec, env)) else StateOf(w, key)
  {
    if Probed(spec) && !C.InCooldown(w.canary, C.KeyText(key), env.now) {
      C.RecordIsKeyStep(w.canary, C.KeyText(key), env.now, spec.canary.value.rollback.value, env.probe);
    }
  }

  lemma ServeState(w: World, key: RouteKey, route: Route, env: Env)
    requires !CertVerdictOf(route, env).CertError?
    ensures Serve(w, key, route, env).0.canary == CanaryStep(w, key, route.spec, env).0
  {
    SettleState(w, CanaryStep(w, key, route.spec, env).0, key, route, ChildrenEnd(w, key, route.spec, env), env);
  }

  lemma SettleState(w: World, canary: C.CanaryState, key: RouteKey, route: Route, end: PassState, env: Env)
    requires !CertVerdictOf(route, env).CertError?
    ensures Settle(w.(canary := canary), key, route, end, env).0.canary == canary
    ensures Settle(w.(canary := canary), key, route, end, env).1.outcome != Deleted
  {
  }

  lemma BlockState(w: World, key: RouteKey, route: Route, phase: Phase, reason: Reason, env: Env)
    requires !CertVerdictOf(route, env).CertError?
    ensures Block(w, key, route, phase, reason, env).0.canary == w.canary
  {
  }

  lemma LiveState(w: World, key: RouteKey, route: Route, env: Env)
    requires SchemaPolicy(route.spec)
    ensures StateOf(LivePass(w, key, route, env).0, key) ==
            if LiveEvaluates(w.routes, route, env) then C.KeyStep(StateOf(w, key), EvalOf(route.spec, env))
            else StateOf(w, key)
  {
    if CertVerdictOf(route, env).CertError? || !env.routesListed {
    } else if Conflicted(w.routes, route) {
      BlockState(w, key, route, Degraded, RouteConflict, env);
    } else if BackendsUnreadable(route.spec, env) {
    } else if !BackendSummary(route.spec, env).AllReady() {
      var (phase, reason) := B.BlockedPhase(BackendSummary(route.spec, env));
      BlockState(w, key, route, phase, reason, env);
    } else {
      ServeState(w, key, route, env);
      CanaryStepState(w, key, route.spec, env);
    }
  }

  /** A pass over a live Route evaluates its canary or leaves the state alone. */
  lemma LivePassState(w: World, key: RouteKey, env: Env)
    requires Live(w.routes, key) && SchemaPolicy(w.routes[key].spec)
    ensures StateOf(Pass(w, key, env).0, key) ==
            if PassEvaluates(w, key, env) then C.KeyStep(StateOf(w, key), EvalOf(w.routes[key].spec, env))
            else StateOf(w, key)
  {
    if env.getOk {
      var route := w.routes[key];
      var held := route.(held := true);
      if route.held {
        assert w.routes[key := held] == w.routes;
        LiveState(w, key, route, env);
      } else {
        LiveState(w.(routes := w.routes[key := held]), key, held, env);
      }
    }
  }

  /** A pass over a Route that is being deleted clears the state or leaves it alone. */
  lemma FinalPassState(w: World, key: RouteKey, env: Env)
    requires !Live(w.routes, key)
    ensures var (after, result) := Pass(w, key, env);
            StateOf(after, key) == if result.outcome == Deleted then C.FRESH else StateOf(w, key)
  {
  }

  // ---------------------------------------------------------------- runs

  /** The canary events of one Route: its evaluations, and a clear for each deletion and each restart. */
  ghost function CanaryEvents(events: seq<Event>, key: RouteKey): seq<C.KeyEvent> {
    if events == [] then []
    else
      var init, e := events[..|events| - 1], events[|events| - 1];
      CanaryEvents(init, key) + NewCanaryEvents(After(EMPTY_WORLD, init), e, key)
  }

  ghost function NewCanaryEvents(w: World, e: Event, key: RouteKey): seq<C.KeyEvent> {
    match e
    case Restart => [C.Clear]
    case PassOver(k, env) =>
      if k != key then []
      else if Live(w.routes, key) then if PassEvaluates(w, key, env) then [EvalOf(w.routes[key].spec, env)] else []
      else if Pass(w, key, env).1.outcome == Deleted then [C.Clear] else []
    case _ => []
  }

  /** Specs keep to the schema, and namespaces of reconciled Routes have no slash. */
  ghost predicate Orderly(e: Event) {
    match e
    case CreateRoute(_, _, spec) => SchemaPolicy(spec)
    case EditRoute(_, spec) => SchemaPolicy(spec)
    case PassOver(key, _) => T.Free(key.ns, '/')
    case _ => true
  }

  ghost predicate AllOrderly(events: seq<Event>) {
    forall i :: 0 <= i < |events| ==> Orderly(events[i])
  }

  ghost predicate SchemaRoutes(routes: Routes) {
    forall k :: k in routes ==> SchemaPolicy(routes[k].spec)
  }

  lemma SchemaByEffect(w: World, after: World, key: RouteKey, now: int)
    requires SchemaRoutes(w.routes) && Effect(w, after, key, now)
    ensures SchemaRoutes(after.routes)
  {
  }

  lemma NextSchema(w: World, e: Event)
    requires SchemaRoutes(w.routes) && Orderly(e)
    ensures SchemaRoutes(Next(w, e).routes)
  {
    if e.PassOver? {
      PassEffect(w, e.key, e.env);
      SchemaByEffect(w, Next(w, e), e.key, e.env.now);
    }
  }

  lemma {:induction false} RunSchema(events: seq<Event>)
    requires AllOrderly(events)
    ensures SchemaRoutes(After(EMPTY_WORLD, events).routes)
  {
    if events != [] {
      RunSchema(events[..|events| - 1]);
      NextSchema(After(EMPTY_WORLD, events[..|events| - 1]), events[|events| - 1]);
    }
  }

  ghost function Steps(k: C.KeyState, events: seq<C.KeyEvent>): C.KeyState
    requires |events| <= 1
  {
    if events == [] then k else C.KeyStep(k, events[0])
  }

  lemma NextState(w: World, e: Event, key: RouteKey)
    requires SchemaRoutes(w.routes) && Orderly(e) && T.Free(key.ns, '/')
    ensures |NewCanaryEvents(w, e, key)| <= 1
    ensures StateOf(Next(w, e), key) == Steps(StateOf(w, key), NewCanaryEvents(w, e, key))
  {
    if e.PassOver? {
      if e.key != key {
        PassEffect(w, e.key, e.env);
        C.KeyTextInjective(e.key, key);
      } else if Live(w.routes, key) {
        LivePassState(w, key, e.env);
      } else {
        FinalPassState(w, key, e.env);
      }
    }
  }

  /** In every run the canary state of a Route is that of the one-Route machine over its events. */
  lemma {:induction false} CanaryIsSerial(events: seq<Event>, key: RouteKey)
    requires AllOrderly(events) && T.Free(key.ns, '/')
    ensures StateOf(After(EMPTY_WORLD, events), key) == C.RunKey(CanaryEvents(events, key))
  {
    if events != [] {
      var init, e := events[..|events| - 1], events[|events| - 1];
      var w, past := After(EMPTY_WORLD, init), CanaryEvents(init, key);
      CanaryIsSerial(init, key);
      RunSchema(init);
      NextState(w, e, key);
      var added := NewCanaryEvents(w, e, key);
      if added != [] {
        assert added == [added[0]];
        assert (past + [added[0]])[..|past|] == past;
      } else {
        assert past + added == past;
      }
    }
  }

  /** Every evaluation of a Route belongs to a pass over it. */
  lemma {:induction false} EvaluationsArePasses(events: seq<Event>, key: RouteKey, n: nat) returns (i: nat)
    requires AllOrderly(events) && n < |CanaryEvents(events, key)| && CanaryEvents(events, key)[n].Eval?
    ensures i < |events| && events[i].PassOver? && CanaryEvents(events, key)[n].now == events[i].env.now
    ensures var policy := CanaryEvents(events, key)[n].policy; policy.threshold >= 1 && C.Window(policy) > 0
  {
    var init, e := events[..|events| - 1], events[|events| - 1];
    var past := CanaryEvents(init, key);
    if n < |past| {
      i := EvaluationsArePasses(init, key, n);
    } else {
      i := |events| - 1;
      RunSchema(init);
      var added := NewCanaryEvents(After(EMPTY_WORLD, init), e, key);
      assert CanaryEvents(events, key)[n] == added[n - |past|];
    }
  }

  lemma SchemaInRuns(events: seq<Event>, key: RouteKey)
    requires AllOrderly(events)
    ensures C.SchemaEvents(CanaryEvents(events, key))
  {
    forall n | 0 <= n < |CanaryEvents(events, key)| && CanaryEvents(events, key)[n].Eval?
      ensures CanaryEvents(events, key)[n].policy.threshold >= 1 && C.Window(CanaryEvents(events, key)[n].policy) > 0
    {
      var i := EvaluationsArePasses(events, key, n);
    }
  }

  /** The clock does not run backwards from pass to pass. */
  ghost predicate ClockMovesOn(events: seq<Event>) {
    forall i, j :: 0 <= i < j < |events| && events[i].PassOver? && events[j].PassOver? ==>
      events[i].env.now <= events[j].env.now
  }

  lemma {:induction false} TimeInRuns(events: seq<Event>, key: RouteKey)
    requires AllOrderly(events) && ClockMovesOn(events)
    ensures C.TimeMovesOn(CanaryEvents(events, key))
  {
    if events != [] {
      var init, e := events[..|events| - 1], events[|events| - 1];
      TimeInRuns(init, key);
      var past, all := CanaryEvents(init, key), CanaryEvents(events, key);
      forall m, n | 0 <= m < n < |all| && all[m].Eval? && all[n].Eval?
        ensures all[m].now <= all[n].now
      {
        if n >= |past| {
          var i := EvaluationsArePasses(init, key, m);
          assert events[i] == init[i];
        }
      }
    }
  }

  /** In every run the count is the Route's trailing run of failed probes, and the deadline is its last trigger's. */
  lemma CounterInRuns(events: seq<Event>, key: RouteKey)
    requires AllOrderly(events) && T.Free(key.ns, '/')
    ensures var k, log := StateOf(After(EMPTY_WORLD, events), key), C.Log(CanaryEvents(events, key));
            k.count == C.Trail(log) && (k.until.Some? ==> k.count == 0 && k.until == C.Deadline(log))
  {
    CanaryIsSerial(events, key);
    SchemaInRuns(events, key);
    C.CounterRefinesHistory(CanaryEvents(events, key));
  }

  /**
   In every run with a clock that moves on, the whole cooldown and a threshold of failed probes lie between
   consecutive rollbacks of a Route.
   */
  lemma RateInRuns(events: seq<Event>, key: RouteKey, i: nat, j: nat)
    requires AllOrderly(events) && ClockMovesOn(events)
    requires C.Consecutive(C.Log(CanaryEvents(events, key)), i, j)
    ensures var log := C.Log(CanaryEvents(events, key));
            && log[j].now >= log[i].now + log[i].cooldown
            && C.CountFailed(log[i + 1..j + 1]) >= log[j].threshold
  {
    SchemaInRuns(events, key);
    TimeInRuns(events, key);
    C.RateBound(CanaryEvents(events, key), i, j);
  }

  // ---------------------------------------------------------------- Routes that are gone

  /** Canary state is there only for a stored Route that holds the finalizer. */
  ghost predicate StateHeld(w: World, key: RouteKey) {
    StateOf(w, key) == C.FRESH || (key in w.routes && w.routes[key].held)
  }

  lemma PassStateHeld(w: World, key: RouteKey, env: Env)
    requires StateHeld(w, key) && SchemaRoutes(w.routes) && !env.finalizerUpdate.LostReply?
    ensures StateHeld(Pass(w, key, env).0, key)
  {
    if Live(w.routes, key) {
      LivePassState(w, key, env);
      PassEffect(w, key, env);
      if PassEvaluates(w, key, env) {
        EvaluatingHolds(w, key, env);
      }
    } else {
      FinalPassState(w, key, env);
      FinalHeld(w, key, env);
    }
  }

  lemma FinalHeld(w: World, key: RouteKey, env: Env)
    requires !Live(w.routes, key) && !env.finalizerUpdate.LostReply?
    ensures var (after, result) := Pass(w, key, env); result.outcome != Deleted ==> after.routes == w.routes
  {
  }

  lemma LiveHolds(w: World, key: RouteKey, route: Route, env: Env)
    requires key in w.routes && w.routes[key] == route && route.held && !route.deleting
    ensures key in LivePass(w, key, route, env).0.routes && LivePass(w, key, route, env).0.routes[key].held
  {
    LiveEffect(w, key, route, env);
  }

  /** A pass that evaluates the canary works on a Route with the finalizer, and keeps it. */
  lemma EvaluatingHolds(w: World, key: RouteKey, env: Env)
    requires PassEvaluates(w, key, env)
    ensures key in Pass(w, key, env).0.routes && Pass(w, key, env).0.routes[key].held
  {
    if w.routes[key].held {
      LiveHolds(w, key, w.routes[key], env);
    } else {
      var held := w.routes[key].(held := true);
      LiveHolds(w.(routes := w.routes[key := held]), key, held, env);
    }
  }

  lemma NextStateHeld(w: World, e: Event, key: RouteKey)
    requires StateHeld(w, key) && SchemaRoutes(w.routes) && Orderly(e) && T.Free(key.ns, '/')
    requires e.PassOver? ==> !e.env.finalizerUpdate.LostReply?
    ensures StateHeld(Next(w, e), key)
  {
    if e.PassOver? {
      if e.key == key {
        PassStateHeld(w, key, e.env);
      } else {
        PassEffect(w, e.key, e.env);
        C.KeyTextInjective(e.key, key);
      }
    }
  }

  /** In every run in which no reply to a finalizer update is lost, a Route that is gone has no canary state. */
  lemma {:induction false} GoneIsFresh(events: seq<Event>, key: RouteKey)
    requires AllOrderly(events) && T.Free(key.ns, '/')
    requires forall i :: 0 <= i < |events| && events[i].PassOver? ==> !events[i].env.finalizerUpdate.LostReply?
    ensures StateHeld(After(EMPTY_WORLD, events), key)
    ensures key !in After(EMPTY_WORLD, events).routes ==> StateOf(After(EMPTY_WORLD, events), key) == C.FRESH
  {
    if events != [] {
      var init := events[..|events| - 1];
      GoneIsFresh(init, key);
      RunSchema(init);
      NextStateHeld(After(EMPTY_WORLD, init), events[|events| - 1], key);
    }
  }
}
