/**
 The tables of the controller's process in whole runs: what each Route's gauges show, how far they can
 be from its stored status, which history its canary state has, and when either outlives the Route.
 */
module ProcessTables {
  import opened RouteApi
  import opened ChildPass
  import opened Conflicts
  import opened RouteStatus
  import opened Reconcile
  import opened ReconcileRuns
  import B = BackendHealth
  import C = Canary
  import M = Metrics
  import T = Text

  // ---------------------------------------------------------------- the row a status asks for

  datatype Row = Row(phase: Phase, health: M.HealthState, count: nat)

  /** The backend state that goes with a persisted status. */
  ghost function Shown(st: Status): M.HealthState {
    if Find(st.conditions, Ready).Some? then HealthOf(Find(st.conditions, Ready).value.reason) else M.HealthyState
  }

  ghost function RowOf(st: Status): Row {
    Row(st.phase, Shown(st), st.managedResources)
  }

  ghost predicate GaugesShow(g: M.Gauges, key: RouteKey, row: Row) {
    M.Rows(g, key, row.phase, row.health, row.count)
  }

  /** The gauges show one row at most. */
  lemma RowUnique(g: M.Gauges, key: RouteKey, a: Row, b: Row)
    requires GaugesShow(g, key, a) && GaugesShow(g, key, b)
    ensures a == b && !M.NoRows(g, key)
  {
    M.ValuesComplete(a.phase, a.health);
    M.ValuesComplete(b.phase, b.health);
    assert g.health[(key, a.health)] == 1;
  }

  // ---------------------------------------------------------------- what one pass does to the row

  /** The pass wrote a status and the write was acknowledged. */
  ghost predicate Acknowledged(result: Result) {
    result.outcome in {ConflictFound, BackendBlocked, ReconcileFailed, Success}
  }

  /** An acknowledged status is shown; otherwise the gauges stay, and without a lost reply the status too. */
  ghost predicate RowStep(w: World, after: World, key: RouteKey, result: Result, env: Env) {
    && key in w.routes && key in after.routes
    && (Acknowledged(result) ==>
        after.routes[key].held && GaugesShow(after.gauges, key, RowOf(after.routes[key].status)))
    && (!Acknowledged(result) ==> after.gauges == w.gauges)
    && (!Acknowledged(result) && !env.statusUpdate.LostReply? ==> after.routes[key].status == w.routes[key].status)
    && (Acknowledged(result) ==> env.statusUpdate.Done?)
    && result.outcome != Deleted
  }

  lemma StoredRow(w: World, key: RouteKey, st: Status, health: M.HealthState, result: Result, env: Env)
    requires key in w.routes && w.routes[key].held && Acknowledged(result) && Shown(st) == health
    ensures var (after, r) := Persist(w, key, st, health, result, env); RowStep(w, after, key, r, env)
  {
    M.GaugeUpdates(w.gauges, key, st.phase, health, st.managedResources);
  }

  lemma ShownOfJudged(st: Status, c: Condition, j: Judgement, now: int, generation: int)
    requires UniqueTypes(st.conditions) && c.ctype == CertificateHealth && ProperJudgement(j)
    ensures Shown(Judged(SetStatus(st, c), j, now, generation)) ==
            if j.Blocked? then HealthOf(j.reason) else M.HealthyState
  {
    ConditionSet(st.conditions, c);
    JudgedConditions(SetStatus(st, c), j, now, generation);
  }

  lemma PersistRow(w: World, key: RouteKey, route: Route, c: Condition, j: Judgement, health: M.HealthState,
                   result: Result, env: Env)
    requires key in w.routes && w.routes[key].held && UniqueTypes(route.status.conditions) && Acknowledged(result)
    requires c.ctype == CertificateHealth && ProperJudgement(j)
    requires health == if j.Blocked? then HealthOf(j.reason) else M.HealthyState
    ensures var st := Judged(SetStatus(route.status, c), j, env.now, route.generation);
            var (after, r) := Persist(w, key, st, health, result, env);
            RowStep(w, after, key, r, env)
  {
    ShownOfJudged(route.status, c, j, env.now, route.generation);
    StoredRow(w, key, Judged(SetStatus(route.status, c), j, env.now, route.generation), health, result, env);
  }

  lemma BlockRow(w: World, key: RouteKey, route: Route, phase: Phase, reason: Reason, env: Env)
    requires key in w.routes && w.routes[key].held && UniqueTypes(route.status.conditions)
    requires !CertVerdictOf(route, env).CertError? && ProperJudgement(Blocked(phase, reason, env.texts(reason)))
    ensures var (after, r) := Block(w, key, route, phase, reason, env); RowStep(w, after, key, r, env)
  {
    var c := CertCondition(route, env);
    PersistRow(w, key, route, c, Blocked(phase, reason, env.texts(reason)), HealthOf(reason),
               BlockResult(reason), env);
  }

  lemma SettleRow(w: World, canary: C.CanaryState, key: RouteKey, route: Route, end: PassState, env: Env)
    requires key in w.routes && w.routes[key].held && UniqueTypes(route.status.conditions)
    requires !CertVerdictOf(route, env).CertError?
    ensures var (after, r) := Settle(w.(canary := canary), key, route, end, env); RowStep(w, after, key, r, env)
  {
    var c := CertCondition(route, env);
    PersistRow(w.(canary := canary, children := end.children, calls := end.calls), key, route, c,
               Finished(end.failed, |end.written|, env.texts(ReconcileError)), M.HealthyState,
               SettleResult(end, route.spec), env);
  }

  lemma ServeRow(w: World, key: RouteKey, route: Route, env: Env)
    requires key in w.routes && w.routes[key].held && UniqueTypes(route.status.conditions)
    requires !CertVerdictOf(route, env).CertError?
    ensures var (after, r) := Serve(w, key, route, env); RowStep(w, after, key, r, env)
  {
    SettleRow(w, CanaryStep(w, key, route.spec, env).0, key, route, ChildrenEnd(w, key, route.spec, env), env);
  }

  lemma LiveRow(w: World, key: RouteKey, route: Route, env: Env)
    requires key in w.routes && w.routes[key].held && UniqueTypes(route.status.conditions)
    ensures var (after, r) := LivePass(w, key, route, env); RowStep(w, after, key, r, env)
  {
    if CertVerdictOf(route, env).CertError? || !env.routesListed {
    } else if Conflicted(w.routes, route) {
      BlockRow(w, key, route, Degraded, RouteConflict, env);
    } else if BackendsUnreadable(route.spec, env) {
    } else if !BackendSummary(route.spec, env).AllReady() {
      var (phase, reason) := B.BlockedPhase(BackendSummary(route.spec, env));
      BlockRow(w, key, route, phase, reason, env);
    } else {
      ServeRow(w, key, route, env);
    }
  }

  lemma PassRow(w: World, key: RouteKey, env: Env)
    requires AllSound(w.routes) && Live(w.routes, key)
    ensures var (after, r) := Pass(w, key, env); RowStep(w, after, key, r, env)
  {
    var route := w.routes[key];
    if !env.getOk {
    } else if route.held {
      LiveRow(w, key, route, env);
    } else {
      var held := route.(held := true);
      LiveRow(w.(routes := w.routes[key := held]), key, held, env);
    }
  }

  /** A pass over a Route that is gone or being deleted clears its row or leaves it alone. */
  lemma FinalRow(w: World, key: RouteKey, env: Env)
    requires !Live(w.routes, key)
    ensures var (after, r) := Pass(w, key, env);
            && !Acknowledged(r)
            && (if r.outcome == Deleted then M.NoRows(after.gauges, key) else after.gauges == w.gauges)
  {
    M.GaugeUpdates(w.gauges, key, NoPhase, M.UnknownState, 0);
  }

  // ---------------------------------------------------------------- gauges over runs

  /** The row of the Route's last status whose write was acknowledged, since the process last forgot the Route. */
  ghost function LastAcknowledged(events: seq<Event>, key: RouteKey): Option<Row> {
    if events == [] then None
    else
      var init, e := events[..|events| - 1], events[|events| - 1];
      var before := LastAcknowledged(init, key);
      match e
      case Restart => None
      case PassOver(k, env) =>
        if k != key then before
        else
          var (after, result) := Pass(After(EMPTY_WORLD, init), key, env);
          if result.outcome == Deleted then None
          else if Acknowledged(result) && key in after.routes then Some(RowOf(after.routes[key].status))
          else before
      case _ => before
  }

  ghost predicate ShowsLast(g: M.Gauges, key: RouteKey, last: Option<Row>) {
    if last.Some? then GaugesShow(g, key, last.value) else M.NoRows(g, key)
  }

  lemma SameRowsShow(a: M.Gauges, b: M.Gauges, key: RouteKey, last: Option<Row>)
    requires M.SameRows(a, b, key) && ShowsLast(b, key, last)
    ensures ShowsLast(a, key, last)
  {
    var row := if last.Some? then last.value else Row(NoPhase, M.UnknownState, 0);
    M.SameRowsRead(a, b, key, row.phase, row.health, row.count);
  }

  lemma OtherShowsLast(w: World, key: RouteKey, env: Env, other: RouteKey, last: Option<Row>)
    requires ShowsLast(w.gauges, other, last) && other != key
    ensures ShowsLast(Pass(w, key, env).0.gauges, other, last)
  {
    PassEffect(w, key, env);
    OtherRowsStay(w.gauges, Pass(w, key, env).0.gauges, key);
    SameRowsShow(Pass(w, key, env).0.gauges, w.gauges, other, last);
  }

  /**
   In every run, whatever is lost: the gauges of a Route show the last status whose write was acknowledged
   since the process last forgot the Route, and nothing if there is none.
   */
  lemma {:induction false} GaugesShowLastAcknowledged(events: seq<Event>, key: RouteKey)
    ensures ShowsLast(After(EMPTY_WORLD, events).gauges, key, LastAcknowledged(events, key))
  {
    if events != [] {
      var init, e := events[..|events| - 1], events[|events| - 1];
      var w := After(EMPTY_WORLD, init);
      GaugesShowLastAcknowledged(init, key);
      if e.PassOver? {
        if e.key != key {
          OtherShowsLast(w, e.key, e.env, key, LastAcknowledged(init, key));
        } else {
          RunSound(init);
          if Live(w.routes, key) { PassRow(w, key, e.env); } else { FinalRow(w, key, e.env); }
        }
      }
    }
  }

  // ---------------------------------------------------------------- gauges and stored status

  /** A Route's rows are absent, or they repeat the status that is stored for it. */
  ghost predicate Mirrors(w: World, key: RouteKey) {
    M.NoRows(w.gauges, key) ||
    (key in w.routes && w.routes[key].held && GaugesShow(w.gauges, key, RowOf(w.routes[key].status)))
  }

  lemma LiveMirrorExactly(w: World, key: RouteKey, env: Env)
    requires AllSound(w.routes) && Mirrors(w, key) && Live(w.routes, key)
    ensures var after := Pass(w, key, env).0;
            && key in after.routes
            && (Mirrors(after, key) <==>
                  M.NoRows(w.gauges, key) || !env.statusUpdate.LostReply?
                  || RowOf(after.routes[key].status) == RowOf(w.routes[key].status))
  {
    var (after, r) := Pass(w, key, env);
    PassRow(w, key, env);
    PassEffect(w, key, env);
    if !Acknowledged(r) && !M.NoRows(w.gauges, key) && GaugesShow(after.gauges, key, RowOf(after.routes[key].status)) {
      RowUnique(w.gauges, key, RowOf(after.routes[key].status), RowOf(w.routes[key].status));
    }
  }

  lemma FinalMirrorExactly(w: World, key: RouteKey, env: Env)
    requires Mirrors(w, key) && !Live(w.routes, key)
    ensures Mirrors(Pass(w, key, env).0, key) <==>
            M.NoRows(w.gauges, key) || !env.getOk || !env.finalizerUpdate.LostReply?
  {
    M.GaugeUpdates(w.gauges, key, NoPhase, M.UnknownState, 0);
  }

  /**
   "The gauges repeat the stored status" is false. A pass that finds it so leaves it so exactly if the Route
   has no gauges; or, while it lives, no reply to the status update is lost or the new status shows the same; or,
   while it is being deleted, no reply to the finalizer update is lost.
   */
  lemma MirrorKeptExactly(w: World, key: RouteKey, env: Env)
    requires AllSound(w.routes) && Mirrors(w, key)
    ensures var after := Pass(w, key, env).0;
            Mirrors(after, key) <==>
            || M.NoRows(w.gauges, key)
            || (if Live(w.routes, key)
                then !env.statusUpdate.LostReply?
                     || (key in after.routes && RowOf(after.routes[key].status) == RowOf(w.routes[key].status))
                else !env.getOk || !env.finalizerUpdate.LostReply?)
  {
    if Live(w.routes, key) { LiveMirrorExactly(w, key, env); } else { FinalMirrorExactly(w, key, env); }
  }

  /** No reply to an update of the Route or its status is lost on the way. */
  ghost predicate NoReplyLost(e: Event) {
    e.PassOver? ==> !e.env.finalizerUpdate.LostReply? && !e.env.statusUpdate.LostReply?
  }

  lemma MirrorsByEffect(w: World, after: World, key: RouteKey, now: int, other: RouteKey)
    requires Mirrors(w, other) && other != key && Effect(w, after, key, now)
    ensures Mirrors(after, other)
  {
    OtherRowsStay(w.gauges, after.gauges, key);
    M.SameRowsRead(after.gauges, w.gauges, other, NoPhase, M.UnknownState, 0);
    if other in w.routes {
      var row := RowOf(w.routes[other].status);
      M.SameRowsRead(after.gauges, w.gauges, other, row.phase, row.health, row.count);
    }
  }

  lemma NextMirrors(w: World, e: Event, key: RouteKey)
    requires AllSound(w.routes) && Mirrors(w, key) && NoReplyLost(e)
    ensures Mirrors(Next(w, e), key)
  {
    if e.PassOver? {
      if e.key == key {
        MirrorKeptExactly(w, key, e.env);
      } else {
        PassEffect(w, e.key, e.env);
        MirrorsByEffect(w, Next(w, e), e.key, e.env.now, key);
      }
    }
  }

  /**
   In every run in which no reply to an update is lost, the gauges of every Route are absent or repeat
   its stored phase, backend state and count, and a Route that is gone has none.
   */
  lemma {:induction false} GaugesMirrorStatus(events: seq<Event>, key: RouteKey)
    requires forall i :: 0 <= i < |events| ==> NoReplyLost(events[i])
    ensures Mirrors(After(EMPTY_WORLD, events), key)
  {
    if events != [] {
      var init := events[..|events| - 1];
      GaugesMirrorStatus(init, key);
      RunSound(init);
      NextMirrors(After(EMPTY_WORLD, init), events[|events| - 1], key);
    }
  }

  // ---------------------------------------------------------------- what a lost reply leaves behind

  /** Gauges or canary state are there for a Route that is not. */
  ghost predicate Leftover(w: World, key: RouteKey) {
    key !in w.routes && (!M.NoRows(w.gauges, key) || C.View(w.canary, C.KeyText(key)) != C.FRESH)
  }

  /**
   "Deletion clears gauges and canary state" is false: the pass that takes the finalizer off leaves
   what it had exactly when the update went through, nobody else holds the Route, and the reply was lost.
   */
  lemma LeftoverExactly(w: World, key: RouteKey, env: Env)
    requires key in w.routes && w.routes[key].deleting && w.routes[key].held
    requires !M.NoRows(w.gauges, key) || C.View(w.canary, C.KeyText(key)) != C.FRESH
    ensures Leftover(Pass(w, key, env).0, key) <==>
            env.getOk && env.finalizerUpdate.LostReply? && !w.routes[key].foreign
  {
    M.GaugeUpdates(w.gauges, key, NoPhase, M.UnknownState, 0);
  }

  ghost predicate Alike(a: World, b: World, key: RouteKey) {
    && (key !in a.routes && key !in b.routes)
    && M.SameRows(a.gauges, b.gauges, key)
    && C.View(a.canary, C.KeyText(key)) == C.View(b.canary, C.KeyText(key))
  }

  lemma NextAlike(w: World, e: Event, key: RouteKey)
    requires key !in w.routes && T.Free(key.ns, '/')
    requires !e.Restart? && !(e.CreateRoute? && e.key == key)
    requires e.PassOver? ==> T.Free(e.key.ns, '/')
    ensures Alike(Next(w, e), w, key)
  {
    if e.PassOver? && e.key != key {
      PassEffect(w, e.key, e.env);
      OtherRowsStay(w.gauges, Next(w, e).gauges, e.key);
      C.KeyTextInjective(e.key, key);
    }
  }

  /**
   And then they stay: until the process restarts or a Route of that name is created, which inherits
   them, no run of events changes them.
   */
  lemma {:induction false} LeftoverStays(w: World, events: seq<Event>, key: RouteKey)
    requires key !in w.routes && T.Free(key.ns, '/')
    requires forall i :: 0 <= i < |events| ==>
               && !events[i].Restart? && !(events[i].CreateRoute? && events[i].key == key)
               && (events[i].PassOver? ==> T.Free(events[i].key.ns, '/'))
    ensures Alike(After(w, events), w, key)
    ensures Leftover(w, key) ==> Leftover(After(w, events), key)
  {
    if events != [] {
      var init := events[..|events| - 1];
      LeftoverStays(w, init, key);
      NextAlike(After(w, init), events[|events| - 1], key);
    }
    M.SameRowsRead(After(w, events).gauges, w.gauges, key, NoPhase, M.UnknownState, 0);
  }
}
