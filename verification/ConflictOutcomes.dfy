/**
 Which Routes end up blocked by conflicts: it depends on the Routes alone, not on the order in
 which they are reconciled, nor on what else happens to the passes.
 */
module ConflictOutcomes {
  import opened RouteApi
  import opened Conflicts
  import opened RouteStatus
  import opened Reconcile
  import opened ReconcileRuns
  import ChildPass
  import B = BackendHealth
  import O = Outcomes

  /** The persisted verdict of the guard. */
  ghost predicate BlockedByConflict(st: Status) {
    Tuple(st, Degraded, IsFalse, RouteConflict, RouteConflict)
  }

  // ---------------------------------------------------------------- the verdict of one pass

  lemma JudgedConflict(route: Route, c: Condition, j: Judgement, now: int)
    requires UniqueTypes(route.status.conditions) && c.ctype == CertificateHealth && ProperJudgement(j)
    ensures BlockedByConflict(Judged(SetStatus(route.status, c), j, now, route.generation)) <==>
            j.Blocked? && j.reason == RouteConflict
  {
    ConditionSet(route.status.conditions, c);
    JudgedIsPersistable(SetStatus(route.status, c), j, now, route.generation);
  }

  /** The pass persists a verdict: blocked by a conflict or not. */
  ghost predicate Verdict(after: World, key: RouteKey, blocked: bool) {
    key in after.routes && (BlockedByConflict(after.routes[key].status) <==> blocked)
  }

  lemma BlockVerdict(w: World, key: RouteKey, route: Route, phase: Phase, reason: Reason, env: Env)
    requires key in w.routes && UniqueTypes(route.status.conditions) && O.Unhindered(env)
    requires !CertVerdictOf(route, env).CertError? && ProperJudgement(Blocked(phase, reason, env.texts(reason)))
    ensures Verdict(Block(w, key, route, phase, reason, env).0, key, reason == RouteConflict)
  {
    var c := CertCondition(route, env);
    JudgedConflict(route, c, Blocked(phase, reason, env.texts(reason)), env.now);
  }

  lemma ServeVerdict(w: World, key: RouteKey, route: Route, env: Env)
    requires key in w.routes && UniqueTypes(route.status.conditions) && O.Unhindered(env)
    requires !CertVerdictOf(route, env).CertError?
    ensures Verdict(Serve(w, key, route, env).0, key, false)
  {
    SettleVerdict(w.(canary := CanaryStep(w, key, route.spec, env).0), key, route,
                  ChildrenEnd(w, key, route.spec, env), env);
  }

  lemma SettleVerdict(w: World, key: RouteKey, route: Route, end: ChildPass.PassState, env: Env)
    requires key in w.routes && UniqueTypes(route.status.conditions) && O.Unhindered(env)
    requires !CertVerdictOf(route, env).CertError?
    ensures Verdict(Settle(w, key, route, end, env).0, key, false)
  {
    var c := CertCondition(route, env);
    JudgedConflict(route, c, Finished(end.failed, |end.written|, env.texts(ReconcileError)), env.now);
  }

  lemma LiveVerdict(w: World, key: RouteKey, route: Route, env: Env)
    requires key in w.routes && UniqueTypes(route.status.conditions) && O.Unhindered(env)
    ensures Verdict(LivePass(w, key, route, env).0, key, Conflicted(w.routes, route))
  {
    O.NoCertError(route, env);
    O.ReadableBackends(route.spec, env);
    if Conflicted(w.routes, route) {
      BlockVerdict(w, key, route, Degraded, RouteConflict, env);
    } else if !BackendSummary(route.spec, env).AllReady() {
      var (phase, reason) := B.BlockedPhase(BackendSummary(route.spec, env));
      BlockVerdict(w, key, route, phase, reason, env);
    } else {
      ServeVerdict(w, key, route, env);
    }
  }

  /** A pass over a live Route persists the guard's verdict on the Routes as they are. */
  lemma PassVerdict(w: World, key: RouteKey, env: Env)
    requires AllSound(w.routes) && Live(w.routes, key) && O.Unhindered(env)
    ensures Verdict(Pass(w, key, env).0, key, Conflicted(w.routes, w.routes[key]))
  {
    var route := w.routes[key];
    if route.held {
      LiveVerdict(w, key, route, env);
    } else {
      var held := route.(held := true);
      O.ConflictedIgnoresFinalizers(w.routes, key, held);
      LiveVerdict(w.(routes := w.routes[key := held]), key, held, env);
    }
  }

  // ---------------------------------------------------------------- passes do not move claims

  /** The same live Routes, with the same age and spec. */
  ghost predicate SameClaimants(a: Routes, b: Routes) {
    forall k :: (Live(a, k) <==> Live(b, k)) &&
      (Live(a, k) ==> a[k].key == b[k].key && a[k].created == b[k].created && a[k].spec == b[k].spec)
  }

  lemma SameClaimantsBlocks(a: Routes, b: Routes, k: RouteKey)
    requires SameClaimants(a, b) && Live(a, k) && Conflicted(a, a[k])
    ensures Conflicted(b, b[k])
  {
    var j :| j in a && Blocks(a[j], a[k]);
    assert Live(a, j);
    SameSpecSameClaims(a[j], b[j]);
    SameSpecSameClaims(a[k], b[k]);
    assert Blocks(b[j], b[k]);
  }

  lemma SameClaimantsConflicted(a: Routes, b: Routes, k: RouteKey)
    requires SameClaimants(a, b) && Live(a, k)
    ensures Conflicted(a, a[k]) <==> Conflicted(b, b[k])
  {
    assert Live(b, k);
    if Conflicted(a, a[k]) { SameClaimantsBlocks(a, b, k); }
    if Conflicted(b, b[k]) { SameClaimantsBlocks(b, a, k); }
  }

  lemma ClaimantsByEffect(w: World, after: World, key: RouteKey, now: int)
    requires Effect(w, after, key, now)
    ensures SameClaimants(w.routes, after.routes)
  {
  }

  // ---------------------------------------------------------------- any order of passes

  /** Passes only, each reading what it asks for; writes of children may still fail. */
  ghost predicate Passes(events: seq<Event>) {
    forall i :: 0 <= i < |events| ==> events[i].PassOver? && O.Unhindered(events[i].env)
  }

  ghost predicate Covers(events: seq<Event>, k: RouteKey) {
    exists i :: 0 <= i < |events| && events[i].PassOver? && events[i].key == k
  }

  /** What any pass leaves as it is. */
  lemma EffectFrame(w: World, after: World, key: RouteKey, now: int, k: RouteKey)
    requires AllSound(w.routes) && Effect(w, after, key, now)
    ensures SameClaimants(w.routes, after.routes) && AllSound(after.routes)
    ensures key != k && k in w.routes ==> k in after.routes && after.routes[k] == w.routes[k]
  {
    ClaimantsByEffect(w, after, key, now);
    SoundByEffect(w, after, key, now);
  }

  lemma PassFrameAndVerdict(w: World, key: RouteKey, env: Env, k: RouteKey)
    requires AllSound(w.routes) && Live(w.routes, k) && O.Unhindered(env)
    ensures SameClaimants(w.routes, Pass(w, key, env).0.routes) && AllSound(Pass(w, key, env).0.routes)
    ensures key == k ==> Verdict(Pass(w, key, env).0, k, Conflicted(w.routes, w.routes[k]))
    ensures key != k ==> k in Pass(w, key, env).0.routes && Pass(w, key, env).0.routes[k] == w.routes[k]
  {
    PassEffect(w, key, env);
    EffectFrame(w, Pass(w, key, env).0, key, env.now, k);
    if key == k {
      PassVerdict(w, k, env);
    }
  }

  lemma OutcomeStep(w: World, mid: World, e: Event, k: RouteKey)
    requires AllSound(mid.routes) && SameClaimants(w.routes, mid.routes) && Live(w.routes, k)
    requires e.PassOver? && O.Unhindered(e.env)
    ensures SameClaimants(w.routes, Next(mid, e).routes) && AllSound(Next(mid, e).routes)
    ensures e.key == k ==> Verdict(Next(mid, e), k, Conflicted(w.routes, w.routes[k]))
    ensures e.key != k ==> k in Next(mid, e).routes && Next(mid, e).routes[k] == mid.routes[k]
  {
    assert Live(mid.routes, k);
    PassFrameAndVerdict(mid, e.key, e.env, k);
    SameClaimantsConflicted(w.routes, mid.routes, k);
    SameClaimantsTransitive(w.routes, mid.routes, Next(mid, e).routes);
  }

  lemma SameClaimantsTransitive(a: Routes, b: Routes, c: Routes)
    requires SameClaimants(a, b) && SameClaimants(b, c)
    ensures SameClaimants(a, c)
  {
  }

  lemma CoversLast(events: seq<Event>, k: RouteKey)
    requires events != [] && Covers(events, k)
    ensures Covers([events[|events| - 1]], k) || Covers(events[..|events| - 1], k)
  {
    var i :| 0 <= i < |events| && events[i].PassOver? && events[i].key == k;
    if i < |events| - 1 { assert events[..|events| - 1][i] == events[i]; } else { assert [events[i]][0].key == k; }
  }

  /** After any passes, a live Route among them is marked as conflicting exactly if it was conflicted at the start. */
  lemma {:induction false} ConflictOutcome(w: World, events: seq<Event>, k: RouteKey)
    requires AllSound(w.routes) && Live(w.routes, k) && Passes(events)
    ensures AllSound(After(w, events).routes) && SameClaimants(w.routes, After(w, events).routes)
    ensures Live(After(w, events).routes, k)
    ensures Covers(events, k) ==> Verdict(After(w, events), k, Conflicted(w.routes, w.routes[k]))
  {
    if events != [] {
      var init, e := events[..|events| - 1], events[|events| - 1];
      ConflictOutcome(w, init, k);
      OutcomeStep(w, After(w, init), e, k);
      if Covers(events, k) {
        CoversLast(events, k);
      }
    }
  }

  /** Order does not matter: any two sequences of passes that cover a Route agree on whether it conflicts. */
  lemma OrderIndependentConflicts(w: World, a: seq<Event>, b: seq<Event>, k: RouteKey)
    requires AllSound(w.routes) && Live(w.routes, k)
    requires Passes(a) && Passes(b) && Covers(a, k) && Covers(b, k)
    ensures Live(After(w, a).routes, k) && Live(After(w, b).routes, k)
    ensures BlockedByConflict(After(w, a).routes[k].status) <==> BlockedByConflict(After(w, b).routes[k].status)
  {
    ConflictOutcome(w, a, k);
    ConflictOutcome(w, b, k);
  }

  /** Once both are reconciled, no two live Routes in phase Active claim a common identity. */
  lemma ActiveRoutesDisjoint(w: World, events: seq<Event>, a: RouteKey, b: RouteKey)
    requires AllSound(w.routes) && Live(w.routes, a) && Live(w.routes, b) && a != b
    requires Passes(events) && Covers(events, a) && Covers(events, b)
    ensures Live(After(w, events).routes, a) && Live(After(w, events).routes, b)
    ensures var after := After(w, events).routes;
            after[a].status.phase == Active && after[b].status.phase == Active ==>
              Claims(after[a]) * Claims(after[b]) == {}
  {
    ConflictOutcome(w, events, a);
    ConflictOutcome(w, events, b);
    var after := After(w, events).routes;
    SameSpecSameClaims(after[a], w.routes[a]);
    SameSpecSameClaims(after[b], w.routes[b]);
    if Claims(w.routes[a]) * Claims(w.routes[b]) != {} {
      OneSideBlocked(w.routes[a], w.routes[b]);
      assert Conflicted(w.routes, w.routes[a]) || Conflicted(w.routes, w.routes[b]);
    }
  }
}
