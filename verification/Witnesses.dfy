/**
 Runs that show promises failing: two Routes of one name in two namespaces, on one gateway, each with
 authentication switched on. The time and the two hosts are free.
 */
module Witnesses {
  import opened RouteApi
  import opened ChildNames
  import opened ChildPass
  import opened Convergence
  import opened StaleChildren
  import opened Conflicts
  import opened Reconcile
  import opened ReconcileRuns
  import opened ProcessTables
  import B = BackendHealth
  import C = Canary
  import M = Metrics
  import O = Outcomes

  const APP_A := RouteKey("ns1", "app")
  const APP_B := RouteKey("ns2", "app")

  function AppSpec(host: string): Spec {
    Spec([Rule(host, "/", Backend("svc", 80, "HTTP"), None)], Some(false), "", "", None, None, None,
         Some(Auth("issuer", "", [], None)), None, None)
  }

  datatype Setting = Setting(now: int, hostA: string, hostB: string)

  /** Every call succeeds and every Service is ready. */
  function WellEnv(now: int): Env {
    Env(now, true, Done, kind => true, k => Done, Found([]), s => NotFound, true,
        s => Found(()), s => Found([1]), C.Answered(200), n => Done, Done, r => "")
  }

  /** The same, with no Service there. */
  function MissingEnv(now: int): Env {
    WellEnv(now).(services := s => NotFound)
  }

  /** The same again, with the reply to the status update lost. */
  function LostEnv(now: int): Env {
    MissingEnv(now).(statusUpdate := LostReply)
  }

  lemma WellIsWell(now: int, spec: Spec)
    ensures O.Unhindered(WellEnv(now)) && O.BackendsReady(spec, WellEnv(now)) &&
            forall n: nat :: WellEnv(now).childCalls(n).Done?
    ensures O.Unhindered(MissingEnv(now))
  {
    assert B.HasReadyEndpoints([1]) by { assert [1][0] > 0; }
  }

  lemma MissingIsMissing(now: int, spec: Spec)
    requires spec.rules != []
    ensures !O.BackendsReady(spec, MissingEnv(now))
  {
    assert B.Referred(spec.rules, spec.canary, spec.rules[0].backend.serviceName);
  }

  // ---------------------------------------------------------------- the two Routes

  /** Both Routes live, with their specs, and nothing else. */
  ghost predicate Duo(x: Setting, routes: Routes) {
    && x.hostA != x.hostB && AllSound(routes) && routes.Keys == {APP_A, APP_B}
    && !routes[APP_A].deleting && routes[APP_A].spec == AppSpec(x.hostA)
    && !routes[APP_B].deleting && routes[APP_B].spec == AppSpec(x.hostB)
  }

  lemma DuoSilent(x: Setting, routes: Routes, key: RouteKey)
    requires Duo(x, routes) && key in routes
    ensures !Conflicted(routes, routes[key])
  {
    assert forall id :: id in Claims(routes[APP_A]) ==> id.host == x.hostA;
    assert forall id :: id in Claims(routes[APP_B]) ==> id.host == x.hostB;
    assert DisjointClaims(routes);
    GuardSilentExactly(routes);
  }

  lemma DuoStays(x: Setting, w: World, key: RouteKey, env: Env)
    requires Duo(x, w.routes) && key in w.routes
    ensures Duo(x, Pass(w, key, env).0.routes)
  {
    PassEffect(w, key, env);
    PassSound(w, key, env);
  }

  /** Nothing fails and all backends of both are ready. */
  ghost predicate Well(x: Setting, env: Env) {
    && O.Unhindered(env) && (forall n: nat :: env.childCalls(n).Done?)
    && O.BackendsReady(AppSpec(x.hostA), env) && O.BackendsReady(AppSpec(x.hostB), env)
  }

  /** In a good environment either becomes Active. */
  lemma WellPass(x: Setting, w: World, key: RouteKey, env: Env)
    requires Duo(x, w.routes) && key in w.routes && Well(x, env)
    ensures Pass(w, key, env).1.outcome == Success
  {
    DuoSilent(x, w.routes, key);
    O.ActiveExactly(w, key, env);
  }

  /** The first Route is Active, its gauges say so, and its objects are there. */
  ghost predicate ServedA(x: Setting, w: World) {
    && Duo(x, w.routes) && w.routes[APP_A].held && w.routes[APP_A].status.phase == Active
    && GaugesShow(w.gauges, APP_A, RowOf(w.routes[APP_A].status))
    && InPlace(w.children, APP_A, AppSpec(x.hostA), None)
  }

  lemma ServeA(x: Setting, w: World, env: Env, after: World)
    requires Duo(x, w.routes) && Well(x, env)
    requires after == Pass(w, APP_A, env).0
    ensures ServedA(x, after)
  {
    WellPass(x, w, APP_A, env);
    DuoStays(x, w, APP_A, env);
    O.OutcomeMeans(w, APP_A, env);
    PassRow(w, APP_A, env);
  }

  lemma ServeB(x: Setting, w: World, env: Env, after: World)
    requires Duo(x, w.routes) && Well(x, env)
    requires after == Pass(w, APP_B, env).0
    ensures Duo(x, after.routes) && after.routes[APP_B].held
  {
    WellPass(x, w, APP_B, env);
    DuoStays(x, w, APP_B, env);
    O.OutcomeMeans(w, APP_B, env);
  }

  // ---------------------------------------------------------------- runs

  function Start(x: Setting): seq<Event> {
    [CreateRoute(APP_A, 1, AppSpec(x.hostA)), CreateRoute(APP_B, 2, AppSpec(x.hostB))]
  }

  lemma Then(events: seq<Event>, e: Event)
    ensures After(EMPTY_WORLD, events + [e]) == Next(After(EMPTY_WORLD, events), e)
  {
    assert (events + [e])[..|events|] == events;
  }

  lemma ThenPass(events: seq<Event>, key: RouteKey, env: Env)
    ensures After(EMPTY_WORLD, events + [PassOver(key, env)]) == Pass(After(EMPTY_WORLD, events), key, env).0
  {
    Then(events, PassOver(key, env));
  }

  /** The two Routes are created in an empty world. */
  lemma BothCreated(x: Setting)
    ensures var routes := Next(Next(EMPTY_WORLD, Start(x)[0]), Start(x)[1]).routes;
            && routes.Keys == {APP_A, APP_B}
            && !routes[APP_A].deleting && routes[APP_A].spec == AppSpec(x.hostA)
            && !routes[APP_B].deleting && routes[APP_B].spec == AppSpec(x.hostB)
  {
    assert APP_A.ns[2] != APP_B.ns[2];
  }

  lemma StartIsTwo(x: Setting)
    ensures After(EMPTY_WORLD, Start(x)) == Next(Next(EMPTY_WORLD, Start(x)[0]), Start(x)[1])
  {
    var a, b := Start(x)[0], Start(x)[1];
    Then([], a);
    Then([a], b);
    assert [] + [a] == [a] && [a] + [b] == Start(x);
  }

  lemma Started(x: Setting)
    requires x.hostA != x.hostB
    ensures Duo(x, After(EMPTY_WORLD, Start(x)).routes)
  {
    RunSound(Start(x));
    StartIsTwo(x);
    BothCreated(x);
  }

  /** A run reaches what a pass does to the world it has reached. */
  lemma ThenServeA(x: Setting, events: seq<Event>, env: Env)
    requires Duo(x, After(EMPTY_WORLD, events).routes) && Well(x, env)
    ensures ServedA(x, After(EMPTY_WORLD, events + [PassOver(APP_A, env)]))
  {
    ThenPass(events, APP_A, env);
    ServeA(x, After(EMPTY_WORLD, events), env, After(EMPTY_WORLD, events + [PassOver(APP_A, env)]));
  }

  lemma ThenServeB(x: Setting, events: seq<Event>, env: Env)
    requires Duo(x, After(EMPTY_WORLD, events).routes) && Well(x, env)
    ensures var w := After(EMPTY_WORLD, events + [PassOver(APP_B, env)]); Duo(x, w.routes) && w.routes[APP_B].held
  {
    ThenPass(events, APP_B, env);
    ServeB(x, After(EMPTY_WORLD, events), env, After(EMPTY_WORLD, events + [PassOver(APP_B, env)]));
  }

  // ---------------------------------------------------------------- an Active Route loses its Service

  function Served(x: Setting): seq<Event> {
    Start(x) + [PassOver(APP_A, WellEnv(x.now))]
  }

  lemma ServedWorld(x: Setting)
    requires x.hostA != x.hostB
    ensures ServedA(x, After(EMPTY_WORLD, Served(x)))
  {
    Started(x);
    WellIsWell(x.now, AppSpec(x.hostA));
    WellIsWell(x.now, AppSpec(x.hostB));
    ThenServeA(x, Start(x), WellEnv(x.now));
  }

  lemma MissA(x: Setting, w: World, env: Env, after: World)
    requires ServedA(x, w) && O.Unhindered(env) && !O.BackendsReady(AppSpec(x.hostA), env)
    requires after == Pass(w, APP_A, env).0
    ensures APP_A in after.routes && after.routes[APP_A].status.phase != Active
            && after.routes[APP_A].status.managedResources == 0
            && |OwnObjects(after.children, OwnerOf(APP_A, AppSpec(x.hostA)))| > 0
  {
    DuoSilent(x, w.routes, APP_A);
    O.BlockedExactly(w, APP_A, env);
    O.OutcomeMeans(w, APP_A, env);
    O.ServedHasObjects(APP_A, AppSpec(x.hostA), None, w.children);
  }

  lemma ThenMissA(x: Setting, events: seq<Event>, env: Env)
    requires ServedA(x, After(EMPTY_WORLD, events)) && O.Unhindered(env) && !O.BackendsReady(AppSpec(x.hostA), env)
    ensures var w := After(EMPTY_WORLD, events + [PassOver(APP_A, env)]);
            && APP_A in w.routes && w.routes[APP_A].status.phase != Active
            && w.routes[APP_A].status.managedResources == 0
            && |OwnObjects(w.children, OwnerOf(APP_A, AppSpec(x.hostA)))| > 0
  {
    ThenPass(events, APP_A, env);
    MissA(x, After(EMPTY_WORLD, events), env, After(EMPTY_WORLD, events + [PassOver(APP_A, env)]));
  }

  /** A reachable Route whose status counts nothing while its HTTPRoute and policies are there. */
  lemma BlockedButServed(x: Setting)
    requires x.hostA != x.hostB
    ensures var w := After(EMPTY_WORLD, Served(x) + [PassOver(APP_A, MissingEnv(x.now))]);
            && APP_A in w.routes && w.routes[APP_A].status.phase != Active
            && w.routes[APP_A].status.managedResources == 0
            && |OwnObjects(w.children, OwnerOf(APP_A, AppSpec(x.hostA)))| > 0
  {
    ServedWorld(x);
    WellIsWell(x.now, AppSpec(x.hostA));
    MissingIsMissing(x.now, AppSpec(x.hostA));
    ThenMissA(x, Served(x), MissingEnv(x.now));
  }

  // ---------------------------------------------------------------- a lost reply to the status update

  /** A pass over the first Route stores another phase than its gauges show. */
  ghost predicate Stale(w: World) {
    && APP_A in w.routes && w.routes[APP_A].status.phase == Pending
    && M.OneHot(w.gauges.phases, APP_A, Active, M.PHASE_VALUES)
    && !Mirrors(w, APP_A)
  }

  /** The environment blocks the Route for a missing Service and loses the reply. */
  ghost predicate Loses(x: Setting, env: Env) {
    && env.getOk && env.routesListed && env.statusUpdate.LostReply?
    && (forall route: Route :: !CertVerdictOf(route, env).CertError?)
    && !BackendsUnreadable(AppSpec(x.hostA), env)
    && |BackendSummary(AppSpec(x.hostA), env).missingServices| > 0
  }

  lemma LostLoses(x: Setting)
    ensures Loses(x, LostEnv(x.now))
  {
    var spec, env := AppSpec(x.hostA), LostEnv(x.now);
    B.ReferencesContain(spec.rules, None, 0, 0);
    assert "svc" in B.References(spec.rules, None) && B.Missing(env.services, "svc");
    assert "svc" in BackendSummary(spec, env).missingServices;
  }

  lemma LostBlock(w: World, route: Route, env: Env)
    requires APP_A in w.routes && !CertVerdictOf(route, env).CertError? && env.statusUpdate.LostReply?
    ensures var after := Block(w, APP_A, route, Pending, BackendServiceMissing, env).0;
            APP_A in after.routes && after.routes[APP_A].status.phase == Pending && after.gauges == w.gauges
  {
  }

  lemma LoseA(x: Setting, w: World, env: Env, after: World)
    requires ServedA(x, w) && Loses(x, env)
    requires after == Pass(w, APP_A, env).0
    ensures Stale(after)
  {
    var route := w.routes[APP_A];
    DuoSilent(x, w.routes, APP_A);
    LostBlock(w, route, env);
    assert LivePass(w, APP_A, route, env).0 == Block(w, APP_A, route, Pending, BackendServiceMissing, env).0;
    RowUnique(w.gauges, APP_A, RowOf(route.status), RowOf(route.status));
    if Mirrors(after, APP_A) {
      RowUnique(after.gauges, APP_A, RowOf(route.status), RowOf(after.routes[APP_A].status));
    }
  }

  lemma ThenLoseA(x: Setting, events: seq<Event>, env: Env)
    requires ServedA(x, After(EMPTY_WORLD, events)) && Loses(x, env)
    ensures Stale(After(EMPTY_WORLD, events + [PassOver(APP_A, env)]))
  {
    ThenPass(events, APP_A, env);
    LoseA(x, After(EMPTY_WORLD, events), env, After(EMPTY_WORLD, events + [PassOver(APP_A, env)]));
  }

  /** A reachable world in which the store says Pending and the gauges still say Active. */
  lemma StaleGauges(x: Setting)
    requires x.hostA != x.hostB
    ensures Stale(After(EMPTY_WORLD, Served(x) + [PassOver(APP_A, LostEnv(x.now))]))
  {
    ServedWorld(x);
    LostLoses(x);
    ThenLoseA(x, Served(x), LostEnv(x.now));
  }

  // ---------------------------------------------------------------- a namesake is deleted

  /** The second Route is reconciled, then the first, then the second is deleted. */
  function Gone(x: Setting): seq<Event> {
    var well := WellEnv(x.now);
    Start(x) + [PassOver(APP_B, well)] + [PassOver(APP_A, well)] + [DeleteRoute(APP_B)] + [PassOver(APP_B, well)]
  }

  /** The RequestAuthentication both Routes write. */
  lemma SharedPolicy(x: Setting, children: Store)
    requires InPlace(children, APP_A, AppSpec(x.hostA), None)
    ensures var k := KeyOf(APP_A, "istio-system", Jwt);
            && k in Desired(OwnerOf(APP_A, AppSpec(x.hostA)), PassOps(APP_A, AppSpec(x.hostA), None))
            && k in children && children[k].routeLabel == Some("app")
  {
    var owner, ops := OwnerOf(APP_A, AppSpec(x.hostA)), PassOps(APP_A, AppSpec(x.hostA), None);
    TouchedExactly(APP_A, AppSpec(x.hostA), None, Jwt);
    PassOpsApart(APP_A, AppSpec(x.hostA), None);
    DesiredIsPut(owner, ops, SlotKey(owner, Jwt));
  }

  /** The first Route is Active, but an object it asks for is gone. */
  ghost predicate Robbed(x: Setting, w: World) {
    && APP_A in w.routes && w.routes[APP_A].status.phase == Active
    && KeyOf(APP_A, "istio-system", Jwt) !in w.children
    && !InPlace(w.children, APP_A, AppSpec(x.hostA), None)
  }

  ghost predicate Doomed(x: Setting, w: World) {
    && APP_A in w.routes && w.routes[APP_A].status.phase == Active
    && InPlace(w.children, APP_A, AppSpec(x.hostA), None)
    && APP_B in w.routes && w.routes[APP_B].held && w.routes[APP_B].deleting && w.routes[APP_B].spec == AppSpec(x.hostB)
  }

  lemma TakesPolicy(x: Setting, w: World, env: Env, after: World)
    requires Doomed(x, w) && env.getOk && env.cleanupLists(RequestAuthenticationKind)
    requires env.cleanupDeletes(KeyOf(APP_A, "istio-system", Jwt)).Done?
    requires after == Pass(w, APP_B, env).0
    ensures KeyOf(APP_A, "istio-system", Jwt) !in after.children
  {
    SharedPolicy(x, w.children);
    O.DeletionMeans(w, APP_B, env);
    assert O.CleanedUp(w, APP_B, "istio-system", env, KeyOf(APP_A, "istio-system", Jwt));
  }

  lemma FinalizeB(x: Setting, w: World, env: Env, after: World)
    requires Doomed(x, w) && env.getOk && env.cleanupLists(RequestAuthenticationKind)
    requires env.cleanupDeletes(KeyOf(APP_A, "istio-system", Jwt)).Done?
    requires after == Pass(w, APP_B, env).0
    ensures Robbed(x, after)
  {
    TakesPolicy(x, w, env, after);
    PassEffect(w, APP_B, env);
    assert APP_A.ns[2] != APP_B.ns[2];
    if InPlace(after.children, APP_A, AppSpec(x.hostA), None) { SharedPolicy(x, after.children); }
  }

  lemma ThenDelete(x: Setting, events: seq<Event>)
    requires ServedA(x, After(EMPTY_WORLD, events)) && After(EMPTY_WORLD, events).routes[APP_B].held
    ensures Doomed(x, After(EMPTY_WORLD, events + [DeleteRoute(APP_B)]))
  {
    Then(events, DeleteRoute(APP_B));
    assert APP_A.ns[2] != APP_B.ns[2];
  }

  lemma ThenFinalizeB(x: Setting, events: seq<Event>, env: Env)
    requires Doomed(x, After(EMPTY_WORLD, events)) && env.getOk && env.cleanupLists(RequestAuthenticationKind)
    requires env.cleanupDeletes(KeyOf(APP_A, "istio-system", Jwt)).Done?
    ensures Robbed(x, After(EMPTY_WORLD, events + [PassOver(APP_B, env)]))
  {
    ThenPass(events, APP_B, env);
    FinalizeB(x, After(EMPTY_WORLD, events), env, After(EMPTY_WORLD, events + [PassOver(APP_B, env)]));
  }

  /** A pass over the first Route leaves the second one's finalizer alone. */
  lemma ThenBHeld(x: Setting, events: seq<Event>, env: Env)
    requires Duo(x, After(EMPTY_WORLD, events).routes) && After(EMPTY_WORLD, events).routes[APP_B].held
    ensures var w := After(EMPTY_WORLD, events + [PassOver(APP_A, env)]); APP_B in w.routes && w.routes[APP_B].held
  {
    ThenPass(events, APP_A, env);
    PassEffect(After(EMPTY_WORLD, events), APP_A, env);
    assert APP_A.ns[2] != APP_B.ns[2];
  }

  /**
   A Route is deleted, and with it goes the RequestAuthentication of its namesake in another namespace, which is
   untouched and still Active.
   */
  lemma NamesakeDeletion(x: Setting)
    requires x.hostA != x.hostB
    ensures Robbed(x, After(EMPTY_WORLD, Gone(x)))
  {
    var well := WellEnv(x.now);
    Started(x);
    WellIsWell(x.now, AppSpec(x.hostA));
    WellIsWell(x.now, AppSpec(x.hostB));
    ThenServeB(x, Start(x), well);
    ThenServeA(x, Start(x) + [PassOver(APP_B, well)], well);
    ThenBHeld(x, Start(x) + [PassOver(APP_B, well)], well);
    ThenDelete(x, Start(x) + [PassOver(APP_B, well)] + [PassOver(APP_A, well)]);
    ThenFinalizeB(x, Start(x) + [PassOver(APP_B, well)] + [PassOver(APP_A, well)] + [DeleteRoute(APP_B)], well);
  }
}
