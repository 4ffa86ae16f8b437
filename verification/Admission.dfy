/**
 The admission webhook: defaulting, the conflict check on create and update, and what serialised
 admission guarantees. Every update passes it, the controller's finalizer updates included.
 */
module Admission {
  import opened RouteApi
  import opened Hostnames
  import opened Conflicts

  // ---------------------------------------------------------------- defaulting

  /** `gatewayRefFromSpec`. */
  function GatewayRefFromSpec(gateway: Option<Gateway>): Gateway {
    var name, ns := DEFAULT_GATEWAY_NAME, DEFAULT_GATEWAY_NAMESPACE;
    match gateway
    case None => Gateway(name, ns)
    case Some(g) => Gateway(if g.name != "" then g.name else name, if g.ns != "" then g.ns else ns)
  }

  function BuildRuleIdentity(route: Route, rule: Rule): Identity {
    var gw := GatewayRefFromSpec(route.spec.gateway);
    Identity(gw.ns, gw.name, rule.host, NormalizePath(rule.path))
  }

  function Defaulted(route: Route): Route {
    route.(spec := route.spec.(gateway := Some(GatewayRefFromSpec(route.spec.gateway))))
  }

  class AdmittedObject {
    var route: Route

    constructor (r: Route)
      ensures route == r
    {
      route := r;
    }

    /** `Default`, field by field. */
    method Default()
      modifies this
      ensures route == Defaulted(old(route))
    {
      var gateway := if route.spec.gateway.None? then Gateway("", "") else route.spec.gateway.value;
      if gateway.name == "" {
        gateway := gateway.(name := "istio-gateway");
      }
      if gateway.ns == "" {
        gateway := gateway.(ns := "istio-system");
      }
      route := route.(spec := route.spec.(gateway := Some(gateway)));
    }
  }

  /** The webhook and the controller compute the same claims, and defaulting does not move them. */
  lemma IdentitiesAgree(route: Route)
    ensures forall i :: 0 <= i < |route.spec.rules| ==>
              BuildRuleIdentity(route, route.spec.rules[i]) == RuleIdentity(route, route.spec.rules[i])
    ensures Claims(Defaulted(route)) == Claims(route)
    ensures Defaulted(Defaulted(route)) == Defaulted(route)
  {
    var d := Defaulted(route);
    assert d.spec.rules == route.spec.rules;
    assert forall i :: 0 <= i < |route.spec.rules| ==>
      RuleIdentity(d, d.spec.rules[i]) == RuleIdentity(route, route.spec.rules[i]);
  }

  // ---------------------------------------------------------------- the conflict check

  predicate Collides(other: Route, route: Route) {
    other.key != route.key && !other.deleting && Claims(other) * Claims(route) != {}
  }

  /** One error per colliding Route, in list order. */
  function CollidingKeys(all: seq<Route>, route: Route): seq<RouteKey> {
    if all == [] then []
    else
      CollidingKeys(all[..|all| - 1], route) +
      if Collides(all[|all| - 1], route) then [all[|all| - 1].key] else []
  }

  method ValidateRouteConflicts(all: seq<Route>, route: Route) returns (errors: seq<RouteKey>)
    ensures errors == CollidingKeys(all, route)
  {
    var currentRules: set<Identity> := {};
    IdentitiesAgree(route);
    for i := 0 to |route.spec.rules|
      invariant currentRules == set j | 0 <= j < i :: RuleIdentity(route, route.spec.rules[j])
    {
      currentRules := currentRules + {BuildRuleIdentity(route, route.spec.rules[i])};
    }
    errors := [];
    for i := 0 to |all|
      invariant errors == CollidingKeys(all[..i], route)
    {
      var other := all[i];
      IdentitiesAgree(other);
      assert all[..i + 1][..i] == all[..i];
      if other.key != route.key && !other.deleting {
        var j := 0;
        while j < |other.spec.rules|
          invariant 0 <= j <= |other.spec.rules|
          invariant forall m :: 0 <= m < j ==> BuildRuleIdentity(other, other.spec.rules[m]) !in currentRules
        {
          if BuildRuleIdentity(other, other.spec.rules[j]) in currentRules {
            break;
          }
          j := j + 1;
        }
        if j < |other.spec.rules| {
          assert BuildRuleIdentity(other, other.spec.rules[j]) in Claims(other) * Claims(route);
          errors := errors + [other.key];
        }
      }
    }
    assert all[..|all|] == all;
  }

  lemma {:induction false} NoErrorsExactly(all: seq<Route>, route: Route)
    ensures CollidingKeys(all, route) == [] <==> forall i :: 0 <= i < |all| ==> !Collides(all[i], route)
  {
    if all != [] {
      NoErrorsExactly(all[..|all| - 1], route);
      assert forall i :: 0 <= i < |all| - 1 ==> all[i] == all[..|all| - 1][i];
      if CollidingKeys(all, route) == [] {
        assert CollidingKeys(all[..|all| - 1], route) == [];
      }
    }
  }

  // ---------------------------------------------------------------- serialised admission

  datatype Server = Server(routes: Routes, gateways: map<Gateway, seq<Listener>>)

  const EMPTY_SERVER := Server(map[], map[])

  datatype Request =
    | CreateRoute(key: RouteKey, created: int, spec: Spec)
    | UpdateRoute(key: RouteKey, spec: Spec)
    | DeleteRoute(key: RouteKey)
    | HoldRoute(key: RouteKey)      // the controller adds its finalizer
    | ReleaseRoute(key: RouteKey)   // the controller takes it off
    | SetGateway(gateway: Gateway, listeners: seq<Listener>)
    | RemoveGateway(gateway: Gateway)

  ghost predicate HostsPass(s: Server, route: Route) {
    var gw := GatewayRefFromSpec(route.spec.gateway);
    HostCheck(if gw in s.gateways then Found(s.gateways[gw]) else NotFound, route.spec.rules).HostsAccepted?
  }

  ghost predicate NoCollision(s: Server, route: Route) {
    forall k :: k in s.routes ==> !Collides(s.routes[k], route)
  }

  ghost predicate Admitted(s: Server, route: Route) {
    HostsPass(s, route) && NoCollision(s, route)
  }

  /** A write that was admitted; a deleted Route without finalizers disappears. */
  ghost function Commit(s: Server, route: Route): Server {
    if route.deleting && !route.held && !route.foreign
    then s.(routes := s.routes - {route.key})
    else s.(routes := s.routes[route.key := route])
  }

  ghost function Submit(s: Server, route: Route): Server {
    if Admitted(s, Defaulted(route)) then Commit(s, Defaulted(route)) else s
  }

  ghost function Serve(s: Server, r: Request): Server {
    match r
    case CreateRoute(key, created, spec) =>
      if key in s.routes then s
      else Submit(s, Route(key, created, 1, false, false, false, spec, NEW_STATUS))
    case UpdateRoute(key, spec) =>
      if key !in s.routes then s
      else Submit(s, s.routes[key].(spec := spec, generation := s.routes[key].generation + 1))
    case DeleteRoute(key) =>
      if key !in s.routes then s else Commit(s, s.routes[key].(deleting := true))
    case HoldRoute(key) =>
      if key !in s.routes || s.routes[key].deleting then s else Submit(s, s.routes[key].(held := true))
    case ReleaseRoute(key) =>
      if key !in s.routes then s else Submit(s, s.routes[key].(held := false))
    case SetGateway(gateway, listeners) => s.(gateways := s.gateways[gateway := listeners])
    case RemoveGateway(gateway) => s.(gateways := s.gateways - {gateway})
  }

  ghost function ServeAll(s: Server, requests: seq<Request>): Server {
    if requests == [] then s else Serve(ServeAll(s, requests[..|requests| - 1]), requests[|requests| - 1])
  }

  ghost predicate Exclusive(s: Server) {
    Keyed(s.routes) && DisjointClaims(s.routes)
  }

  lemma SubmitExclusive(s: Server, route: Route)
    requires Exclusive(s)
    ensures Exclusive(Submit(s, route))
  {
    var after, d := Submit(s, route), Defaulted(route);
    forall a, b | Live(after.routes, a) && Live(after.routes, b) && a != b
      ensures Claims(after.routes[a]) * Claims(after.routes[b]) == {}
    {
      if a == d.key && after.routes[a] == d && after != s {
        assert !Collides(s.routes[b], d);
      } else if b == d.key && after.routes[b] == d && after != s {
        assert !Collides(s.routes[a], d);
        assert Claims(s.routes[a]) * Claims(d) == Claims(d) * Claims(s.routes[a]);
      }
    }
  }

  lemma DeleteExclusive(s: Server, key: RouteKey)
    requires Exclusive(s) && key in s.routes
    ensures Exclusive(Commit(s, s.routes[key].(deleting := true)))
  {
  }

  lemma ServeExclusive(s: Server, r: Request)
    requires Exclusive(s)
    ensures Exclusive(Serve(s, r))
  {
    match r
    case CreateRoute(key, created, spec) =>
      SubmitExclusive(s, Route(key, created, 1, false, false, false, spec, NEW_STATUS));
    case UpdateRoute(key, spec) =>
      if key in s.routes {
        SubmitExclusive(s, s.routes[key].(spec := spec, generation := s.routes[key].generation + 1));
      }
    case DeleteRoute(key) => if key in s.routes { DeleteExclusive(s, key); }
    case HoldRoute(key) => if key in s.routes { SubmitExclusive(s, s.routes[key].(held := true)); }
    case ReleaseRoute(key) => if key in s.routes { SubmitExclusive(s, s.routes[key].(held := false)); }
    case _ =>
  }

  /**
   Admission invariant: after any serialised requests the claims of distinct live Routes are disjoint,
   and the runtime guard reports no conflict for any live Route.
   */
  lemma {:induction false} AdmissionKeepsExclusive(requests: seq<Request>)
    ensures var s := ServeAll(EMPTY_SERVER, requests);
            && Exclusive(s)
            && forall k :: Live(s.routes, k) ==> !Conflicted(s.routes, s.routes[k])
  {
    if requests != [] {
      AdmissionKeepsExclusive(requests[..|requests| - 1]);
      ServeExclusive(ServeAll(EMPTY_SERVER, requests[..|requests| - 1]), requests[|requests| - 1]);
    }
    GuardSilentExactly(ServeAll(EMPTY_SERVER, requests).routes);
  }

  // ---------------------------------------------------------------- admission and the finalizer

  ghost predicate Finalizing(s: Server, key: RouteKey) {
    key in s.routes && s.routes[key].deleting && s.routes[key].held
  }

  /** The Gateway is there and takes the hosts, and no other live Route claims the same. */
  ghost predicate Welcome(s: Server, route: Route) {
    var gw := GatewayNamed(route.spec);
    && gw in s.gateways
    && (forall i :: 0 <= i < |route.spec.rules| ==> TakesHost(s.gateways[gw], route.spec.rules[i].host))
    && forall k :: k != route.key && Live(s.routes, k) ==> Claims(s.routes[k]) * Claims(route) == {}
  }

  lemma WelcomeExactly(s: Server, route: Route)
    requires Keyed(s.routes)
    ensures Admitted(s, Defaulted(route)) <==> Welcome(s, route)
    ensures Defaulted(route) == route.(spec := route.spec.(gateway := Some(GatewayNamed(route.spec))))
  {
    var gw := GatewayNamed(route.spec);
    IdentitiesAgree(route);
    HostCheckExactly(if gw in s.gateways then Found(s.gateways[gw]) else NotFound, route.spec.rules);
    assert GatewayRefFromSpec(Defaulted(route).spec.gateway) == gw;
    forall k | k in s.routes
      ensures Collides(s.routes[k], Defaulted(route)) <==>
              k != route.key && Live(s.routes, k) && Claims(s.routes[k]) * Claims(route) != {}
    {
    }
  }

  /**
   A Route is created exactly if it is welcome, and then stored with its Gateway filled in and otherwise as it was
   sent; nothing else changes.
   */
  lemma CreatedExactly(s: Server, key: RouteKey, created: int, spec: Spec)
    requires Keyed(s.routes) && key !in s.routes
    ensures var route := Route(key, created, 1, false, false, false, spec, NEW_STATUS);
            Serve(s, CreateRoute(key, created, spec)) ==
            if Welcome(s, route)
            then s.(routes := s.routes[key := route.(spec := spec.(gateway := Some(GatewayNamed(spec))))])
            else s
  {
    WelcomeExactly(s, Route(key, created, 1, false, false, false, spec, NEW_STATUS));
  }

  /** So is an edit, judged by the new spec; the Route keeps everything else. */
  lemma EditedExactly(s: Server, key: RouteKey, spec: Spec)
    requires Keyed(s.routes) && Live(s.routes, key)
    ensures var route := s.routes[key].(spec := spec, generation := s.routes[key].generation + 1);
            Serve(s, UpdateRoute(key, spec)) ==
            if Welcome(s, route)
            then s.(routes := s.routes[key := route.(spec := spec.(gateway := Some(GatewayNamed(spec))))])
            else s
  {
    WelcomeExactly(s, s.routes[key].(spec := spec, generation := s.routes[key].generation + 1));
  }

  /**
   "A Route being deleted goes away once its cleanup has run" is false: taking the finalizer off is an
   update, and it is admitted exactly when the Gateway still exists and admits the Route's hosts, and no
   live Route has meanwhile claimed one of its identities.
   */
  lemma ReleaseAdmittedExactly(s: Server, key: RouteKey)
    requires Keyed(s.routes) && Finalizing(s, key)
    ensures !Finalizing(Serve(s, ReleaseRoute(key)), key) <==> Welcome(s, s.routes[key])
  {
    var route := s.routes[key].(held := false);
    WelcomeExactly(s, route);
    SameSpecSameClaims(route, s.routes[key]);
  }

  /** Requests that neither edit `a` and `b` nor delete `b`. */
  ghost predicate LeavesAlone(r: Request, a: RouteKey, b: RouteKey) {
    !(r.UpdateRoute? && (r.key == a || r.key == b)) && !(r.DeleteRoute? && r.key == b)
  }

  ghost predicate Rivals(s: Server, a: RouteKey, b: RouteKey, id: Identity) {
    && Keyed(s.routes) && Finalizing(s, a) && Live(s.routes, b)
    && id in Claims(s.routes[a]) && id in Claims(s.routes[b])
  }

  /** A request about one stored Route leaves the others as they are. */
  lemma OthersUntouched(s: Server, r: Request, k: RouteKey)
    requires Keyed(s.routes) && k in s.routes
    requires r.SetGateway? || r.RemoveGateway? || r.CreateRoute? || r.key != k
    ensures k in Serve(s, r).routes && Serve(s, r).routes[k] == s.routes[k]
  {
  }

  lemma KeyedStays(s: Server, r: Request)
    requires Keyed(s.routes)
    ensures Keyed(Serve(s, r).routes)
  {
  }

  lemma LiveRivalStays(s: Server, r: Request, b: RouteKey, id: Identity)
    requires Keyed(s.routes) && Live(s.routes, b) && id in Claims(s.routes[b])
    requires (r.HoldRoute? || r.ReleaseRoute?) && r.key == b
    ensures Live(Serve(s, r).routes, b) && id in Claims(Serve(s, r).routes[b])
  {
    var route := s.routes[b].(held := r.HoldRoute?);
    SameSpecSameClaims(route, s.routes[b]);
    IdentitiesAgree(route);
  }

  lemma RivalsStay(s: Server, r: Request, a: RouteKey, b: RouteKey, id: Identity)
    requires Rivals(s, a, b, id) && LeavesAlone(r, a, b)
    ensures Rivals(Serve(s, r), a, b, id)
  {
    KeyedStays(s, r);
    if r.SetGateway? || r.RemoveGateway? || r.CreateRoute? || (r.key != a && r.key != b) {
      OthersUntouched(s, r, a);
      OthersUntouched(s, r, b);
    } else if r.key == b {
      OthersUntouched(s, r, a);
      LiveRivalStays(s, r, b, id);
    } else {
      OthersUntouched(s, r, b);
      if r.ReleaseRoute? {
        assert id in Claims(s.routes[b]) * Claims(s.routes[a]);
        ReleaseAdmittedExactly(s, a);
      }
      if r.DeleteRoute? {
        SameSpecSameClaims(s.routes[a].(deleting := true), s.routes[a]);
      }
    }
  }

  /**
   While a live Route keeps a claim of a Route that is being deleted, no run of other requests, however
   often the controller retries, lets the deleted one go.
   */
  lemma {:induction false} StuckWhileRivalStays(s: Server, requests: seq<Request>, a: RouteKey, b: RouteKey,
                                                id: Identity)
    requires Rivals(s, a, b, id)
    requires forall i :: 0 <= i < |requests| ==> LeavesAlone(requests[i], a, b)
    ensures Finalizing(ServeAll(s, requests), a) && Rivals(ServeAll(s, requests), a, b, id)
  {
    if requests != [] {
      var init := requests[..|requests| - 1];
      StuckWhileRivalStays(s, init, a, b, id);
      RivalsStay(ServeAll(s, init), requests[|requests| - 1], a, b, id);
    }
  }

  const OLD_APP := RouteKey("apps", "old")
  const NEW_APP := RouteKey("apps", "new")

  ghost function SharedSpec(): Spec {
    SampleRoute("any", 0, ["x"]).spec
  }

  const DEFAULT_GATEWAY := Gateway(DEFAULT_GATEWAY_NAME, DEFAULT_GATEWAY_NAMESPACE)

  /** Such rivals are reachable: a Route is deleted while held, and its successor takes the same host. */
  lemma RivalsReachable()
    ensures var s := ServeAll(EMPTY_SERVER,
              [SetGateway(DEFAULT_GATEWAY, []), CreateRoute(OLD_APP, 1, SharedSpec()), HoldRoute(OLD_APP),
               DeleteRoute(OLD_APP), CreateRoute(NEW_APP, 2, SharedSpec())]);
            Rivals(s, OLD_APP, NEW_APP, SampleIdentity("x"))
  {
    var requests := [SetGateway(DEFAULT_GATEWAY, []), CreateRoute(OLD_APP, 1, SharedSpec()), HoldRoute(OLD_APP),
                     DeleteRoute(OLD_APP), CreateRoute(NEW_APP, 2, SharedSpec())];
    var spec := SharedSpec().(gateway := Some(DEFAULT_GATEWAY));
    var gateways := map[DEFAULT_GATEWAY := []];
    var plain := Route(OLD_APP, 1, 1, false, false, false, spec, NEW_STATUS);
    var next := Route(NEW_APP, 2, 1, false, false, false, spec, NEW_STATUS);
    var s1 := Server(map[], gateways);
    HostCheckExactly(Found([]), spec.rules);
    assert Serve(EMPTY_SERVER, requests[0]) == s1;
    var s2 := Server(map[OLD_APP := plain], gateways);
    assert Defaulted(plain.(spec := SharedSpec())) == plain;
    assert Serve(s1, requests[1]) == s2;
    var s3 := Server(map[OLD_APP := plain.(held := true)], gateways);
    assert Defaulted(plain.(held := true)) == plain.(held := true);
    assert Serve(s2, requests[2]) == s3;
    var s4 := Server(map[OLD_APP := plain.(held := true, deleting := true)], gateways);
    assert Serve(s3, requests[3]) == s4;
    var s5 := Server(map[OLD_APP := plain.(held := true, deleting := true), NEW_APP := next], gateways);
    assert Defaulted(next.(spec := SharedSpec())) == next;
    assert Serve(s4, requests[4]) == s5;
    ServeFive(EMPTY_SERVER, requests);
    var dying := plain.(held := true, deleting := true);
    assert RuleIdentity(dying, spec.rules[0]) == SampleIdentity("x") == RuleIdentity(next, spec.rules[0]);
    assert SampleIdentity("x") in Claims(dying) && SampleIdentity("x") in Claims(next);
  }

  lemma ServeFive(s: Server, r: seq<Request>)
    requires |r| == 5
    ensures ServeAll(s, r) == Serve(Serve(Serve(Serve(Serve(s, r[0]), r[1]), r[2]), r[3]), r[4])
  {
    assert forall i, j :: 0 <= i <= j <= 5 ==> r[..j][..i] == r[..i];
    assert r[..5] == r && ServeAll(s, r[..0]) == s;
    assert ServeAll(s, r[..1]) == Serve(s, r[0]);
    assert ServeAll(s, r[..2]) == Serve(ServeAll(s, r[..1]), r[1]);
    assert ServeAll(s, r[..3]) == Serve(ServeAll(s, r[..2]), r[2]);
    assert ServeAll(s, r[..4]) == Serve(ServeAll(s, r[..3]), r[3]);
  }
}
