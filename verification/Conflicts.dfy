/**
 The runtime conflict guard. A Route is blocked when an earlier live Route claims one of its
 gateway, host and path identities; "earlier" is creation time, then namespace, then name.
 */
module Conflicts {
  import opened Text
  import opened RouteApi

  datatype Identity = Identity(gatewayNs: string, gatewayName: string, host: string, path: string)

  type Routes = map<RouteKey, Route>

  /** Routes are stored under their own keys. */
  ghost predicate Keyed(routes: Routes) {
    forall k :: k in routes ==> routes[k].key == k
  }

  /** `ruleIdentity`, which spells out the gateway defaults once more. */
  function RuleIdentity(route: Route, rule: Rule): Identity {
    var name := if route.spec.gateway.Some? && route.spec.gateway.value.name != ""
                then route.spec.gateway.value.name else "istio-gateway";
    var ns := if route.spec.gateway.Some? && route.spec.gateway.value.ns != ""
              then route.spec.gateway.value.ns else "istio-system";
    Identity(ns, name, rule.host, NormalizePath(rule.path))
  }

  function Claims(route: Route): set<Identity> {
    set i | 0 <= i < |route.spec.rules| :: RuleIdentity(route, route.spec.rules[i])
  }

  lemma SameSpecSameClaims(a: Route, b: Route)
    requires a.spec == b.spec
    ensures Claims(a) == Claims(b)
  {
    assert forall i :: 0 <= i < |a.spec.rules| ==> RuleIdentity(a, a.spec.rules[i]) == RuleIdentity(b, b.spec.rules[i]);
  }

  // ---------------------------------------------------------------- precedence

  predicate Precedes(a: Route, b: Route) {
    if a.created != b.created then a.created < b.created
    else if a.key.ns != b.key.ns then Less(a.key.ns, b.key.ns)
    else Less(a.key.name, b.key.name)
  }

  lemma PrecedesIrreflexive(a: Route)
    ensures !Precedes(a, a)
  {
    LessIrreflexive(a.key.name);
  }

  lemma PrecedesTransitive(a: Route, b: Route, c: Route)
    requires Precedes(a, b) && Precedes(b, c)
    ensures Precedes(a, c)
  {
    if a.created == b.created == c.created {
      if a.key.ns == b.key.ns == c.key.ns {
        LessTransitive(a.key.name, b.key.name, c.key.name);
      } else if a.key.ns != b.key.ns && b.key.ns != c.key.ns {
        LessTransitive(a.key.ns, b.key.ns, c.key.ns);
        if a.key.ns == c.key.ns { LessIrreflexive(a.key.ns); }
      }
    }
  }

  /** On Routes with different keys precedence is a strict total order. */
  lemma PrecedesTotal(a: Route, b: Route)
    requires a.key != b.key
    ensures Precedes(a, b) <==> !Precedes(b, a)
  {
    LessTotal(a.key.ns, b.key.ns);
    LessTotal(a.key.name, b.key.name);
    if Precedes(a, b) && Precedes(b, a) {
      PrecedesTransitive(a, b, a);
      PrecedesIrreflexive(a);
    }
  }

  /** Creation time, then namespace, then name, the strings by their first difference. */
  ghost predicate ComesFirst(a: Route, b: Route) {
    || a.created < b.created
    || (a.created == b.created && exists i: nat :: FirstDifference(a.key.ns, b.key.ns, i))
    || (a.created == b.created && a.key.ns == b.key.ns && exists i: nat :: FirstDifference(a.key.name, b.key.name, i))
  }

  lemma PrecedesExactly(a: Route, b: Route)
    ensures Precedes(a, b) <==> ComesFirst(a, b)
  {
    LessExactly(a.key.ns, b.key.ns);
    LessExactly(a.key.name, b.key.name);
    LessIrreflexive(a.key.ns);
  }

  // ---------------------------------------------------------------- claims

  /** Two rules ask for the same host and path; an empty path is the root. */
  ghost predicate SameHostAndPath(a: Rule, b: Rule) {
    a.host == b.host &&
    (a.path == b.path || (a.path == "" && b.path == "/") || (a.path == "/" && b.path == ""))
  }

  /** Claims are about the Gateway that the spec names, to which the children are attached. */
  lemma ClaimsAtGateway(route: Route, i: nat)
    requires i < |route.spec.rules|
    ensures GatewayRef(route.spec) == GatewayNamed(route.spec)
    ensures var id := RuleIdentity(route, route.spec.rules[i]);
            Gateway(id.gatewayName, id.gatewayNs) == GatewayNamed(route.spec)
  {
  }

  /** Two Routes have an identity in common exactly if they name one Gateway and two of their rules ask for the same. */
  lemma CommonClaimExactly(a: Route, b: Route)
    ensures Claims(a) * Claims(b) != {} <==>
            exists i, j :: 0 <= i < |a.spec.rules| && 0 <= j < |b.spec.rules| &&
              SameHostAndPath(a.spec.rules[i], b.spec.rules[j]) && GatewayNamed(a.spec) == GatewayNamed(b.spec)
  {
    forall i, j | 0 <= i < |a.spec.rules| && 0 <= j < |b.spec.rules|
      ensures RuleIdentity(a, a.spec.rules[i]) == RuleIdentity(b, b.spec.rules[j]) <==>
              SameHostAndPath(a.spec.rules[i], b.spec.rules[j]) && GatewayNamed(a.spec) == GatewayNamed(b.spec)
    {
      ClaimsAtGateway(a, i);
      ClaimsAtGateway(b, j);
    }
    if id :| id in Claims(a) * Claims(b) {
      var i :| 0 <= i < |a.spec.rules| && id == RuleIdentity(a, a.spec.rules[i]);
      var j :| 0 <= j < |b.spec.rules| && id == RuleIdentity(b, b.spec.rules[j]);
    }
    if i, j :| 0 <= i < |a.spec.rules| && 0 <= j < |b.spec.rules| &&
               SameHostAndPath(a.spec.rules[i], b.spec.rules[j]) && GatewayNamed(a.spec) == GatewayNamed(b.spec) {
      assert RuleIdentity(a, a.spec.rules[i]) in Claims(a) * Claims(b);
    }
  }

  // ---------------------------------------------------------------- the guard

  datatype Conflict = Conflict(other: RouteKey, id: Identity)

  /** `other` keeps `route` from being reconciled. */
  predicate Blocks(other: Route, route: Route) {
    other.key != route.key && !other.deleting && !Precedes(route, other) && Claims(other) * Claims(route) != {}
  }

  ghost predicate Reported(all: seq<Route>, route: Route, c: Conflict) {
    exists i :: 0 <= i < |all| && Blocks(all[i], route) && c.other == all[i].key &&
      c.id in Claims(all[i]) * Claims(route)
  }

  /** The line that reports a conflict. */
  function ConflictText(c: Conflict): string {
    c.other.ns + "/" + c.other.name + " host=" + c.id.host + " path=" + c.id.path +
    " gateway=" + c.id.gatewayNs + "/" + c.id.gatewayName
  }

  /** The parts of a line have no space, and the two namespaces no slash. */
  ghost predicate PlainConflict(c: Conflict) {
    && Free(c.other.ns, '/') && Free(c.other.name, ' ') && Free(c.id.host, ' ') && Free(c.id.path, ' ')
    && Free(c.id.gatewayNs, '/')
  }

  lemma AfterLabel(a: string, x: string, b: string, y: string, tag: string)
    requires Free(a, ' ') && Free(b, ' ') && a + " " + tag + x == b + " " + tag + y
    ensures a == b && x == y
  {
    assert a + " " + tag + x == a + [' '] + (tag + x) && b + " " + tag + y == b + [' '] + (tag + y);
    FirstSeparatorUnique(a, tag + x, b, tag + y, ' ');
    assert (tag + x)[|tag|..] == x && (tag + y)[|tag|..] == y;
  }

  function GatewayText(id: Identity): string {
    id.gatewayNs + "/" + id.gatewayName
  }

  function PathText(id: Identity): string {
    id.path + " " + "gateway=" + GatewayText(id)
  }

  function HostText(id: Identity): string {
    id.host + " " + "path=" + PathText(id)
  }

  lemma ConflictTextParts(c: Conflict)
    ensures ConflictText(c) == c.other.ns + ['/'] + (c.other.name + " " + "host=" + HostText(c.id))
  {
    assert " host=" == " " + "host=" && " path=" == " " + "path=" && " gateway=" == " " + "gateway=";
  }

  /** A line tells the other Route and the identity. */
  lemma ConflictTextTells(c: Conflict, d: Conflict)
    requires PlainConflict(c) && PlainConflict(d) && ConflictText(c) == ConflictText(d)
    ensures c == d
  {
    ConflictTextParts(c);
    ConflictTextParts(d);
    FirstSeparatorUnique(c.other.ns, c.other.name + " " + "host=" + HostText(c.id),
                         d.other.ns, d.other.name + " " + "host=" + HostText(d.id), '/');
    AfterLabel(c.other.name, HostText(c.id), d.other.name, HostText(d.id), "host=");
    AfterLabel(c.id.host, PathText(c.id), d.id.host, PathText(d.id), "path=");
    AfterLabel(c.id.path, GatewayText(c.id), d.id.path, GatewayText(d.id), "gateway=");
    FirstSeparatorUnique(c.id.gatewayNs, c.id.gatewayName, d.id.gatewayNs, d.id.gatewayName, '/');
  }

  ghost function Texts(found: set<Conflict>): set<string> {
    set c | c in found :: ConflictText(c)
  }

  ghost predicate AllReported(all: seq<Route>, route: Route, found: set<Conflict>) {
    forall c :: c in found <==> Reported(all, route, c)
  }

  lemma AllReportedStep(some: seq<Route>, other: Route, route: Route, found: set<Conflict>, more: set<Conflict>)
    requires AllReported(some, route, found)
    requires forall c :: c in more <==>
               Blocks(other, route) && c.other == other.key && c.id in Claims(other) * Claims(route)
    ensures AllReported(some + [other], route, found + more)
  {
    ReportedStep(some, other, route);
  }

  lemma ReportedMeansBlocked(all: seq<Route>, route: Route, found: set<Conflict>)
    requires AllReported(all, route, found)
    ensures Texts(found) != {} <==> exists i :: 0 <= i < |all| && Blocks(all[i], route)
  {
    if i :| 0 <= i < |all| && Blocks(all[i], route) {
      var id :| id in Claims(all[i]) * Claims(route);
      var c := Conflict(all[i].key, id);
      assert Reported(all, route, c);
      assert ConflictText(c) in Texts(found);
    }
    if t :| t in Texts(found) {
      var c :| c in found && t == ConflictText(c);
      assert Reported(all, route, c);
    }
  }

  method CurrentRules(route: Route) returns (rules: set<Identity>)
    ensures rules == Claims(route)
  {
    rules := {};
    for i := 0 to |route.spec.rules|
      invariant rules == set j | 0 <= j < i :: RuleIdentity(route, route.spec.rules[j])
    {
      rules := rules + {RuleIdentity(route, route.spec.rules[i])};
    }
  }

  /** `evaluateRouteConflicts`: the lines for all earlier live Routes and shared identities, each once, sorted. */
  method EvaluateRouteConflicts(all: seq<Route>, route: Route) returns (out: seq<string>)
    ensures forall t :: t in out <==> exists c :: Reported(all, route, c) && t == ConflictText(c)
    ensures forall i, j :: 0 <= i < j < |out| ==> Less(out[i], out[j])
    ensures out != [] <==> exists i :: 0 <= i < |all| && Blocks(all[i], route)
  {
    var conflicts, found := CollectConflicts(all, route);
    ReportedMeansBlocked(all, route, found);
    out := SortedKeys(conflicts);
    if out != [] {
      assert out[0] in conflicts;
    }
    forall t
      ensures t in out <==> exists c :: Reported(all, route, c) && t == ConflictText(c)
    {
      if t in conflicts {
        ghost var c :| c in found && t == ConflictText(c);
        assert Reported(all, route, c);
      }
      if c :| Reported(all, route, c) && t == ConflictText(c) {
        assert c in found;
      }
    }
  }

  method CollectConflicts(all: seq<Route>, route: Route) returns (conflicts: set<string>, ghost found: set<Conflict>)
    ensures conflicts == Texts(found) && AllReported(all, route, found)
  {
    var currentRules := CurrentRules(route);
    conflicts, found := {}, {};
    for i := 0 to |all|
      invariant conflicts == Texts(found) && AllReported(all[..i], route, found)
    {
      var other := all[i];
      ghost var more: set<Conflict> := {};
      if other.key != route.key && !other.deleting && !Precedes(route, other) {
        conflicts, more := RulesInConflict(other, currentRules, conflicts, found);
      } else {
        assert found + more == found;
      }
      AllReportedStep(all[..i], other, route, found, more);
      assert all[..i + 1] == all[..i] + [other];
      found := found + more;
    }
    assert all[..|all|] == all;
  }

  /** The rules of one other Route that meet the current ones. */
  method RulesInConflict(other: Route, currentRules: set<Identity>, was: set<string>, ghost found: set<Conflict>)
    returns (conflicts: set<string>, ghost more: set<Conflict>)
    requires was == Texts(found)
    ensures conflicts == Texts(found + more)
    ensures forall c :: c in more <==> c.other == other.key && c.id in Claims(other) * currentRules
  {
    conflicts, more := was, {};
    for j := 0 to |other.spec.rules|
      invariant conflicts == Texts(found + more)
      invariant forall c :: c in more <==>
        c.other == other.key && c.id in currentRules &&
        exists m :: 0 <= m < j && c.id == RuleIdentity(other, other.spec.rules[m])
    {
      var id := RuleIdentity(other, other.spec.rules[j]);
      if id in currentRules {
        conflicts := conflicts + {ConflictText(Conflict(other.key, id))};
        more := more + {Conflict(other.key, id)};
      }
    }
  }

  lemma ReportedStep(some: seq<Route>, other: Route, route: Route)
    ensures forall c :: Reported(some + [other], route, c) <==>
              Reported(some, route, c) ||
              (Blocks(other, route) && c.other == other.key && c.id in Claims(other) * Claims(route))
  {
    var all := some + [other];
    forall c
      ensures Reported(all, route, c) <==>
              Reported(some, route, c) ||
              (Blocks(other, route) && c.other == other.key && c.id in Claims(other) * Claims(route))
    {
      if Reported(some, route, c) {
        var i :| 0 <= i < |some| && Blocks(some[i], route) && c.other == some[i].key &&
          c.id in Claims(some[i]) * Claims(route);
        assert all[i] == some[i];
      }
      if Blocks(other, route) && c.other == other.key && c.id in Claims(other) * Claims(route) {
        assert all[|some|] == other;
      }
    }
  }

  // ---------------------------------------------------------------- what the guard guarantees

  ghost predicate Live(routes: Routes, k: RouteKey) {
    k in routes && !routes[k].deleting
  }

  ghost predicate Conflicted(routes: Routes, route: Route) {
    exists k :: k in routes && Blocks(routes[k], route)
  }

  /**
   Of two live Routes with a common identity exactly one blocks the other: the one created first, in a tie the one
   in the smaller namespace, and in one namespace the one of the smaller name.
   */
  lemma OneSideBlocked(a: Route, b: Route)
    requires a.key != b.key && !a.deleting && !b.deleting && Claims(a) * Claims(b) != {}
    ensures Blocks(a, b) <==> !Blocks(b, a)
    ensures Blocks(a, b) <==> ComesFirst(a, b)
  {
    PrecedesTotal(a, b);
    PrecedesExactly(a, b);
    assert Claims(a) * Claims(b) == Claims(b) * Claims(a);
  }

  /** Created in the same second: `a/x` blocks `b/x`, and `a/x` blocks `a/y`. */
  lemma TiesBroken(ax: Route, bx: Route, ay: Route)
    requires ax.key == RouteKey("a", "x") && bx.key == RouteKey("b", "x") && ay.key == RouteKey("a", "y")
    requires ax.created == bx.created == ay.created && ax.spec == bx.spec == ay.spec && ax.spec.rules != []
    requires !ax.deleting && !bx.deleting && !ay.deleting
    ensures Blocks(ax, bx) && !Blocks(bx, ax) && Blocks(ax, ay) && !Blocks(ay, ax)
  {
    assert FirstDifference("a", "b", 0) && FirstDifference("x", "y", 0);
    SameSpecSameClaims(ax, bx);
    SameSpecSameClaims(ax, ay);
    assert RuleIdentity(ax, ax.spec.rules[0]) in Claims(ax);
    assert Claims(ax) * Claims(bx) == Claims(ax) && Claims(ax) * Claims(ay) == Claims(ax);
    assert ComesFirst(ax, bx) && ComesFirst(ax, ay);
    OneSideBlocked(ax, bx);
    OneSideBlocked(ax, ay);
  }

  ghost predicate Winner(routes: Routes, k: RouteKey, id: Identity) {
    Live(routes, k) && id in Claims(routes[k]) && !Conflicted(routes, routes[k])
  }

  /** Each identity has at most one unblocked live claimant. */
  lemma AtMostOneWinner(routes: Routes, id: Identity, a: RouteKey, b: RouteKey)
    requires Keyed(routes) && Winner(routes, a, id) && Winner(routes, b, id)
    ensures a == b
  {
    if a != b {
      assert id in Claims(routes[a]) * Claims(routes[b]);
      OneSideBlocked(routes[a], routes[b]);
    }
  }

  ghost function Earlier(routes: Routes, k: RouteKey): set<RouteKey>
    requires k in routes
  {
    set j | j in routes && Precedes(routes[j], routes[k])
  }

  lemma EarlierShrinks(routes: Routes, a: RouteKey, b: RouteKey)
    requires a in routes && b in routes && Precedes(routes[b], routes[a])
    ensures Earlier(routes, b) < Earlier(routes, a)
  {
    forall j | j in Earlier(routes, b)
      ensures j in Earlier(routes, a)
    {
      PrecedesTransitive(routes[j], routes[b], routes[a]);
    }
    PrecedesIrreflexive(routes[b]);
    assert b in Earlier(routes, a) && b !in Earlier(routes, b);
  }

  /** Each Route of the chain is live and blocked by the next; the last one is not blocked. */
  ghost predicate BlockingChain(routes: Routes, chain: seq<RouteKey>) {
    && |chain| > 0
    && (forall i :: 0 <= i < |chain| ==> Live(routes, chain[i]))
    && (forall i :: 0 <= i < |chain| - 1 ==> Blocks(routes[chain[i + 1]], routes[chain[i]]))
    && !Conflicted(routes, routes[chain[|chain| - 1]])
  }

  /** From every live Route a chain of reported conflicts leads to an unblocked one. */
  lemma {:induction false} ChainToWinner(routes: Routes, k: RouteKey) returns (chain: seq<RouteKey>)
    requires Keyed(routes) && Live(routes, k)
    ensures BlockingChain(routes, chain) && chain[0] == k
    decreases Earlier(routes, k)
  {
    if !Conflicted(routes, routes[k]) {
      chain := [k];
    } else {
      var next :| next in routes && Blocks(routes[next], routes[k]);
      PrecedesTotal(routes[next], routes[k]);
      EarlierShrinks(routes, k, next);
      var rest := ChainToWinner(routes, next);
      chain := [k] + rest;
      forall i | 0 <= i < |chain| - 1
        ensures Blocks(routes[chain[i + 1]], routes[chain[i]])
      {
        if i > 0 {
          assert chain[i] == rest[i - 1] && chain[i + 1] == rest[i];
        }
      }
    }
  }

  /** The earliest live claimant of an identity. */
  ghost predicate Earliest(routes: Routes, e: RouteKey, id: Identity) {
    Live(routes, e) && id in Claims(routes[e]) &&
    forall k :: Live(routes, k) && id in Claims(routes[k]) && k != e ==> Precedes(routes[e], routes[k])
  }

  /** Every identity that a live Route claims has an earliest live claimant. */
  lemma {:induction false} EarliestExists(routes: Routes, k: RouteKey, id: Identity) returns (e: RouteKey)
    requires Keyed(routes) && Live(routes, k) && id in Claims(routes[k])
    ensures Earliest(routes, e, id)
    decreases Earlier(routes, k)
  {
    if j :| Live(routes, j) && id in Claims(routes[j]) && j != k && !Precedes(routes[k], routes[j]) {
      PrecedesTotal(routes[k], routes[j]);
      EarlierShrinks(routes, k, j);
      e := EarliestExists(routes, j, id);
    } else {
      e := k;
    }
  }

  /** A claimed identity has a winner exactly when its earliest claimant is not blocked on another one. */
  lemma WinnerExactly(routes: Routes, e: RouteKey, id: Identity)
    requires Keyed(routes) && Earliest(routes, e, id)
    ensures (exists k :: Winner(routes, k, id)) <==> !Conflicted(routes, routes[e])
  {
    if k :| Winner(routes, k, id) {
      if k != e {
        assert id in Claims(routes[e]) * Claims(routes[k]);
        PrecedesTotal(routes[e], routes[k]);
        assert Blocks(routes[e], routes[k]);
      }
    }
    if !Conflicted(routes, routes[e]) {
      assert Winner(routes, e, id);
    }
  }

  function SampleRoute(name: string, created: int, hosts: seq<string>): Route {
    var rules := seq(|hosts|, i requires 0 <= i < |hosts| => Rule(hosts[i], "/", Backend("svc", 80, "HTTP"), None));
    Route(RouteKey("apps", name), created, 1, false, false, false,
          Spec(rules, None, "", "", None, None, None, None, None, None), NEW_STATUS)
  }

  function SampleIdentity(host: string): Identity {
    Identity("istio-system", "istio-gateway", host, "/")
  }

  /**
   "Every contested identity is served by the earliest claimant" is false: here `b` loses y to `a`, and
   although blocked it blocks `c`, so x is claimed twice and served by nobody.
   */
  lemma ContestedWithoutWinner()
    ensures var a, b, c := SampleRoute("a", 1, ["y"]), SampleRoute("b", 2, ["x", "y"]), SampleRoute("c", 3, ["x"]);
            var routes := map[a.key := a, b.key := b, c.key := c];
            && Keyed(routes) && Earliest(routes, b.key, SampleIdentity("x"))
            && Blocks(a, b) && Blocks(b, c)
            && !exists k :: Winner(routes, k, SampleIdentity("x"))
  {
    var a, b, c := SampleRoute("a", 1, ["y"]), SampleRoute("b", 2, ["x", "y"]), SampleRoute("c", 3, ["x"]);
    var routes := map[a.key := a, b.key := b, c.key := c];
    var x, y := SampleIdentity("x"), SampleIdentity("y");
    assert RuleIdentity(a, a.spec.rules[0]) == y && RuleIdentity(b, b.spec.rules[0]) == x;
    assert RuleIdentity(b, b.spec.rules[1]) == y && RuleIdentity(c, c.spec.rules[0]) == x;
    assert y in Claims(a) * Claims(b) && x in Claims(b) * Claims(c);
    assert a.key.name[0] != b.key.name[0] && b.key.name[0] != c.key.name[0] && a.key.name[0] != c.key.name[0];
    assert "x"[0] != "y"[0];
    assert x !in Claims(a);
    assert routes[a.key] == a && routes[b.key] == b && routes[c.key] == c;
    assert Earliest(routes, b.key, x);
    assert Conflicted(routes, b);
    WinnerExactly(routes, b.key, x);
  }

  // ---------------------------------------------------------------- the guard and disjoint claims

  ghost predicate DisjointClaims(routes: Routes) {
    forall a, b :: Live(routes, a) && Live(routes, b) && a != b ==> Claims(routes[a]) * Claims(routes[b]) == {}
  }

  /** The guard is silent on all live Routes exactly when their claims are pairwise disjoint. */
  lemma GuardSilentExactly(routes: Routes)
    requires Keyed(routes)
    ensures (forall k :: Live(routes, k) ==> !Conflicted(routes, routes[k])) <==> DisjointClaims(routes)
  {
    if DisjointClaims(routes) {
      forall k, j | Live(routes, k) && j in routes
        ensures !Blocks(routes[j], routes[k])
      {
      }
    } else {
      var a, b :| Live(routes, a) && Live(routes, b) && a != b && Claims(routes[a]) * Claims(routes[b]) != {};
      OneSideBlocked(routes[a], routes[b]);
      assert Conflicted(routes, routes[a]) || Conflicted(routes, routes[b]);
    }
  }
}
