/**
 Which rule a request reaches: the VirtualService takes the first entry that matches, the HTTPRoutes the
 longest path. On which lists of rules the two generated outputs send every request to the same place.
 */
module Routing {
  import opened Text
  import opened RouteApi
  import opened Translation
  import opened Authorization

  // ---------------------------------------------------------------- the rule a request reaches

  /** Istio: the first matching entry. */
  ghost predicate EntryTakes(entries: seq<VsEntry>, host: string, path: string, i: nat) {
    && i < |entries| && EntryMatches(entries[i], host, path)
    && forall k :: 0 <= k < i ==> !EntryMatches(entries[k], host, path)
  }

  /** The HTTPRoutes of the rules, in rule order. */
  function HttpRoutes(spec: Spec, canary: Option<Canary>): (bodies: seq<Body>)
    ensures forall i :: 0 <= i < |bodies| ==> bodies[i].HttpRoute?
  {
    seq(|spec.rules|, i requires 0 <= i < |spec.rules| => RuleBody(spec, spec.rules[i], canary))
  }

  /** Gateway API: a longest matching path. Of equal paths the older HTTPRoute is taken, here either of them. */
  ghost predicate RouteTakes(routes: seq<Body>, host: string, path: string, j: nat)
    requires forall i :: 0 <= i < |routes| ==> routes[i].HttpRoute?
  {
    && j < |routes| && HttpRouteMatches(routes[j], host, path)
    && forall k :: 0 <= k < |routes| && HttpRouteMatches(routes[k], host, path) ==> |routes[k].path| <= |routes[j].path|
  }

  /** Every backend gets the same share of what reaches the one and of what reaches the other. */
  ghost predicate SameTraffic(ns: string, route: Body, entry: VsEntry)
    requires route.HttpRoute?
  {
    GatewaySum(route.refs) > 0 &&
    forall service: string, port: int ::
      GatewayShare(route.refs, service, port) == IstioShare(entry.dests, service, ns, port)
  }

  /** A request that both outputs serve goes to the same backends in the same shares. */
  ghost predicate RoutesAlike(ns: string, spec: Spec, canary: Option<Canary>) {
    forall host: string, path: string, i: nat, j: nat ::
      HasPrefix(path, "/") && EntryTakes(VirtualServiceBody(ns, spec, canary).entries, host, path, i) &&
      RouteTakes(HttpRoutes(spec, canary), host, path, j) ==>
        SameTraffic(ns, HttpRoutes(spec, canary)[j], VirtualServiceBody(ns, spec, canary).entries[i])
  }

  // ---------------------------------------------------------------- read off the rules

  ghost predicate SameBackend(a: Rule, b: Rule) {
    a.backend.serviceName == b.backend.serviceName && a.backend.servicePort == b.backend.servicePort
  }

  function PathOf(r: Rule): string { NormalizePath(r.path) }

  function StemOf(r: Rule): string { GatewayStem(PathOf(r)) }

  /** The first rule for the host whose path is a prefix of `path`, character by character. */
  ghost predicate First(rules: seq<Rule>, host: string, path: string, i: nat) {
    && i < |rules| && rules[i].host == host && HasPrefix(path, PathOf(rules[i]))
    && forall k :: 0 <= k < i && rules[k].host == host ==> !HasPrefix(path, PathOf(rules[k]))
  }

  /** A rule for the host with a longest path that is a prefix of `path`, element by element. */
  ghost predicate Longest(rules: seq<Rule>, host: string, path: string, j: nat) {
    && j < |rules| && rules[j].host == host && GatewayPathMatches(PathOf(rules[j]), path)
    && forall k :: 0 <= k < |rules| && rules[k].host == host && GatewayPathMatches(PathOf(rules[k]), path) ==>
         |PathOf(rules[k])| <= |PathOf(rules[j])|
  }

  /** A rule for the host with a longest path that encloses `path` strictly. */
  ghost predicate Above(path: string, r: Rule) {
    HasPrefix(path, StemOf(r) + "/")
  }

  ghost predicate Enclosing(rules: seq<Rule>, host: string, path: string, j: nat) {
    && j < |rules| && rules[j].host == host && Above(path, rules[j])
    && forall k :: 0 <= k < |rules| && rules[k].host == host && Above(path, rules[k]) ==>
         |PathOf(rules[k])| <= |PathOf(rules[j])|
  }

  /**
   Some request reaches the i-th entry and the j-th HTTPRoute: the path of `j` without a trailing slash does,
   or a path that goes on from the path of `i` within its last element.
   */
  ghost predicate Meet(rules: seq<Rule>, i: nat, j: nat)
    requires i < |rules| && j < |rules|
  {
    var host := rules[j].host;
    || (First(rules, host, StemOf(rules[j]), i) && Longest(rules, host, StemOf(rules[j]), j))
    || (First(rules, host, PathOf(rules[i]), i) && Enclosing(rules, host, PathOf(rules[i]), j))
  }

  ghost predicate MeetAlike(rules: seq<Rule>) {
    forall i, j :: 0 <= i < |rules| && 0 <= j < |rules| && Meet(rules, i, j) ==> SameBackend(rules[i], rules[j])
  }

  /** A request reaches the i-th entry and the j-th HTTPRoute. */
  ghost predicate Reach(rules: seq<Rule>, host: string, path: string, i: nat, j: nat) {
    HasPrefix(path, "/") && First(rules, host, path, i) && Longest(rules, host, path, j)
  }

  /** A character that no rule path has: a request path may go on with it and stay clear of every rule. */
  ghost predicate Unused(rules: seq<Rule>, c: char) {
    c != '/' && forall k :: 0 <= k < |rules| ==> c !in rules[k].path
  }

  // ---------------------------------------------------------------- every request has a witness among the rules

  lemma PathsRooted(rules: seq<Rule>, k: nat)
    requires Rooted(rules) && k < |rules|
    ensures HasPrefix(PathOf(rules[k]), "/")
    ensures |StemOf(rules[k])| <= |PathOf(rules[k])| <= |StemOf(rules[k])| + 1
    ensures HasPrefix(PathOf(rules[k]), StemOf(rules[k]))
  {
  }

  lemma PrefixesCompare(s: string, a: string, b: string)
    requires HasPrefix(s, a) && HasPrefix(s, b) && |a| <= |b|
    ensures HasPrefix(b, a)
  {
    assert b == s[..|b|];
    assert s[..|b|][..|a|] == s[..|a|];
  }

  /** What matches at the stem of `j`, with a longer path, matches wherever `j` does. */
  lemma LongerAtStem(p: string, q: string, path: string)
    requires GatewayPathMatches(p, GatewayStem(q)) && |p| > |q| && GatewayPathMatches(q, path)
    ensures GatewayPathMatches(p, path)
  {
    assert |p| <= |GatewayStem(p)| + 1 && |GatewayStem(q)| <= |q|;
  }

  /** The entry's path ends within the HTTPRoute's: the request for the stem reaches both. */
  lemma ReachAtStem(rules: seq<Rule>, host: string, path: string, i: nat, j: nat)
    requires Rooted(rules) && Reach(rules, host, path, i, j) && |PathOf(rules[i])| <= |StemOf(rules[j])|
    ensures Meet(rules, i, j)
  {
    var stem := StemOf(rules[j]);
    assert HasPrefix(path, stem) by {
      if HasPrefix(path, stem + "/") { PrefixTransitive(stem, stem + "/", path); }
    }
    PrefixesCompare(path, PathOf(rules[i]), stem);
    forall k | 0 <= k < i && rules[k].host == host
      ensures !HasPrefix(stem, PathOf(rules[k]))
    {
      if HasPrefix(stem, PathOf(rules[k])) { PrefixTransitive(PathOf(rules[k]), stem, path); }
    }
    forall k | 0 <= k < |rules| && rules[k].host == host && GatewayPathMatches(PathOf(rules[k]), stem)
      ensures |PathOf(rules[k])| <= |PathOf(rules[j])|
    {
      if |PathOf(rules[k])| > |PathOf(rules[j])| { LongerAtStem(PathOf(rules[k]), PathOf(rules[j]), path); }
    }
  }

  /** The entry's path goes beyond the HTTPRoute's. */
  lemma ReachBeyond(rules: seq<Rule>, host: string, path: string, i: nat, j: nat)
    requires Rooted(rules) && Reach(rules, host, path, i, j) && |PathOf(rules[i])| > |StemOf(rules[j])|
    ensures Meet(rules, i, j)
  {
    var p, stem := PathOf(rules[i]), StemOf(rules[j]);
    assert HasPrefix(path, stem + "/");
    PrefixesCompare(path, stem + "/", p);
    forall k | 0 <= k < i && rules[k].host == host
      ensures !HasPrefix(p, PathOf(rules[k]))
    {
      if HasPrefix(p, PathOf(rules[k])) { PrefixTransitive(PathOf(rules[k]), p, path); }
    }
    forall k | 0 <= k < |rules| && rules[k].host == host && Above(p, rules[k])
      ensures |PathOf(rules[k])| <= |PathOf(rules[j])|
    {
      PrefixTransitive(StemOf(rules[k]) + "/", p, path);
    }
  }

  lemma ReachMeets(rules: seq<Rule>, host: string, path: string, i: nat, j: nat)
    requires Rooted(rules) && Reach(rules, host, path, i, j)
    ensures Meet(rules, i, j)
  {
    if |PathOf(rules[i])| <= |StemOf(rules[j])| {
      ReachAtStem(rules, host, path, i, j);
    } else {
      ReachBeyond(rules, host, path, i, j);
    }
  }

  /** One unused character past a path: the same prefixes, and the elements that enclose it. */
  lemma OneFurther(rules: seq<Rule>, p: string, c: char, k: nat)
    requires Unused(rules, c) && k < |rules|
    ensures HasPrefix(p + [c], PathOf(rules[k])) <==> HasPrefix(p, PathOf(rules[k]))
    ensures GatewayPathMatches(PathOf(rules[k]), p + [c]) <==> Above(p, rules[k])
  {
    NotInPath(rules, c, k);
    PrefixWithout(p, PathOf(rules[k]), c);
    PrefixWithout(p, StemOf(rules[k]) + "/", c);
    assert (p + [c])[|p|] == c;
  }

  lemma NotInPath(rules: seq<Rule>, c: char, k: nat)
    requires Unused(rules, c) && k < |rules|
    ensures c !in PathOf(rules[k]) && c !in StemOf(rules[k]) + "/"
  {
  }

  lemma PrefixWithout(s: string, a: string, c: char)
    requires c !in a
    ensures HasPrefix(s + [c], a) <==> HasPrefix(s, a)
  {
    if |a| <= |s| {
      assert (s + [c])[..|a|] == s[..|a|];
    } else if |a| == |s| + 1 {
      assert (s + [c])[..|a|] == s + [c];
      assert (s + [c])[|s|] == c;
    }
  }

  lemma MeetReaches(rules: seq<Rule>, i: nat, j: nat, c: char)
    returns (host: string, path: string)
    requires Rooted(rules) && Unused(rules, c) && i < |rules| && j < |rules| && Meet(rules, i, j)
    ensures Reach(rules, host, path, i, j)
  {
    host := rules[j].host;
    PathsRooted(rules, i);
    if First(rules, host, StemOf(rules[j]), i) && Longest(rules, host, StemOf(rules[j]), j) {
      path := StemOf(rules[j]);
      PrefixTransitive("/", PathOf(rules[i]), path);
    } else {
      var p := PathOf(rules[i]);
      path := p + [c];
      PrefixWithout(p, "/", c);
      forall k | 0 <= k < |rules|
        ensures HasPrefix(path, PathOf(rules[k])) <==> HasPrefix(p, PathOf(rules[k]))
        ensures GatewayPathMatches(PathOf(rules[k]), path) <==> Above(p, rules[k])
      {
        OneFurther(rules, p, c, k);
      }
    }
  }

  // ---------------------------------------------------------------- the outputs

  lemma EntryTakesFirst(ns: string, spec: Spec, canary: Option<Canary>, host: string, path: string, i: nat)
    ensures EntryTakes(VirtualServiceBody(ns, spec, canary).entries, host, path, i) <==>
            First(spec.rules, host, path, i)
  {
    forall k | 0 <= k < |spec.rules|
      ensures EntryMatches(VirtualServiceBody(ns, spec, canary).entries[k], host, path) <==>
              spec.rules[k].host == host && HasPrefix(path, PathOf(spec.rules[k]))
    {
    }
  }

  lemma RouteTakesLongest(spec: Spec, canary: Option<Canary>, host: string, path: string, j: nat)
    ensures RouteTakes(HttpRoutes(spec, canary), host, path, j) <==> Longest(spec.rules, host, path, j)
  {
    var routes, rules := HttpRoutes(spec, canary), spec.rules;
    forall k | 0 <= k < |rules|
      ensures routes[k].path == PathOf(rules[k])
      ensures HttpRouteMatches(routes[k], host, path) <==>
              rules[k].host == host && GatewayPathMatches(PathOf(rules[k]), path)
    {
    }
  }

  /** With the same canary two primaries share the traffic alike only if they are the same. */
  lemma SharesTellBackend(a: Backend, b: Backend, canary: Option<Canary>)
    requires SchemaCanary(canary)
    ensures GatewaySum(BackendRefs(a, canary)) > 0 && GatewaySum(BackendRefs(b, canary)) > 0
    ensures GatewayShare(BackendRefs(a, canary), a.serviceName, a.servicePort) ==
            GatewayShare(BackendRefs(b, canary), a.serviceName, a.servicePort) ==>
              a.serviceName == b.serviceName && a.servicePort == b.servicePort
  {
    GatewaySums(BackendRefs(a, canary), a.serviceName, a.servicePort);
    GatewaySums(BackendRefs(b, canary), a.serviceName, a.servicePort);
  }

  lemma TrafficTellsBackend(ns: string, spec: Spec, canary: Option<Canary>, i: nat, j: nat)
    requires SchemaCanary(canary) && i < |spec.rules| && j < |spec.rules|
    ensures SameTraffic(ns, HttpRoutes(spec, canary)[j], VirtualServiceBody(ns, spec, canary).entries[i]) <==>
            SameBackend(spec.rules[i], spec.rules[j])
  {
    var a, b := spec.rules[j].backend, spec.rules[i].backend;
    var route, entry := HttpRoutes(spec, canary)[j], VirtualServiceBody(ns, spec, canary).entries[i];
    assert route.refs == BackendRefs(a, canary) && entry.dests == Destinations(ns, b, canary);
    SharesTellBackend(a, b, canary);
    forall service: string, port: int
      ensures GatewayShare(BackendRefs(b, canary), service, port) == IstioShare(entry.dests, service, ns, port)
    {
      GatewaySharesAsked(b, canary, service, port);
      IstioSharesAsked(ns, b, canary, service, port);
    }
    if SameBackend(spec.rules[i], spec.rules[j]) {
      assert BackendRefs(a, canary) == BackendRefs(b, canary);
    }
  }

  /**
   The two outputs send every request that both serve to the same backends, in the same shares, exactly if
   any two rules that meet have the same backend. Which rules meet is read off their paths and their order.
   */
  lemma RoutedAlikeExactly(ns: string, spec: Spec, canary: Option<Canary>, c: char)
    requires Rooted(spec.rules) && SchemaCanary(canary) && Unused(spec.rules, c)
    ensures RoutesAlike(ns, spec, canary) <==> MeetAlike(spec.rules)
  {
    if MeetAlike(spec.rules) {
      forall host: string, path: string, i: nat, j: nat
        | HasPrefix(path, "/") && EntryTakes(VirtualServiceBody(ns, spec, canary).entries, host, path, i) &&
          RouteTakes(HttpRoutes(spec, canary), host, path, j)
        ensures SameTraffic(ns, HttpRoutes(spec, canary)[j], VirtualServiceBody(ns, spec, canary).entries[i])
      {
        EntryTakesFirst(ns, spec, canary, host, path, i);
        RouteTakesLongest(spec, canary, host, path, j);
        ReachMeets(spec.rules, host, path, i, j);
        TrafficTellsBackend(ns, spec, canary, i, j);
      }
    }
    if RoutesAlike(ns, spec, canary) {
      forall i, j | 0 <= i < |spec.rules| && 0 <= j < |spec.rules| && Meet(spec.rules, i, j)
        ensures SameBackend(spec.rules[i], spec.rules[j])
      {
        var host, path := MeetReaches(spec.rules, i, j, c);
        EntryTakesFirst(ns, spec, canary, host, path, i);
        RouteTakesLongest(spec, canary, host, path, j);
        TrafficTellsBackend(ns, spec, canary, i, j);
      }
    }
  }

  // ---------------------------------------------------------------- rule paths without trailing slashes

  ghost predicate Plain(rules: seq<Rule>) {
    Rooted(rules) && forall k :: 0 <= k < |rules| ==> Unslashed(rules[k].path)
  }

  /** A rule has the backend of every rule whose path encloses its own. */
  ghost predicate NestedAlike(rules: seq<Rule>) {
    forall i, j :: 0 <= i < |rules| && 0 <= j < |rules| &&
                   rules[i].host == rules[j].host && Above(PathOf(rules[i]), rules[j]) ==>
                     SameBackend(rules[i], rules[j])
  }

  /** A rule below the root has the backend of the first rule whose path is a prefix of its own. */
  ghost predicate FirstAlike(rules: seq<Rule>) {
    forall i, j :: 0 <= i < |rules| && 0 <= j < |rules| &&
                   PathOf(rules[j]) != "/" && First(rules, rules[j].host, PathOf(rules[j]), i) ==>
                     SameBackend(rules[i], rules[j])
  }

  lemma PlainStem(rules: seq<Rule>, k: nat)
    requires Plain(rules) && k < |rules|
    ensures StemOf(rules[k]) == if PathOf(rules[k]) == "/" then "" else PathOf(rules[k])
    ensures HasPrefix(PathOf(rules[k]), "/")
  {
  }

  lemma {:induction false} FirstOf(rules: seq<Rule>, host: string, path: string, i: nat) returns (f: nat)
    requires i < |rules| && rules[i].host == host && HasPrefix(path, PathOf(rules[i]))
    ensures First(rules, host, path, f)
    decreases i
  {
    if k :| 0 <= k < i && rules[k].host == host && HasPrefix(path, PathOf(rules[k])) {
      f := FirstOf(rules, host, path, k);
    } else {
      f := i;
    }
  }

  lemma {:induction false} EnclosingOf(rules: seq<Rule>, host: string, path: string, j: nat) returns (d: nat)
    requires j < |rules| && rules[j].host == host && Above(path, rules[j])
    ensures Enclosing(rules, host, path, d)
    decreases |path| + 1 - |PathOf(rules[j])|
  {
    if k :| 0 <= k < |rules| && rules[k].host == host && Above(path, rules[k])
            && |PathOf(rules[k])| > |PathOf(rules[j])| {
      d := EnclosingOf(rules, host, path, k);
    } else {
      d := j;
    }
  }

  /** Just past a path the first rule meets the rules that enclose it closest. */
  lemma MeetJustPast(rules: seq<Rule>, host: string, p: string, c: char, f: nat, d: nat)
    requires Rooted(rules) && Unused(rules, c) && HasPrefix(p, "/")
    requires First(rules, host, p, f) && Enclosing(rules, host, p, d)
    ensures Meet(rules, f, d)
  {
    forall k | 0 <= k < |rules|
      ensures HasPrefix(p + [c], PathOf(rules[k])) <==> HasPrefix(p, PathOf(rules[k]))
      ensures GatewayPathMatches(PathOf(rules[k]), p + [c]) <==> Above(p, rules[k])
    {
      OneFurther(rules, p, c, k);
    }
    PrefixWithout(p, "/", c);
    ReachMeets(rules, host, p + [c], f, d);
  }

  lemma MeetAlikeFirst(rules: seq<Rule>, i: nat, j: nat)
    requires Plain(rules) && MeetAlike(rules) && i < |rules| && j < |rules| && PathOf(rules[j]) != "/"
    requires First(rules, rules[j].host, PathOf(rules[j]), i)
    ensures SameBackend(rules[i], rules[j])
  {
    var p := PathOf(rules[j]);
    PlainStem(rules, j);
    forall k | 0 <= k < |rules| && GatewayPathMatches(PathOf(rules[k]), p)
      ensures |PathOf(rules[k])| <= |p|
    {
      PlainStem(rules, k);
    }
    assert Longest(rules, rules[j].host, StemOf(rules[j]), j);
    assert Meet(rules, i, j);
  }

  /** Of two rules that enclose a path the longer one lies under the shorter one. */
  lemma EnclosedInTurn(rules: seq<Rule>, path: string, d: nat, j: nat)
    requires Plain(rules) && d < |rules| && j < |rules| && Above(path, rules[d]) && Above(path, rules[j])
    requires |PathOf(rules[j])| < |PathOf(rules[d])|
    ensures Above(PathOf(rules[d]), rules[j])
  {
    PlainStem(rules, d);
    PlainStem(rules, j);
    var stem := StemOf(rules[d]);
    PrefixTransitive(stem, stem + "/", path) by {
      assert (stem + "/")[..|stem|] == stem;
    }
    PrefixesCompare(path, StemOf(rules[j]) + "/", stem);
  }

  /** Just past a rule's path some first rule meets the rules that enclose it closest. */
  lemma FirstMeets(rules: seq<Rule>, host: string, p: string, c: char, i: nat, d: nat) returns (f: nat)
    requires Plain(rules) && Unused(rules, c) && i < |rules| && rules[i].host == host && PathOf(rules[i]) == p
    requires Enclosing(rules, host, p, d)
    ensures First(rules, host, p, f) && Meet(rules, f, d)
  {
    PlainStem(rules, i);
    f := FirstOf(rules, host, p, i);
    MeetJustPast(rules, host, p, c, f, d);
  }

  /** That first rule meets the rule itself, too. */
  lemma ClosestAlike(rules: seq<Rule>, i: nat, d: nat, c: char)
    requires Plain(rules) && Unused(rules, c) && MeetAlike(rules) && i < |rules| && PathOf(rules[i]) != "/"
    requires Enclosing(rules, rules[i].host, PathOf(rules[i]), d)
    ensures SameBackend(rules[i], rules[d])
  {
    var f := FirstMeets(rules, rules[i].host, PathOf(rules[i]), c, i, d);
    assert SameBackend(rules[f], rules[d]);
    MeetAlikeFirst(rules, f, i);
  }

  /** Two rules for the root. */
  lemma RootsAlike(rules: seq<Rule>, i: nat, j: nat, c: char)
    requires Plain(rules) && Unused(rules, c) && MeetAlike(rules) && i < |rules| && j < |rules|
    requires rules[i].host == rules[j].host && PathOf(rules[i]) == PathOf(rules[j]) == "/"
    ensures SameBackend(rules[i], rules[j])
  {
    var host := rules[i].host;
    var f := FirstOf(rules, host, "/", i);
    forall k | 0 <= k < |rules| && Above("/", rules[k])
      ensures |PathOf(rules[k])| <= 1
    {
      PlainStem(rules, k);
    }
    MeetJustPast(rules, host, "/", c, f, i);
    MeetJustPast(rules, host, "/", c, f, j);
  }

  /** From rule to closest enclosing rule, up to the one at hand. */
  lemma {:induction false} MeetAlikeNested(rules: seq<Rule>, i: nat, j: nat, c: char)
    requires Plain(rules) && Unused(rules, c) && MeetAlike(rules) && i < |rules| && j < |rules|
    requires rules[i].host == rules[j].host && Above(PathOf(rules[i]), rules[j])
    ensures SameBackend(rules[i], rules[j])
    decreases |PathOf(rules[i])|
  {
    PlainStem(rules, i);
    PlainStem(rules, j);
    if PathOf(rules[i]) == "/" {
      RootsAlike(rules, i, j, c);
    } else {
      var d := EnclosingOf(rules, rules[i].host, PathOf(rules[i]), j);
      if |PathOf(rules[j])| == |PathOf(rules[d])| {
        ClosestAlike(rules, i, j, c);
      } else {
        ClosestAlike(rules, i, d, c);
        EnclosedInTurn(rules, PathOf(rules[i]), d, j);
        PlainStem(rules, d);
        MeetAlikeNested(rules, d, j, c);
      }
    }
  }

  lemma NestedMeetAlike(rules: seq<Rule>)
    requires Plain(rules) && NestedAlike(rules) && FirstAlike(rules)
    ensures MeetAlike(rules)
  {
    forall i, j | 0 <= i < |rules| && 0 <= j < |rules| && Meet(rules, i, j)
      ensures SameBackend(rules[i], rules[j])
    {
      PlainStem(rules, i);
      PlainStem(rules, j);
    }
  }

  /**
   Where no rule path but the root ends in a slash, the two outputs route alike exactly if every rule has the
   backend of the rules that enclose it and of the first rule whose path is a prefix of its own.
   */
  lemma PlainRoutedAlikeExactly(ns: string, spec: Spec, canary: Option<Canary>, c: char)
    requires Plain(spec.rules) && SchemaCanary(canary) && Unused(spec.rules, c)
    ensures RoutesAlike(ns, spec, canary) <==> NestedAlike(spec.rules) && FirstAlike(spec.rules)
  {
    var rules := spec.rules;
    RoutedAlikeExactly(ns, spec, canary, c);
    if MeetAlike(rules) {
      forall i, j | 0 <= i < |rules| && 0 <= j < |rules| && rules[i].host == rules[j].host &&
                    Above(PathOf(rules[i]), rules[j])
        ensures SameBackend(rules[i], rules[j])
      {
        MeetAlikeNested(rules, i, j, c);
      }
      forall i, j | 0 <= i < |rules| && 0 <= j < |rules| && PathOf(rules[j]) != "/" &&
                    First(rules, rules[j].host, PathOf(rules[j]), i)
        ensures SameBackend(rules[i], rules[j])
      {
        MeetAlikeFirst(rules, i, j);
      }
    }
    if NestedAlike(rules) && FirstAlike(rules) { NestedMeetAlike(rules); }
  }

  /** So beside a rule for `/` a rule of the same host with another backend is routed differently, in any order. */
  lemma RootAndOtherDiffer(ns: string, spec: Spec, canary: Option<Canary>, c: char, i: nat, j: nat)
    requires Plain(spec.rules) && SchemaCanary(canary) && Unused(spec.rules, c)
    requires i < |spec.rules| && j < |spec.rules| && spec.rules[i].host == spec.rules[j].host
    requires PathOf(spec.rules[j]) == "/" && !SameBackend(spec.rules[i], spec.rules[j])
    ensures !RoutesAlike(ns, spec, canary)
  {
    PlainRoutedAlikeExactly(ns, spec, canary, c);
    PlainStem(spec.rules, i);
    PlainStem(spec.rules, j);
    assert Above(PathOf(spec.rules[i]), spec.rules[j]);
  }
}
