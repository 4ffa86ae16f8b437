/**
 What the operator generates from a Route: the objects' contents, and what those contents mean
 for a request: HTTPRoutes and VirtualServices must send the same share of traffic to the same
 backends.
 */
module Translation {
  import opened Text
  import opened Lists
  import opened RouteApi
  import opened HeaderTranslation

  // ---------------------------------------------------------------- generated contents

  datatype BackendRef = BackendRef(service: string, port: int, weight: Option<int>)
  datatype Destination = Destination(host: string, port: int, weight: int)
  datatype VsEntry = VsEntry(
    prefix: string, authority: string, dests: seq<Destination>,
    timeout: string, cors: Option<Cors>, headers: Option<Headers>, retries: Option<Retries>)
  datatype AuthzRule = AuthzRule(host: string, path: string)

  datatype Body =
    | HttpRoute(parent: Gateway, section: string, host: string, path: string,
                filters: seq<GatewayFilter>, refs: seq<BackendRef>)
    | Redirect(parent: Gateway, section: string, host: string, scheme: string, statusCode: int)
    | VirtualService(hosts: seq<string>, gateway: Gateway, entries: seq<VsEntry>)
    | DestinationRule(host: string, port: int)
    | BodyLimit(gatewayName: string, host: string, maxBytes: nat)
    | RequestAuthentication(gatewayName: string, issuer: string, jwksUri: string,
                            audiences: seq<string>, forwardToken: bool)
    | AuthorizationPolicy(gatewayName: string, rules: seq<AuthzRule>)
    | TokenBucket(gatewayName: string, routeName: string, hosts: seq<string>,
                  maxTokens: int, tokensPerFill: int, fillInterval: string)

  function Fqdn(service: string, ns: string): string {
    service + "." + ns + ".svc.cluster.local"
  }

  function BackendRefs(primary: Backend, canary: Option<Canary>): seq<BackendRef> {
    match canary
    case None => [BackendRef(primary.serviceName, primary.servicePort, None)]
    case Some(c) =>
      [BackendRef(primary.serviceName, primary.servicePort, Some(100 - c.weight)),
       BackendRef(c.backend.serviceName, c.backend.servicePort, Some(c.weight))]
  }

  function Destinations(ns: string, primary: Backend, canary: Option<Canary>): seq<Destination> {
    match canary
    case None => [Destination(Fqdn(primary.serviceName, ns), primary.servicePort, 0)]
    case Some(c) =>
      [Destination(Fqdn(primary.serviceName, ns), primary.servicePort, 100 - c.weight),
       Destination(Fqdn(c.backend.serviceName, ns), c.backend.servicePort, c.weight)]
  }

  function RuleBody(spec: Spec, rule: Rule, canary: Option<Canary>): Body {
    HttpRoute(GatewayRef(spec), "https", rule.host, NormalizePath(rule.path),
              GatewayHeaderFilters(rule.headers), BackendRefs(rule.backend, canary))
  }

  function RedirectBody(spec: Spec, host: string): Body {
    Redirect(GatewayRef(spec), "http", host, "https", 301)
  }

  function Entry(ns: string, spec: Spec, rule: Rule, canary: Option<Canary>): VsEntry {
    VsEntry(NormalizePath(rule.path), rule.host, Destinations(ns, rule.backend, canary),
            spec.timeout, spec.cors, IstioHeaders(rule.headers), spec.retries)
  }

  function Entries(ns: string, spec: Spec, canary: Option<Canary>): (es: seq<VsEntry>) {
    seq(|spec.rules|, i requires 0 <= i < |spec.rules| => Entry(ns, spec, spec.rules[i], canary))
  }

  function VirtualServiceBody(ns: string, spec: Spec, canary: Option<Canary>): Body {
    VirtualService(UniqueHosts(spec.rules), GatewayRef(spec), Entries(ns, spec, canary))
  }

  function RuleHosts(rules: seq<Rule>): seq<string> {
    seq(|rules|, i requires 0 <= i < |rules| => rules[i].host)
  }

  function UniqueHosts(rules: seq<Rule>): seq<string> {
    Dedup(RuleHosts(rules))
  }

  /** The backends one rule forwards to under a canary. */
  function RuleBackends(rule: Rule, canary: Option<Canary>): seq<Backend> {
    [rule.backend] + if canary.Some? then [canary.value.backend] else []
  }

  /** The HTTPS backends in rule order, one DestinationRule each. */
  function HttpsBackends(rules: seq<Rule>, canary: Option<Canary>): seq<Backend> {
    if rules == [] then []
    else
      HttpsBackends(rules[..|rules| - 1], canary) +
      HttpsOnly(RuleBackends(rules[|rules| - 1], canary))
  }

  function HttpsOnly(backends: seq<Backend>): seq<Backend> {
    if backends == [] then []
    else
      var last := backends[|backends| - 1];
      HttpsOnly(backends[..|backends| - 1]) + if last.protocol == "HTTPS" then [last] else []
  }

  /** How many of the backends that the rules forward to speak HTTPS, the canary counted for every rule. */
  ghost function HttpsCount(rules: seq<Rule>, canary: Option<Canary>): nat {
    if rules == [] then 0
    else
      HttpsCount(rules[..|rules| - 1], canary)
      + (if rules[|rules| - 1].backend.protocol == "HTTPS" then 1 else 0)
      + (if canary.Some? && canary.value.backend.protocol == "HTTPS" then 1 else 0)
  }

  lemma HttpsOnlyTwo(backends: seq<Backend>)
    ensures |backends| == 1 ==> |HttpsOnly(backends)| == if backends[0].protocol == "HTTPS" then 1 else 0
    ensures |backends| == 2 ==>
              |HttpsOnly(backends)| ==
              (if backends[0].protocol == "HTTPS" then 1 else 0) + (if backends[1].protocol == "HTTPS" then 1 else 0)
  {
    if |backends| == 2 { assert backends[..1] == [backends[0]] && backends[..1][..0] == []; }
  }

  lemma {:induction false} HttpsBackendsCounted(rules: seq<Rule>, canary: Option<Canary>)
    ensures |HttpsBackends(rules, canary)| == HttpsCount(rules, canary)
  {
    if rules != [] {
      HttpsBackendsCounted(rules[..|rules| - 1], canary);
      HttpsOnlyTwo(RuleBackends(rules[|rules| - 1], canary));
    }
  }

  /** The hosts of the rules. */
  ghost function HostSet(rules: seq<Rule>): set<string> {
    set i | 0 <= i < |rules| :: rules[i].host
  }

  lemma UniqueHostsCounted(rules: seq<Rule>)
    ensures SetOf(UniqueHosts(rules)) == HostSet(rules) && |UniqueHosts(rules)| == |HostSet(rules)|
  {
    NoDupCardinality(UniqueHosts(rules));
    forall h
      ensures h in UniqueHosts(rules) <==> h in HostSet(rules)
    {
      if h in HostSet(rules) {
        var i :| 0 <= i < |rules| && rules[i].host == h;
        assert RuleHosts(rules)[i] == h;
      }
    }
  }

  function DestinationRuleBody(ns: string, backend: Backend): Body {
    DestinationRule(Fqdn(backend.serviceName, ns), backend.servicePort)
  }

  /** `strconv.ParseUint(s, 10, 32)`. */
  function ParseUint32(s: string): Option<nat> {
    if s == "" || !AllDigits(s) then None
    else if DigitsValue(s) < 0x1_0000_0000 then Some(DigitsValue(s)) else None
  }

  function BodyLimitBody(spec: Spec, rule: Rule): Option<Body> {
    match ParseUint32(spec.maxBodySize)
    case None => None
    case Some(n) => Some(BodyLimit(GatewayRef(spec).name, rule.host, n))
  }

  function RequestAuthenticationBody(spec: Spec, auth: Auth): Body {
    RequestAuthentication(
      GatewayRef(spec).name, auth.issuer, auth.jwksUri, auth.audiences,
      if auth.forwardOriginalToken.Some? then auth.forwardOriginalToken.value else true)
  }

  function AuthzPathPattern(path: string): string {
    if path == "" || path == "/" then "/*"
    else if HasSuffix(path, "*") then path
    else path + "*"
  }

  function AuthzRules(rules: seq<Rule>): seq<AuthzRule> {
    seq(|rules|, i requires 0 <= i < |rules| => AuthzRule(rules[i].host, AuthzPathPattern(rules[i].path)))
  }

  function AuthorizationPolicyBody(spec: Spec): Body {
    AuthorizationPolicy(GatewayRef(spec).name, AuthzRules(spec.rules))
  }

  function FillInterval(unit: string): Option<string> {
    if unit == "Second" then Some("1s")
    else if unit == "Minute" then Some("60s")
    else if unit == "Hour" then Some("3600s")
    else None
  }

  function TokenBucketBody(routeName: string, spec: Spec, limit: RateLimit): Option<Body> {
    match FillInterval(limit.unit)
    case None => None
    case Some(interval) =>
      Some(TokenBucket(GatewayRef(spec).name, routeName, UniqueHosts(spec.rules),
                       if limit.burst.Some? then limit.burst.value else limit.requestsPerUnit,
                       limit.requestsPerUnit, interval))
  }

  // ---------------------------------------------------------------- traffic shares

  ghost predicate SchemaCanary(canary: Option<Canary>) {
    canary.Some? ==> 1 <= canary.value.weight <= 99
  }

  /** Gateway API: a missing weight counts as 1, and a backend's share is its part of the sum. */
  ghost function GatewayWeight(ref: BackendRef): int {
    if ref.weight.Some? then ref.weight.value else 1
  }

  ghost function GatewaySum(refs: seq<BackendRef>): int {
    if refs == [] then 0 else GatewaySum(refs[..|refs| - 1]) + GatewayWeight(refs[|refs| - 1])
  }

  ghost function GatewaySumFor(refs: seq<BackendRef>, service: string, port: int): int {
    if refs == [] then 0
    else
      var last := refs[|refs| - 1];
      GatewaySumFor(refs[..|refs| - 1], service, port) +
      if last.service == service && last.port == port then GatewayWeight(last) else 0
  }

  ghost function GatewayShare(refs: seq<BackendRef>, service: string, port: int): real
    requires GatewaySum(refs) > 0
  {
    GatewaySumFor(refs, service, port) as real / GatewaySum(refs) as real
  }

  /** Istio: a single destination takes everything; several are weighed in percent. */
  ghost function IstioPercent(dests: seq<Destination>, i: nat): int
    requires i < |dests|
  {
    if |dests| == 1 then 100 else dests[i].weight
  }

  ghost function IstioPercentFor(dests: seq<Destination>, service: string, ns: string, port: int, upTo: nat): int
    requires upTo <= |dests|
  {
    if upTo == 0 then 0
    else
      IstioPercentFor(dests, service, ns, port, upTo - 1) +
      if dests[upTo - 1].host == service + "." + ns + ".svc.cluster.local" && dests[upTo - 1].port == port
      then IstioPercent(dests, upTo - 1) else 0
  }

  /** What reaches the port of a Service, addressed by its name in the cluster. */
  ghost function IstioShare(dests: seq<Destination>, service: string, ns: string, port: int): real {
    IstioPercentFor(dests, service, ns, port, |dests|) as real / 100.0
  }

  /** What the spec asks for: the canary gets its weight in percent, the rule's own backend the rest. */
  ghost function ShareAsked(backend: Backend, canary: Option<Canary>, service: string, port: int): real {
    var own := backend.serviceName == service && backend.servicePort == port;
    match canary
    case None => if own then 1.0 else 0.0
    case Some(c) =>
      (if own then 1.0 - c.weight as real / 100.0 else 0.0) +
      (if c.backend.serviceName == service && c.backend.servicePort == port then c.weight as real / 100.0 else 0.0)
  }

  lemma FqdnInjective(a: string, b: string, ns: string)
    ensures Fqdn(a, ns) == Fqdn(b, ns) <==> a == b
  {
    var tail := "." + ns + ".svc.cluster.local";
    assert Fqdn(a, ns) == a + tail && Fqdn(b, ns) == b + tail;
    if a + tail == b + tail {
      assert a == (a + tail)[..|a + tail| - |tail|];
      assert b == (b + tail)[..|b + tail| - |tail|];
    }
  }

  lemma GatewaySums(refs: seq<BackendRef>, service: string, port: int)
    ensures |refs| == 1 ==>
              GatewaySum(refs) == GatewayWeight(refs[0]) &&
              GatewaySumFor(refs, service, port) ==
                if refs[0].service == service && refs[0].port == port then GatewayWeight(refs[0]) else 0
    ensures |refs| == 2 ==>
              GatewaySum(refs) == GatewayWeight(refs[0]) + GatewayWeight(refs[1]) &&
              GatewaySumFor(refs, service, port) ==
                (if refs[0].service == service && refs[0].port == port then GatewayWeight(refs[0]) else 0) +
                (if refs[1].service == service && refs[1].port == port then GatewayWeight(refs[1]) else 0)
  {
    if |refs| == 2 {
      assert refs[..1] == [refs[0]];
      assert refs[..1][..0] == [];
      assert GatewaySum(refs[..1]) == GatewayWeight(refs[0]);
    }
    if |refs| == 1 {
      assert refs[..0] == [];
    }
  }

  /** A single destination, and two weighed ones. */
  lemma IstioSums(dests: seq<Destination>, service: string, ns: string, port: int)
    requires forall i :: 0 <= i < |dests| ==> exists name :: dests[i].host == Fqdn(name, ns)
    ensures |dests| == 1 ==>
              IstioPercentFor(dests, service, ns, port, |dests|) ==
              if dests[0].host == Fqdn(service, ns) && dests[0].port == port then 100 else 0
    ensures |dests| == 2 ==>
              IstioPercentFor(dests, service, ns, port, |dests|) ==
              (if dests[0].host == Fqdn(service, ns) && dests[0].port == port then dests[0].weight else 0) +
              (if dests[1].host == Fqdn(service, ns) && dests[1].port == port then dests[1].weight else 0)
  {
    if |dests| == 2 {
      assert IstioPercentFor(dests, service, ns, port, 1) ==
             if dests[0].host == Fqdn(service, ns) && dests[0].port == port then dests[0].weight else 0;
    }
  }

  lemma IstioSharesAsked(ns: string, backend: Backend, canary: Option<Canary>, service: string, port: int)
    ensures IstioShare(Destinations(ns, backend, canary), service, ns, port) ==
            ShareAsked(backend, canary, service, port)
  {
    var dests := Destinations(ns, backend, canary);
    FqdnInjective(backend.serviceName, service, ns);
    if canary.Some? { FqdnInjective(canary.value.backend.serviceName, service, ns); }
    IstioSums(dests, service, ns, port);
  }

  lemma GatewaySharesAsked(backend: Backend, canary: Option<Canary>, service: string, port: int)
    ensures GatewaySum(BackendRefs(backend, canary)) > 0
    ensures GatewayShare(BackendRefs(backend, canary), service, port) == ShareAsked(backend, canary, service, port)
  {
    GatewaySums(BackendRefs(backend, canary), service, port);
  }

  /**
   For every rule and every effective canary the HTTPRoute and the VirtualService entry carry the rule's host and
   path, and give every backend the share of the traffic that the spec asks for.
   */
  lemma TrafficSharesAgree(ns: string, spec: Spec, rule: Rule, canary: Option<Canary>, service: string, port: int)
    ensures var route, entry := RuleBody(spec, rule, canary), Entry(ns, spec, rule, canary);
            && route.HttpRoute? && route.host == rule.host == entry.authority
            && route.path == (if rule.path == "" then "/" else rule.path) == entry.prefix
            && GatewaySum(route.refs) > 0
            && GatewayShare(route.refs, service, port) == ShareAsked(rule.backend, canary, service, port)
            && IstioShare(entry.dests, service, ns, port) == ShareAsked(rule.backend, canary, service, port)
  {
    GatewaySharesAsked(rule.backend, canary, service, port);
    IstioSharesAsked(ns, rule.backend, canary, service, port);
  }

  /** With a canary both weights are positive and sum to 100; without one the rule's backend has it all. */
  lemma WeightsAreComplete(rule: Rule, canary: Option<Canary>)
    requires SchemaCanary(canary)
    ensures var refs := BackendRefs(rule.backend, canary);
            && (canary.Some? ==>
                |refs| == 2 && GatewaySum(refs) == 100 && GatewayWeight(refs[0]) > 0 && GatewayWeight(refs[1]) > 0)
            && (canary.None? ==>
                GatewaySum(refs) > 0 && GatewayShare(refs, rule.backend.serviceName, rule.backend.servicePort) == 1.0)
  {
    GatewaySums(BackendRefs(rule.backend, canary), rule.backend.serviceName, rule.backend.servicePort);
  }

  /** Without a canary nothing but the rule's own backend gets traffic, in either output. */
  lemma StableOnly(ns: string, rule: Rule, service: string, port: int)
    ensures GatewaySum(BackendRefs(rule.backend, None)) > 0
    ensures GatewayShare(BackendRefs(rule.backend, None), service, port) ==
            if service == rule.backend.serviceName && port == rule.backend.servicePort then 1.0 else 0.0
    ensures IstioShare(Destinations(ns, rule.backend, None), service, ns, port) ==
            if service == rule.backend.serviceName && port == rule.backend.servicePort then 1.0 else 0.0
  {
    GatewaySharesAsked(rule.backend, None, service, port);
    IstioSharesAsked(ns, rule.backend, None, service, port);
  }

  /** A size the operator renders in decimal is read back unchanged, up to 32 bits. */
  lemma ParseUintRoundTrip(n: nat)
    ensures ParseUint32(Decimal(n)) == if n < 0x1_0000_0000 then Some(n) else None
  {
    DecimalRoundTrip(n);
  }

  // ---------------------------------------------------------------- the loops

  /** `uniqueHostsFromRules`: a pass over the rules with a set of hosts seen. */
  method UniqueHostsFromRules(rules: seq<Rule>) returns (hosts: seq<string>)
    ensures hosts == UniqueHosts(rules)
    ensures NoDup(hosts)
    ensures forall h :: h in hosts <==> exists i :: 0 <= i < |rules| && rules[i].host == h
  {
    var seen: set<string> := {};
    hosts := [];
    for i := 0 to |rules|
      invariant hosts == Dedup(RuleHosts(rules)[..i])
      invariant forall h :: h in seen <==> h in hosts
    {
      assert RuleHosts(rules)[..i + 1] == RuleHosts(rules)[..i] + [rules[i].host];
      assert RuleHosts(rules)[..i + 1][..i] == RuleHosts(rules)[..i];
      if rules[i].host !in seen {
        seen := seen + {rules[i].host};
        hosts := hosts + [rules[i].host];
      }
    }
    assert RuleHosts(rules)[..|rules|] == RuleHosts(rules);
    forall h
      ensures h in hosts <==> exists i :: 0 <= i < |rules| && rules[i].host == h
    {
      if h in hosts {
        var i :| 0 <= i < |rules| && RuleHosts(rules)[i] == h;
        assert rules[i].host == h;
      }
      if i :| 0 <= i < |rules| && rules[i].host == h {
        assert RuleHosts(rules)[i] == h;
      }
    }
  }

  /** The loop of `reconcileVirtualService` over the rules. */
  method BuildEntries(ns: string, spec: Spec, canary: Option<Canary>) returns (entries: seq<VsEntry>)
    ensures entries == Entries(ns, spec, canary)
  {
    entries := [];
    for i := 0 to |spec.rules|
      invariant entries == Entries(ns, spec, canary)[..i]
    {
      var rule := spec.rules[i];
      var entry := VsEntry(if rule.path == "" then "/" else rule.path, rule.host,
                           Destinations(ns, rule.backend, canary), "", None, None, None);
      if spec.timeout != "" {
        entry := entry.(timeout := spec.timeout);
      }
      if spec.cors.Some? {
        entry := entry.(cors := spec.cors);
      }
      entry := entry.(headers := IstioHeaders(rule.headers));
      entry := entry.(retries := spec.retries);
      entries := entries + [entry];
    }
  }
}
