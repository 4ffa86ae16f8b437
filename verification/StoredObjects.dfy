/**
 What is in the store once a Route's objects are in place: every object under its name, with its labels
 and owner, and with the contents that the fields of the spec ask for.
 */
module StoredObjects {
  import opened Text
  import opened Lists
  import opened RouteApi
  import opened ChildNames
  import opened HeaderTranslation
  import opened Translation
  import opened Authorization
  import opened ChildPass
  import opened Convergence
  import opened StaleChildren

  /** What one write of the pass leaves. */
  lemma StageStored(children: Store, key: RouteKey, spec: Spec, canary: Option<Canary>, stage: nat, i: nat)
    requires InPlace(children, key, spec, canary)
    requires stage < STAGES && i < |Stages(key, spec, canary)[stage]| && Stages(key, spec, canary)[stage][i].Put?
    ensures var owner, op := OwnerOf(key, spec), Stages(key, spec, canary)[stage][i];
            SlotKey(owner, op.slot) in children &&
            children[SlotKey(owner, op.slot)] == MakeChild(owner, op.slot, op.body)
  {
    var owner, ops, op := OwnerOf(key, spec), PassOps(key, spec, canary), Stages(key, spec, canary)[stage][i];
    InFlatten(Stages(key, spec, canary), op);
    PassOpsApart(key, spec, canary);
    DesiredIsPut(owner, ops, SlotKey(owner, op.slot));
    assert Puts(owner, ops, SlotKey(owner, op.slot), MakeChild(owner, op.slot, op.body));
  }

  /** An object in the Route's own namespace: it carries the label and belongs to the Route. */
  ghost predicate OwnObject(children: Store, key: RouteKey, kind: Kind, name: string) {
    var k := ChildKey(kind, key.ns, name);
    k in children && children[k].routeLabel == Some(key.name) && children[k].owner == Some(key)
  }

  /** An object in the Gateway's namespace: it carries the label and has no owner. */
  ghost predicate GatewayObject(children: Store, key: RouteKey, spec: Spec, kind: Kind, name: string) {
    var k := ChildKey(kind, GatewayNamed(spec).ns, name);
    k in children && children[k].routeLabel == Some(key.name) && children[k].owner == None
  }

  lemma GatewayPlaced(children: Store, key: RouteKey, spec: Spec, canary: Option<Canary>, stage: nat, i: nat,
                      slot: Slot, body: Body)
    requires InPlace(children, key, spec, canary) && stage < STAGES && !Owned(KindOf(slot))
    requires i < |Stages(key, spec, canary)[stage]| && Stages(key, spec, canary)[stage][i] == Put(slot, body)
    ensures GatewayObject(children, key, spec, KindOf(slot), NameOf(key.name, slot))
    ensures children[ChildKey(KindOf(slot), GatewayNamed(spec).ns, NameOf(key.name, slot))].body == body
  {
    StageStored(children, key, spec, canary, stage, i);
  }

  ghost function RootedPath(path: string): string {
    if path == "" then "/" else path
  }

  // ---------------------------------------------------------------- HTTPRoutes

  /** The HTTPRoute of a rule: its host and path, the header edits and the traffic shares the rule asks for. */
  ghost predicate RouteFor(body: Body, spec: Spec, canary: Option<Canary>, rule: Rule) {
    && body.HttpRoute? && body.parent == GatewayNamed(spec) && body.section == "https"
    && body.host == rule.host && body.path == RootedPath(rule.path)
    && Settled(body.filters)
    && (forall onRequest: bool :: GatewayMeaning(body.filters, onRequest) == EditsAsked(rule.headers, onRequest))
    && GatewaySum(body.refs) > 0
    && forall service: string, port: int ::
         GatewayShare(body.refs, service, port) == ShareAsked(rule.backend, canary, service, port)
  }

  ghost predicate RulesStored(children: Store, key: RouteKey, spec: Spec, canary: Option<Canary>) {
    forall i :: 0 <= i < |spec.rules| ==>
      var name := key.name + "-" + Decimal(i);
      OwnObject(children, key, HttpRouteKind, name) &&
      RouteFor(children[ChildKey(HttpRouteKind, key.ns, name)].body, spec, canary, spec.rules[i])
  }

  lemma RuleIsRouteFor(spec: Spec, canary: Option<Canary>, rule: Rule)
    ensures RouteFor(RuleBody(spec, rule, canary), spec, canary, rule)
  {
    forall onRequest: bool
      ensures GatewayMeaning(RuleBody(spec, rule, canary).filters, onRequest) == EditsAsked(rule.headers, onRequest)
    {
      HeaderEditsAgree(rule.headers, onRequest);
    }
    FiltersSettled(rule.headers);
    GatewaySharesAsked(rule.backend, canary, "", 0);
    forall service: string, port: int
      ensures GatewayShare(RuleBody(spec, rule, canary).refs, service, port) ==
              ShareAsked(rule.backend, canary, service, port)
    {
      GatewaySharesAsked(rule.backend, canary, service, port);
    }
  }

  lemma RuleObjects(children: Store, key: RouteKey, spec: Spec, canary: Option<Canary>)
    requires InPlace(children, key, spec, canary)
    ensures RulesStored(children, key, spec, canary)
  {
    forall i | 0 <= i < |spec.rules|
      ensures var name := key.name + "-" + Decimal(i);
              OwnObject(children, key, HttpRouteKind, name) &&
              children[ChildKey(HttpRouteKind, key.ns, name)].body == RuleBody(spec, spec.rules[i], canary)
    {
      StageStored(children, key, spec, canary, 0, i);
    }
    forall i | 0 <= i < |spec.rules|
      ensures RouteFor(RuleBody(spec, spec.rules[i], canary), spec, canary, spec.rules[i])
    {
      RuleIsRouteFor(spec, canary, spec.rules[i]);
    }
  }

  // ---------------------------------------------------------------- redirects

  ghost predicate RedirectAt(children: Store, key: RouteKey, spec: Spec, i: nat, host: string) {
    var name := key.name + "-redirect-" + Decimal(i);
    OwnObject(children, key, HttpRouteKind, name) &&
    children[ChildKey(HttpRouteKind, key.ns, name)].body == Redirect(GatewayNamed(spec), "http", host, "https", 301)
  }

  ghost predicate Redirected(children: Store, key: RouteKey, spec: Spec, host: string) {
    exists i: nat :: i < |HostSet(spec.rules)| && RedirectAt(children, key, spec, i, host)
  }

  ghost predicate RedirectsHost(children: Store, key: RouteKey, spec: Spec, i: nat) {
    exists host :: host in HostSet(spec.rules) && RedirectAt(children, key, spec, i, host)
  }

  /** Unless the spec says otherwise, every host has a permanent redirect to HTTPS, and nothing else has. */
  ghost predicate RedirectsStored(children: Store, key: RouteKey, spec: Spec) {
    spec.sslRedirect != Some(false) ==>
      && (forall host :: host in HostSet(spec.rules) ==> Redirected(children, key, spec, host))
      && (forall i :: 0 <= i < |HostSet(spec.rules)| ==> RedirectsHost(children, key, spec, i))
  }

  lemma RedirectIsAt(children: Store, key: RouteKey, spec: Spec, canary: Option<Canary>, i: nat)
    requires InPlace(children, key, spec, canary) && spec.sslRedirect != Some(false) && i < |UniqueHosts(spec.rules)|
    ensures RedirectAt(children, key, spec, i, UniqueHosts(spec.rules)[i])
  {
    StageStored(children, key, spec, canary, 1, i);
  }

  lemma RedirectObjects(children: Store, key: RouteKey, spec: Spec, canary: Option<Canary>)
    requires InPlace(children, key, spec, canary)
    ensures RedirectsStored(children, key, spec)
  {
    if spec.sslRedirect != Some(false) {
      var hosts := UniqueHosts(spec.rules);
      UniqueHostsCounted(spec.rules);
      forall host | host in HostSet(spec.rules)
        ensures Redirected(children, key, spec, host)
      {
        assert host in SetOf(hosts);
        var i :| 0 <= i < |hosts| && hosts[i] == host;
        RedirectIsAt(children, key, spec, canary, i);
      }
      forall i | 0 <= i < |HostSet(spec.rules)|
        ensures RedirectsHost(children, key, spec, i)
      {
        assert hosts[i] in SetOf(hosts);
        RedirectIsAt(children, key, spec, canary, i);
      }
    }
  }

  // ---------------------------------------------------------------- the VirtualService

  /** An entry of the VirtualService: as the HTTPRoute, with the spec's timeout, CORS and retries. */
  ghost predicate EntryFor(entry: VsEntry, ns: string, spec: Spec, canary: Option<Canary>, rule: Rule) {
    && entry.authority == rule.host && entry.prefix == RootedPath(rule.path)
    && entry.timeout == spec.timeout && entry.cors == spec.cors && entry.retries == spec.retries
    && (forall onRequest: bool :: IstioMeaning(entry.headers, onRequest) == EditsAsked(rule.headers, onRequest))
    && forall service: string, port: int ::
         IstioShare(entry.dests, service, ns, port) == ShareAsked(rule.backend, canary, service, port)
  }

  ghost predicate VirtualFor(body: Body, ns: string, spec: Spec, canary: Option<Canary>) {
    && body.VirtualService? && body.gateway == GatewayNamed(spec)
    && NoDup(body.hosts) && SetOf(body.hosts) == HostSet(spec.rules)
    && |body.entries| == |spec.rules|
    && forall i :: 0 <= i < |spec.rules| ==> EntryFor(body.entries[i], ns, spec, canary, spec.rules[i])
  }

  ghost predicate VirtualStored(children: Store, key: RouteKey, spec: Spec, canary: Option<Canary>) {
    spec.timeout != "" || spec.cors.Some? || spec.retries.Some? || canary.Some? ==>
      && OwnObject(children, key, VirtualServiceKind, key.name)
      && VirtualFor(children[ChildKey(VirtualServiceKind, key.ns, key.name)].body, key.ns, spec, canary)
  }

  lemma EntryIsEntryFor(ns: string, spec: Spec, canary: Option<Canary>, rule: Rule)
    ensures EntryFor(Entry(ns, spec, rule, canary), ns, spec, canary, rule)
  {
    var entry := Entry(ns, spec, rule, canary);
    forall onRequest: bool
      ensures IstioMeaning(entry.headers, onRequest) == EditsAsked(rule.headers, onRequest)
    {
      HeaderEditsAgree(rule.headers, onRequest);
    }
    forall service: string, port: int
      ensures IstioShare(entry.dests, service, ns, port) == ShareAsked(rule.backend, canary, service, port)
    {
      IstioSharesAsked(ns, rule.backend, canary, service, port);
    }
  }

  lemma VirtualIsFor(ns: string, spec: Spec, canary: Option<Canary>)
    ensures VirtualFor(VirtualServiceBody(ns, spec, canary), ns, spec, canary)
  {
    UniqueHostsCounted(spec.rules);
    forall i | 0 <= i < |spec.rules|
      ensures EntryFor(VirtualServiceBody(ns, spec, canary).entries[i], ns, spec, canary, spec.rules[i])
    {
      EntryIsEntryFor(ns, spec, canary, spec.rules[i]);
    }
  }

  lemma VirtualObject(children: Store, key: RouteKey, spec: Spec, canary: Option<Canary>)
    requires InPlace(children, key, spec, canary)
    ensures VirtualStored(children, key, spec, canary)
  {
    if spec.timeout != "" || spec.cors.Some? || spec.retries.Some? || canary.Some? {
      StageStored(children, key, spec, canary, 2, 0);
      VirtualIsFor(key.ns, spec, canary);
    }
  }

  // ---------------------------------------------------------------- DestinationRules

  /** The rules, or the canary beside them, forward to this backend, and it speaks HTTPS. */
  ghost predicate HttpsBackend(rules: seq<Rule>, canary: Option<Canary>, b: Backend) {
    b.protocol == "HTTPS" &&
    exists i :: 0 <= i < |rules| && (rules[i].backend == b || (canary.Some? && canary.value.backend == b))
  }

  ghost predicate TlsAt(children: Store, key: RouteKey, spec: Spec, i: nat, b: Backend) {
    var name := key.name + "-tls-" + Decimal(i);
    GatewayObject(children, key, spec, DestinationRuleKind, name) &&
    children[ChildKey(DestinationRuleKind, GatewayNamed(spec).ns, name)].body ==
      DestinationRule(b.serviceName + "." + key.ns + ".svc.cluster.local", b.servicePort)
  }

  ghost predicate Encrypted(children: Store, key: RouteKey, spec: Spec, canary: Option<Canary>, b: Backend) {
    exists i: nat :: i < HttpsCount(spec.rules, canary) && TlsAt(children, key, spec, i, b)
  }

  ghost predicate EncryptsBackend(children: Store, key: RouteKey, spec: Spec, canary: Option<Canary>, i: nat) {
    exists b :: HttpsBackend(spec.rules, canary, b) && TlsAt(children, key, spec, i, b)
  }

  /** Every HTTPS backend has a DestinationRule, and nothing else has. */
  ghost predicate TlsStored(children: Store, key: RouteKey, spec: Spec, canary: Option<Canary>) {
    && (forall b :: HttpsBackend(spec.rules, canary, b) ==> Encrypted(children, key, spec, canary, b))
    && (forall i :: 0 <= i < HttpsCount(spec.rules, canary) ==> EncryptsBackend(children, key, spec, canary, i))
  }

  lemma {:induction false} HttpsOnlyExactly(backends: seq<Backend>, b: Backend)
    ensures b in HttpsOnly(backends) <==> b in backends && b.protocol == "HTTPS"
  {
    if backends != [] { HttpsOnlyExactly(backends[..|backends| - 1], b); }
  }

  lemma RuleBackendsExactly(rule: Rule, canary: Option<Canary>, b: Backend)
    ensures b in RuleBackends(rule, canary) <==> rule.backend == b || (canary.Some? && canary.value.backend == b)
  {
  }

  lemma HttpsBackendNext(init: seq<Rule>, last: Rule, canary: Option<Canary>, b: Backend)
    ensures HttpsBackend(init + [last], canary, b) <==>
            HttpsBackend(init, canary, b) ||
            (b.protocol == "HTTPS" && (last.backend == b || (canary.Some? && canary.value.backend == b)))
  {
    var rules := init + [last];
    assert rules[|init|] == last && forall i :: 0 <= i < |init| ==> rules[i] == init[i];
  }

  lemma {:induction false} HttpsBackendsExactly(rules: seq<Rule>, canary: Option<Canary>, b: Backend)
    ensures b in HttpsBackends(rules, canary) <==> HttpsBackend(rules, canary, b)
  {
    if rules != [] {
      var init, last := rules[..|rules| - 1], rules[|rules| - 1];
      HttpsBackendsExactly(init, canary, b);
      HttpsOnlyExactly(RuleBackends(last, canary), b);
      RuleBackendsExactly(last, canary, b);
      HttpsBackendNext(init, last, canary, b);
      assert rules == init + [last];
    }
  }

  lemma TlsPut(key: RouteKey, spec: Spec, canary: Option<Canary>, i: nat)
    requires i < |HttpsBackends(spec.rules, canary)|
    ensures var ops := Stages(key, spec, canary)[3];
            i < |ops| && ops[i] == Put(TlsRule(i), DestinationRuleBody(key.ns, HttpsBackends(spec.rules, canary)[i]))
  {
  }

  lemma TlsIsAt(children: Store, key: RouteKey, spec: Spec, canary: Option<Canary>, i: nat)
    requires InPlace(children, key, spec, canary) && i < |HttpsBackends(spec.rules, canary)|
    ensures TlsAt(children, key, spec, i, HttpsBackends(spec.rules, canary)[i])
  {
    TlsPut(key, spec, canary, i);
    GatewayPlaced(children, key, spec, canary, 3, i, TlsRule(i),
                  DestinationRuleBody(key.ns, HttpsBackends(spec.rules, canary)[i]));
  }

  lemma TlsObjects(children: Store, key: RouteKey, spec: Spec, canary: Option<Canary>)
    requires InPlace(children, key, spec, canary)
    ensures TlsStored(children, key, spec, canary)
  {
    var backends := HttpsBackends(spec.rules, canary);
    HttpsBackendsCounted(spec.rules, canary);
    forall b | HttpsBackend(spec.rules, canary, b)
      ensures Encrypted(children, key, spec, canary, b)
    {
      HttpsBackendsExactly(spec.rules, canary, b);
      var i :| 0 <= i < |backends| && backends[i] == b;
      TlsIsAt(children, key, spec, canary, i);
    }
    forall i | 0 <= i < HttpsCount(spec.rules, canary)
      ensures EncryptsBackend(children, key, spec, canary, i)
    {
      HttpsBackendsExactly(spec.rules, canary, backends[i]);
      TlsIsAt(children, key, spec, canary, i);
    }
  }

  // ---------------------------------------------------------------- body limits

  ghost predicate LimitAt(children: Store, key: RouteKey, spec: Spec, i: nat)
    requires i < |spec.rules| && AllDigits(spec.maxBodySize) && DigitsValue(spec.maxBodySize) < 0x1_0000_0000
  {
    var name := key.name + "-body-size-" + Decimal(i);
    GatewayObject(children, key, spec, EnvoyFilterKind, name) &&
    children[ChildKey(EnvoyFilterKind, GatewayNamed(spec).ns, name)].body ==
      BodyLimit(GatewayNamed(spec).name, spec.rules[i].host, DigitsValue(spec.maxBodySize))
  }

  /** Every rule's host has the limit, in bytes, that the spec gives as a numeral. */
  ghost predicate LimitsStored(children: Store, key: RouteKey, spec: Spec) {
    spec.maxBodySize != "" && AllDigits(spec.maxBodySize) && DigitsValue(spec.maxBodySize) < 0x1_0000_0000 ==>
      forall i :: 0 <= i < |spec.rules| ==> LimitAt(children, key, spec, i)
  }

  lemma LimitPut(key: RouteKey, spec: Spec, canary: Option<Canary>, i: nat)
    requires i < |spec.rules| && spec.maxBodySize != ""
    requires AllDigits(spec.maxBodySize) && DigitsValue(spec.maxBodySize) < 0x1_0000_0000
    ensures var ops := Stages(key, spec, canary)[4];
            i < |ops| && ops[i] == Put(BodySize(i), BodyLimit(GatewayNamed(spec).name, spec.rules[i].host,
                                                              DigitsValue(spec.maxBodySize)))
  {
  }

  lemma LimitObjects(children: Store, key: RouteKey, spec: Spec, canary: Option<Canary>)
    requires InPlace(children, key, spec, canary)
    ensures LimitsStored(children, key, spec)
  {
    if spec.maxBodySize != "" && AllDigits(spec.maxBodySize) && DigitsValue(spec.maxBodySize) < 0x1_0000_0000 {
      forall i | 0 <= i < |spec.rules|
        ensures LimitAt(children, key, spec, i)
      {
        LimitPut(key, spec, canary, i);
        GatewayPlaced(children, key, spec, canary, 4, i, BodySize(i),
                      BodyLimit(GatewayNamed(spec).name, spec.rules[i].host, DigitsValue(spec.maxBodySize)));
      }
    }
  }

  // ---------------------------------------------------------------- authentication

  /** Tokens of the issuer, for the audiences, verified with its keys; handed on unless the spec says otherwise. */
  ghost predicate TokensFor(body: Body, spec: Spec, auth: Auth) {
    && body.RequestAuthentication? && body.gatewayName == GatewayNamed(spec).name
    && body.issuer == auth.issuer && body.jwksUri == auth.jwksUri && body.audiences == auth.audiences
    && (body.forwardToken <==> auth.forwardOriginalToken != Some(false))
  }

  /** The request is for some rule's host, under that rule's path. */
  ghost predicate Asked(rules: seq<Rule>, host: string, path: string) {
    exists i :: 0 <= i < |rules| && host == rules[i].host && HasPrefix(path, RootedPath(rules[i].path))
  }

  /** The policy at the Gateway admits all that is asked for, and no more exactly if every rule is covered. */
  ghost predicate PolicyFor(body: Body, spec: Spec) {
    && body.AuthorizationPolicy? && body.gatewayName == GatewayNamed(spec).name
    && (Rooted(spec.rules) ==>
          && (forall host: string, path: string :: Asked(spec.rules, host, path) ==> PolicyAdmits(body, host, path))
          && ((forall host: string, path: string :: PolicyAdmits(body, host, path) ==> Asked(spec.rules, host, path))
              <==> AllCovered(spec.rules)))
  }

  ghost predicate AuthStored(children: Store, key: RouteKey, spec: Spec) {
    var gatewayNs := GatewayNamed(spec).ns;
    match spec.auth
    case Some(auth) =>
      && GatewayObject(children, key, spec, RequestAuthenticationKind, key.name + "-jwt")
      && TokensFor(children[ChildKey(RequestAuthenticationKind, gatewayNs, key.name + "-jwt")].body, spec, auth)
      && GatewayObject(children, key, spec, AuthorizationPolicyKind, key.name + "-authz")
      && PolicyFor(children[ChildKey(AuthorizationPolicyKind, gatewayNs, key.name + "-authz")].body, spec)
    case None =>
      && ChildKey(RequestAuthenticationKind, gatewayNs, key.name + "-jwt") !in children
      && ChildKey(AuthorizationPolicyKind, gatewayNs, key.name + "-authz") !in children
  }

  /** What is asked for is what the entries of the VirtualService match. */
  lemma EntriesServeAsked(ns: string, spec: Spec, canary: Option<Canary>, host: string, path: string)
    ensures EntriesServe(VirtualServiceBody(ns, spec, canary), host, path) <==> Asked(spec.rules, host, path)
  {
    var entries := VirtualServiceBody(ns, spec, canary).entries;
    if i :| 0 <= i < |entries| && EntryMatches(entries[i], host, path) {
      assert host == spec.rules[i].host && HasPrefix(path, RootedPath(spec.rules[i].path));
    }
    if i :| 0 <= i < |spec.rules| && host == spec.rules[i].host && HasPrefix(path, RootedPath(spec.rules[i].path)) {
      assert EntryMatches(entries[i], host, path);
    }
  }

  lemma PolicyIsFor(spec: Spec)
    ensures PolicyFor(AuthorizationPolicyBody(spec), spec)
  {
    if Rooted(spec.rules) {
      var policy := AuthorizationPolicyBody(spec);
      PolicyExactly("", spec, None);
      forall host: string, path: string
        ensures Asked(spec.rules, host, path) ==> PolicyAdmits(policy, host, path)
        ensures EntriesServe(VirtualServiceBody("", spec, None), host, path) <==> Asked(spec.rules, host, path)
      {
        EntriesServeAsked("", spec, None, host, path);
        if Asked(spec.rules, host, path) { AuthorizationCovers("", spec, None, host, path); }
      }
    }
  }

  lemma AuthPuts(key: RouteKey, spec: Spec, canary: Option<Canary>, auth: Auth)
    requires spec.auth == Some(auth)
    ensures Stages(key, spec, canary)[5] ==
            [Put(Jwt, RequestAuthenticationBody(spec, auth)), Put(Authz, AuthorizationPolicyBody(spec))]
  {
  }

  lemma AuthPlaced(children: Store, key: RouteKey, spec: Spec, canary: Option<Canary>, auth: Auth)
    requires InPlace(children, key, spec, canary) && spec.auth == Some(auth)
    ensures GatewayObject(children, key, spec, RequestAuthenticationKind, key.name + "-jwt")
    ensures GatewayObject(children, key, spec, AuthorizationPolicyKind, key.name + "-authz")
    ensures var gatewayNs := GatewayNamed(spec).ns;
            && children[ChildKey(RequestAuthenticationKind, gatewayNs, key.name + "-jwt")].body ==
                 RequestAuthenticationBody(spec, auth)
            && children[ChildKey(AuthorizationPolicyKind, gatewayNs, key.name + "-authz")].body ==
                 AuthorizationPolicyBody(spec)
  {
    AuthPuts(key, spec, canary, auth);
    GatewayPlaced(children, key, spec, canary, 5, 0, Jwt, RequestAuthenticationBody(spec, auth));
    GatewayPlaced(children, key, spec, canary, 5, 1, Authz, AuthorizationPolicyBody(spec));
  }

  lemma AuthObjects(children: Store, key: RouteKey, spec: Spec, canary: Option<Canary>)
    requires InPlace(children, key, spec, canary)
    ensures AuthStored(children, key, spec)
  {
    if spec.auth.Some? {
      AuthPlaced(children, key, spec, canary, spec.auth.value);
      PolicyIsFor(spec);
    } else {
      TouchedExactly(key, spec, canary, Jwt);
      TouchedExactly(key, spec, canary, Authz);
    }
  }

  // ---------------------------------------------------------------- rate limiting

  /** As many requests per second, minute or hour as the spec says, with its burst, or else as many at once. */
  ghost predicate BucketFor(body: Body, key: RouteKey, spec: Spec, limit: RateLimit) {
    && body.TokenBucket? && body.gatewayName == GatewayNamed(spec).name && body.routeName == key.name
    && NoDup(body.hosts) && SetOf(body.hosts) == HostSet(spec.rules)
    && body.tokensPerFill == limit.requestsPerUnit
    && body.maxTokens == (if limit.burst.None? then limit.requestsPerUnit else limit.burst.value)
    && (limit.unit == "Second" ==> body.fillInterval == "1s")
    && (limit.unit == "Minute" ==> body.fillInterval == "60s")
    && (limit.unit == "Hour" ==> body.fillInterval == "3600s")
  }

  ghost predicate BucketStored(children: Store, key: RouteKey, spec: Spec) {
    var k := ChildKey(EnvoyFilterKind, GatewayNamed(spec).ns, key.name + "-rate-limit");
    match spec.rateLimit
    case Some(limit) =>
      limit.unit in {"Second", "Minute", "Hour"} ==>
        && GatewayObject(children, key, spec, EnvoyFilterKind, key.name + "-rate-limit")
        && BucketFor(children[k].body, key, spec, limit)
    case None => k !in children
  }

  lemma BucketIsFor(key: RouteKey, spec: Spec, limit: RateLimit)
    requires limit.unit in {"Second", "Minute", "Hour"}
    ensures TokenBucketBody(key.name, spec, limit).Some?
    ensures BucketFor(TokenBucketBody(key.name, spec, limit).value, key, spec, limit)
  {
    UniqueHostsCounted(spec.rules);
  }

  lemma LimiterStored(children: Store, key: RouteKey, spec: Spec, canary: Option<Canary>, limit: RateLimit)
    requires InPlace(children, key, spec, canary) && spec.rateLimit == Some(limit)
    requires TokenBucketBody(key.name, spec, limit).Some?
    ensures GatewayObject(children, key, spec, EnvoyFilterKind, key.name + "-rate-limit")
    ensures children[ChildKey(EnvoyFilterKind, GatewayNamed(spec).ns, key.name + "-rate-limit")].body ==
            TokenBucketBody(key.name, spec, limit).value
  {
    var body := TokenBucketBody(key.name, spec, limit).value;
    assert Stages(key, spec, canary)[6] == [Put(RateLimiter, body)];
    GatewayPlaced(children, key, spec, canary, 6, 0, RateLimiter, body);
  }

  lemma BucketObject(children: Store, key: RouteKey, spec: Spec, canary: Option<Canary>)
    requires InPlace(children, key, spec, canary)
    ensures BucketStored(children, key, spec)
  {
    if spec.rateLimit.Some? {
      var limit := spec.rateLimit.value;
      if limit.unit in {"Second", "Minute", "Hour"} {
        BucketIsFor(key, spec, limit);
        LimiterStored(children, key, spec, canary, limit);
      }
    } else {
      TouchedExactly(key, spec, canary, RateLimiter);
    }
  }

  // ---------------------------------------------------------------- all of them

  ghost predicate AllStored(children: Store, key: RouteKey, spec: Spec, canary: Option<Canary>) {
    && RulesStored(children, key, spec, canary) && RedirectsStored(children, key, spec)
    && VirtualStored(children, key, spec, canary) && TlsStored(children, key, spec, canary)
    && LimitsStored(children, key, spec) && AuthStored(children, key, spec) && BucketStored(children, key, spec)
  }

  /** With a Route's objects in place, the store holds for every feature what the fields of its spec ask for. */
  lemma PlacedIsStored(children: Store, key: RouteKey, spec: Spec, canary: Option<Canary>)
    requires InPlace(children, key, spec, canary)
    ensures AllStored(children, key, spec, canary)
  {
    RuleObjects(children, key, spec, canary);
    RedirectObjects(children, key, spec, canary);
    VirtualObject(children, key, spec, canary);
    TlsObjects(children, key, spec, canary);
    LimitObjects(children, key, spec, canary);
    AuthObjects(children, key, spec, canary);
    BucketObject(children, key, spec, canary);
  }

  // ---------------------------------------------------------------- whose objects these are

  /**
   What stands under the Route's names carries its label; HTTPRoutes and the VirtualService belong to it, and
   nothing else does.
   */
  ghost predicate Attributed(children: Store, owner: Owner) {
    forall s: Slot ::
      var k := SlotKey(owner, s);
      k in children ==>
        && children[k].routeLabel == Some(owner.key.name)
        && children[k].owner ==
             if k.kind.HttpRouteKind? || k.kind.VirtualServiceKind? then Some(owner.key) else None
  }

  lemma {:induction false} DropShrinks(owner: Owner, st: PassState, slots: seq<Slot>, oracle: Oracle)
    ensures forall k :: k in ExecDrop(owner, st, slots, oracle).children ==>
              k in st.children && ExecDrop(owner, st, slots, oracle).children[k] == st.children[k]
    decreases |slots|
  {
    if slots != [] {
      var outcome := oracle(st.calls);
      var next := st.(children := if outcome.Applied() then st.children - {SlotKey(owner, slots[0])} else st.children,
                      calls := st.calls + 1);
      DropShrinks(owner, next, slots[1..], oracle);
    }
  }

  /** Whatever fails, a pass keeps it so. */
  lemma {:induction false} PassAttributes(owner: Owner, st: PassState, ops: seq<Op>, oracle: Oracle)
    requires Attributed(st.children, owner)
    ensures Attributed(Run(owner, st, ops, oracle).children, owner)
  {
    if ops != [] {
      var mid, last := Run(owner, st, ops[..|ops| - 1], oracle), ops[|ops| - 1];
      PassAttributes(owner, st, ops[..|ops| - 1], oracle);
      if last.Drop? { DropShrinks(owner, mid, last.slots, oracle); }
    }
  }
}
