/**
 The AuthorizationPolicy beside the routes: which requests the generated policy admits, and how they
 compare with those that the VirtualService and the HTTPRoute serve.
 */
module Authorization {
  import opened Text
  import opened RouteApi
  import opened Translation

  // ---------------------------------------------------------------- request matching

  /** Istio's string match in an AuthorizationPolicy: presence, suffix, prefix or exact. */
  predicate StringMatch(pattern: string, s: string) {
    if pattern == "*" then s != ""
    else if HasPrefix(pattern, "*") then HasSuffix(s, pattern[1..])
    else if HasSuffix(pattern, "*") then HasPrefix(s, pattern[..|pattern| - 1])
    else s == pattern
  }

  predicate EntryMatches(e: VsEntry, host: string, path: string) {
    host == e.authority && HasPrefix(path, e.prefix)
  }

  predicate AuthzMatches(r: AuthzRule, host: string, path: string) {
    StringMatch(r.host, host) && StringMatch(r.path, path)
  }

  /** Gateway API `PathPrefix`: element by element, a trailing slash of the prefix is ignored. */
  function GatewayStem(prefix: string): string {
    if HasSuffix(prefix, "/") then prefix[..|prefix| - 1] else prefix
  }

  predicate GatewayPathMatches(prefix: string, path: string) {
    path == GatewayStem(prefix) || HasPrefix(path, GatewayStem(prefix) + "/")
  }

  predicate HttpRouteMatches(b: Body, host: string, path: string)
    requires b.HttpRoute?
  {
    host == b.host && GatewayPathMatches(b.path, path)
  }

  /** A rule path as the schema's users write it. */
  predicate RootedOrEmpty(path: string) {
    path == "" || HasPrefix(path, "/")
  }

  predicate Literal(host: string) {
    !HasPrefix(host, "*") && !HasSuffix(host, "*")
  }

  lemma PrefixTransitive(a: string, b: string, c: string)
    requires HasPrefix(c, b) && HasPrefix(b, a)
    ensures HasPrefix(c, a)
  {
    assert c[..|b|][..|a|] == c[..|a|];
  }

  /** What stands before the star in the policy pattern of a path. */
  function PatternStem(p: string): string {
    if p == "" || p == "/" then "/" else if HasSuffix(p, "*") then p[..|p| - 1] else p
  }

  lemma PatternMeaning(p: string, path: string)
    requires RootedOrEmpty(p)
    ensures StringMatch(AuthzPathPattern(p), path) <==> HasPrefix(path, PatternStem(p))
  {
    var pattern := AuthzPathPattern(p);
    assert pattern == PatternStem(p) + "*";
    assert pattern[0] == '/';
    assert !HasPrefix(pattern, "*") && HasSuffix(pattern, "*");
    assert pattern[..|pattern| - 1] == PatternStem(p);
  }

  /** The policy pattern of a path admits at least what the VirtualService prefix admits. */
  lemma AuthzPathCovers(p: string, path: string)
    requires RootedOrEmpty(p) && HasPrefix(path, NormalizePath(p))
    ensures StringMatch(AuthzPathPattern(p), path)
  {
    PatternMeaning(p, path);
    assert HasPrefix(NormalizePath(p), PatternStem(p));
    PrefixTransitive(PatternStem(p), NormalizePath(p), path);
  }

  lemma SelfMatch(host: string)
    ensures StringMatch(host, host)
  {
  }

  // ---------------------------------------------------------------- the whole policy

  ghost predicate Rooted(rules: seq<Rule>) {
    forall i :: 0 <= i < |rules| ==> RootedOrEmpty(rules[i].path)
  }

  /** Some rule of the AuthorizationPolicy admits the request. */
  ghost predicate PolicyAdmits(policy: Body, host: string, path: string)
    requires policy.AuthorizationPolicy?
  {
    exists i :: 0 <= i < |policy.rules| && AuthzMatches(policy.rules[i], host, path)
  }

  /** Some entry of the VirtualService serves the request. */
  ghost predicate EntriesServe(vs: Body, host: string, path: string)
    requires vs.VirtualService?
  {
    exists i :: 0 <= i < |vs.entries| && EntryMatches(vs.entries[i], host, path)
  }

  /** The policy admits exactly what the VirtualService serves. */
  ghost predicate AdmitsJustServed(policy: Body, vs: Body)
    requires policy.AuthorizationPolicy? && vs.VirtualService?
  {
    forall host: string, path: string :: PolicyAdmits(policy, host, path) <==> EntriesServe(vs, host, path)
  }

  /** The i-th rule lies under some rule for the same host, star or not. */
  ghost predicate RuleCovered(rules: seq<Rule>, i: nat)
    requires i < |rules|
  {
    Literal(rules[i].host) &&
    exists j :: 0 <= j < |rules| && rules[j].host == rules[i].host
                && HasPrefix(PatternStem(rules[i].path), NormalizePath(rules[j].path))
  }

  ghost predicate AllCovered(rules: seq<Rule>) {
    forall i :: 0 <= i < |rules| ==> RuleCovered(rules, i)
  }

  /**
   Authorization coverage: whatever request some VirtualService entry serves, some rule of the
   generated AuthorizationPolicy admits.
   */
  lemma AuthorizationCovers(ns: string, spec: Spec, canary: Option<Canary>, host: string, path: string)
    requires Rooted(spec.rules) && EntriesServe(VirtualServiceBody(ns, spec, canary), host, path)
    ensures PolicyAdmits(AuthorizationPolicyBody(spec), host, path)
  {
    var i :| 0 <= i < |Entries(ns, spec, canary)| && EntryMatches(Entries(ns, spec, canary)[i], host, path);
    AuthzPathCovers(spec.rules[i].path, path);
    SelfMatch(host);
    assert AuthzMatches(AuthzRules(spec.rules)[i], host, path);
  }

  lemma CoveredServes(ns: string, spec: Spec, canary: Option<Canary>, host: string, path: string, i: nat)
    requires Rooted(spec.rules) && i < |spec.rules| && RuleCovered(spec.rules, i)
    requires AuthzMatches(AuthzRules(spec.rules)[i], host, path)
    ensures EntriesServe(VirtualServiceBody(ns, spec, canary), host, path)
  {
    var rules := spec.rules;
    PatternMeaning(rules[i].path, path);
    var j :| 0 <= j < |rules| && rules[j].host == rules[i].host
             && HasPrefix(PatternStem(rules[i].path), NormalizePath(rules[j].path));
    PrefixTransitive(NormalizePath(rules[j].path), PatternStem(rules[i].path), path);
    assert EntryMatches(Entries(ns, spec, canary)[j], host, path);
  }

  /** A string longer than every rule host. */
  function Long(rules: seq<Rule>): (s: string)
    ensures s != ""
    ensures forall i :: 0 <= i < |rules| ==> |s| > |rules[i].host|
  {
    if rules == [] then "a"
    else
      var s := Long(rules[..|rules| - 1]);
      if |s| > |rules[|rules| - 1].host| then s else rules[|rules| - 1].host + "a"
  }

  /** A host under a wildcard that no rule names. */
  lemma WildcardReaches(rules: seq<Rule>, h: string) returns (host: string)
    requires !Literal(h)
    ensures StringMatch(h, host) && forall i :: 0 <= i < |rules| ==> host != rules[i].host
  {
    var l := Long(rules);
    if h == "*" {
      host := l;
    } else if HasPrefix(h, "*") {
      host := l + h[1..];
      assert host[|host| - |h[1..]|..] == h[1..];
    } else {
      host := h[..|h| - 1] + l;
      assert host[..|h| - 1] == h[..|h| - 1];
    }
  }

  ghost predicate NoWider(ns: string, spec: Spec, canary: Option<Canary>) {
    forall host: string, path: string ::
      PolicyAdmits(AuthorizationPolicyBody(spec), host, path) ==>
        EntriesServe(VirtualServiceBody(ns, spec, canary), host, path)
  }

  /** What a rule's pattern admits at its own stem must be served by an entry for its host. */
  lemma NoWiderCovers(ns: string, spec: Spec, canary: Option<Canary>, i: nat)
    requires Rooted(spec.rules) && i < |spec.rules| && NoWider(ns, spec, canary)
    ensures RuleCovered(spec.rules, i)
  {
    var h, stem := spec.rules[i].host, PatternStem(spec.rules[i].path);
    PatternMeaning(spec.rules[i].path, stem);
    var host := h;
    if Literal(h) {
      SelfMatch(h);
    } else {
      host := WildcardReaches(spec.rules, h);
    }
    assert AuthzMatches(AuthzRules(spec.rules)[i], host, stem);
    assert PolicyAdmits(AuthorizationPolicyBody(spec), host, stem);
    var j :| 0 <= j < |Entries(ns, spec, canary)| && EntryMatches(Entries(ns, spec, canary)[j], host, stem);
    assert host == spec.rules[j].host && HasPrefix(stem, NormalizePath(spec.rules[j].path));
  }

  /**
   "The policy admits no more than the routes serve" is false. It admits exactly what the VirtualService
   serves if and only if no rule host is a wildcard and every rule's pattern, without its star, lies
   under the path of some rule for the same host.
   */
  lemma PolicyExactly(ns: string, spec: Spec, canary: Option<Canary>)
    requires Rooted(spec.rules)
    ensures AdmitsJustServed(AuthorizationPolicyBody(spec), VirtualServiceBody(ns, spec, canary)) <==>
            AllCovered(spec.rules)
  {
    forall host: string, path: string | EntriesServe(VirtualServiceBody(ns, spec, canary), host, path)
      ensures PolicyAdmits(AuthorizationPolicyBody(spec), host, path)
    {
      AuthorizationCovers(ns, spec, canary, host, path);
    }
    if AllCovered(spec.rules) {
      forall host: string, path: string | PolicyAdmits(AuthorizationPolicyBody(spec), host, path)
        ensures EntriesServe(VirtualServiceBody(ns, spec, canary), host, path)
      {
        var i :| 0 <= i < |AuthzRules(spec.rules)| && AuthzMatches(AuthzRules(spec.rules)[i], host, path);
        CoveredServes(ns, spec, canary, host, path, i);
      }
    } else {
      var i :| 0 <= i < |spec.rules| && !RuleCovered(spec.rules, i);
      if NoWider(ns, spec, canary) { NoWiderCovers(ns, spec, canary, i); }
    }
  }

  /** With literal hosts and no path ending in a star the two admit exactly the same requests. */
  lemma AuthorizationExact(ns: string, spec: Spec, canary: Option<Canary>, host: string, path: string)
    requires Rooted(spec.rules)
    requires forall i :: 0 <= i < |spec.rules| ==> !HasSuffix(spec.rules[i].path, "*") && Literal(spec.rules[i].host)
    ensures PolicyAdmits(AuthorizationPolicyBody(spec), host, path) <==>
            EntriesServe(VirtualServiceBody(ns, spec, canary), host, path)
  {
    var rules := spec.rules;
    forall i | 0 <= i < |rules|
      ensures RuleCovered(rules, i)
    {
      assert PatternStem(rules[i].path) == NormalizePath(rules[i].path);
    }
    PolicyExactly(ns, spec, canary);
  }

  /** Of one rule alone the policy is exact if and only if its host is no wildcard and its path ends in no star. */
  lemma SingleRuleExactly(ns: string, spec: Spec, canary: Option<Canary>)
    requires |spec.rules| == 1 && Rooted(spec.rules)
    ensures AdmitsJustServed(AuthorizationPolicyBody(spec), VirtualServiceBody(ns, spec, canary)) <==>
            Literal(spec.rules[0].host) && !HasSuffix(spec.rules[0].path, "*")
  {
    PolicyExactly(ns, spec, canary);
    SingleCovered(spec.rules);
  }

  lemma SingleCovered(rules: seq<Rule>)
    requires |rules| == 1 && Rooted(rules)
    ensures AllCovered(rules) <==> Literal(rules[0].host) && !HasSuffix(rules[0].path, "*")
  {
    var stem, prefix := PatternStem(rules[0].path), NormalizePath(rules[0].path);
    assert AllCovered(rules) <==> RuleCovered(rules, 0);
    assert RuleCovered(rules, 0) <==> Literal(rules[0].host) && HasPrefix(stem, prefix);
    if HasSuffix(rules[0].path, "*") {
      assert |stem| < |prefix|;
    } else {
      assert stem == prefix;
    }
  }

  /** A path ending in a star makes the policy too wide alone, and not beside a rule that covers it. */
  lemma StarAloneAndCovered(star: Rule, root: Rule)
    requires star.host == root.host && Literal(root.host) && star.path == "/foo*" && root.path == "/"
    ensures !AllCovered([star]) && AllCovered([star, root])
  {
    var rules := [star, root];
    assert PatternStem("/foo*") == "/foo";
    assert rules[1] == root && HasPrefix("/foo", "/");
    assert RuleCovered(rules, 0);
    assert RuleCovered(rules, 1);
    assert !RuleCovered([star], 0);
  }

  // ---------------------------------------------------------------- HTTPRoute paths

  /** Some HTTPRoute of a rule serves the request. */
  ghost predicate HttpRoutesServe(spec: Spec, canary: Option<Canary>, host: string, path: string) {
    HasPrefix(path, "/") &&
    exists i :: 0 <= i < |spec.rules| && HttpRouteMatches(RuleBody(spec, spec.rules[i], canary), host, path)
  }

  /** The path is the root or has no trailing slash. */
  predicate Unslashed(p: string) {
    p == "" || p == "/" || !HasSuffix(p, "/")
  }

  lemma HttpRouteCovered(p: string, path: string)
    requires RootedOrEmpty(p) && Unslashed(p)
    requires HasPrefix(path, "/") && GatewayPathMatches(NormalizePath(p), path)
    ensures HasPrefix(path, NormalizePath(p))
  {
    var prefix := NormalizePath(p);
    if prefix != "/" {
      assert !HasSuffix(prefix, "/");
      assert HasPrefix(prefix + "/", prefix);
      if HasPrefix(path, prefix + "/") { PrefixTransitive(prefix, prefix + "/", path); }
    }
  }

  /** Of a path ending in a slash the HTTPRoute also serves the path without it. */
  lemma HttpRouteServesStem(p: string)
    requires RootedOrEmpty(p) && !Unslashed(p)
    ensures var stem := p[..|p| - 1];
            HasPrefix(stem, "/") && GatewayPathMatches(NormalizePath(p), stem) && !HasPrefix(stem, p)
  {
  }

  /** The policy admits the one path that a rule's HTTPRoute serves outside the rule's own pattern. */
  ghost predicate StemAdmitted(rules: seq<Rule>, i: nat)
    requires i < |rules|
  {
    var p := rules[i].path;
    Unslashed(p) ||
    exists j :: 0 <= j < |rules| && StringMatch(rules[j].host, rules[i].host) &&
                HasPrefix(GatewayStem(p), PatternStem(rules[j].path))
  }

  ghost predicate StemsAdmitted(rules: seq<Rule>) {
    forall i :: 0 <= i < |rules| ==> StemAdmitted(rules, i)
  }

  ghost predicate PolicyCovers(spec: Spec, canary: Option<Canary>) {
    forall host: string, path: string ::
      HttpRoutesServe(spec, canary, host, path) ==> PolicyAdmits(AuthorizationPolicyBody(spec), host, path)
  }

  lemma RuleAdmits(spec: Spec, host: string, path: string, j: nat)
    requires Rooted(spec.rules) && j < |spec.rules| && StringMatch(spec.rules[j].host, host)
    requires HasPrefix(path, PatternStem(spec.rules[j].path))
    ensures PolicyAdmits(AuthorizationPolicyBody(spec), host, path)
  {
    PatternMeaning(spec.rules[j].path, path);
    assert AuthzMatches(AuthzRules(spec.rules)[j], host, path);
  }

  lemma AdmittedBy(spec: Spec, host: string, path: string) returns (j: nat)
    requires Rooted(spec.rules) && PolicyAdmits(AuthorizationPolicyBody(spec), host, path)
    ensures j < |spec.rules| && StringMatch(spec.rules[j].host, host)
    ensures HasPrefix(path, PatternStem(spec.rules[j].path))
  {
    j :| 0 <= j < |AuthzRules(spec.rules)| && AuthzMatches(AuthzRules(spec.rules)[j], host, path);
    PatternMeaning(spec.rules[j].path, path);
  }

  lemma ServedIsAdmitted(spec: Spec, canary: Option<Canary>, host: string, path: string, i: nat)
    requires Rooted(spec.rules) && i < |spec.rules| && StemAdmitted(spec.rules, i) && HasPrefix(path, "/")
    requires HttpRouteMatches(RuleBody(spec, spec.rules[i], canary), host, path)
    ensures PolicyAdmits(AuthorizationPolicyBody(spec), host, path)
  {
    var p := spec.rules[i].path;
    SelfMatch(host);
    if Unslashed(p) {
      HttpRouteCovered(p, path);
      AuthzPathCovers(p, path);
      assert AuthzMatches(AuthzRules(spec.rules)[i], host, path);
    } else if path == GatewayStem(p) {
      var j :| 0 <= j < |spec.rules| && StringMatch(spec.rules[j].host, spec.rules[i].host) &&
               HasPrefix(GatewayStem(p), PatternStem(spec.rules[j].path));
      RuleAdmits(spec, host, path, j);
    } else {
      assert GatewayStem(p) + "/" == p == PatternStem(p);
      RuleAdmits(spec, host, path, i);
    }
  }

  lemma CoversStem(spec: Spec, canary: Option<Canary>, i: nat)
    requires Rooted(spec.rules) && i < |spec.rules| && PolicyCovers(spec, canary)
    ensures StemAdmitted(spec.rules, i)
  {
    var r := spec.rules[i];
    if !Unslashed(r.path) {
      HttpRouteServesStem(r.path);
      var stem := GatewayStem(r.path);
      assert HttpRouteMatches(RuleBody(spec, r, canary), r.host, stem);
      assert HttpRoutesServe(spec, canary, r.host, stem);
      var j := AdmittedBy(spec, r.host, stem);
    }
  }

  /**
   The HTTPRoute matches element by element: of `/app/` it also serves `/app`. The policy admits everything
   the HTTPRoutes serve exactly if every rule path is the root, or has no trailing slash, or is admitted
   without it by the pattern of some rule that covers the host.
   */
  lemma PolicyCoversExactly(spec: Spec, canary: Option<Canary>)
    requires Rooted(spec.rules)
    ensures PolicyCovers(spec, canary) <==> StemsAdmitted(spec.rules)
  {
    if StemsAdmitted(spec.rules) {
      forall host: string, path: string | HttpRoutesServe(spec, canary, host, path)
        ensures PolicyAdmits(AuthorizationPolicyBody(spec), host, path)
      {
        var i :| 0 <= i < |spec.rules| && HttpRouteMatches(RuleBody(spec, spec.rules[i], canary), host, path);
        ServedIsAdmitted(spec, canary, host, path, i);
      }
    }
    if PolicyCovers(spec, canary) {
      forall i | 0 <= i < |spec.rules|
        ensures StemAdmitted(spec.rules, i)
      {
        CoversStem(spec, canary, i);
      }
    }
  }

  /** Of one rule alone the policy covers its HTTPRoute exactly if the path is the root or has no trailing slash. */
  lemma SingleRuleCoversExactly(spec: Spec, canary: Option<Canary>)
    requires |spec.rules| == 1 && Rooted(spec.rules)
    ensures PolicyCovers(spec, canary) <==> Unslashed(spec.rules[0].path)
  {
    PolicyCoversExactly(spec, canary);
    SingleStem(spec.rules, spec.rules[0].path);
  }

  lemma SingleStem(rules: seq<Rule>, p: string)
    requires |rules| == 1 && Rooted(rules) && rules[0].path == p
    ensures StemsAdmitted(rules) <==> Unslashed(p)
  {
    assert StemsAdmitted(rules) <==> StemAdmitted(rules, 0);
    if !Unslashed(p) {
      assert GatewayStem(p) == p[..|p| - 1] && PatternStem(p) == p;
    }
  }

  /** `/app/` is not covered alone, and is beside a rule for `/`. */
  lemma SlashAloneAndCovered(slashed: Rule, root: Rule)
    requires slashed.host == root.host && slashed.path == "/app/" && root.path == "/"
    ensures !StemsAdmitted([slashed]) && StemsAdmitted([slashed, root])
  {
    var rules := [slashed, root];
    assert GatewayStem("/app/") == "/app";
    assert !StemAdmitted([slashed], 0);
    SelfMatch(root.host);
    assert rules[1] == root && HasPrefix("/app", PatternStem("/"));
    assert StemAdmitted(rules, 0) && StemAdmitted(rules, 1);
  }

  /** HTTPRoute and VirtualService entry serve the same request paths. */
  ghost predicate SamePaths(p: string) {
    forall path: string :: HasPrefix(path, "/") ==>
      (GatewayPathMatches(NormalizePath(p), path) <==> HasPrefix(path, NormalizePath(p)))
  }

  /** Of a path not ending in a slash only the VirtualService serves its continuations within an element. */
  lemma HttpRouteRefusesContinuation(p: string)
    requires HasPrefix(p, "/") && !HasSuffix(p, "/")
    ensures var path := p + "x"; HasPrefix(path, "/") && HasPrefix(path, p) && !GatewayPathMatches(p, path)
  {
    var path := p + "x";
    assert path[|p|] == 'x' && (p + "/")[|p|] == '/';
    assert path[..|p| + 1][|p|] == 'x';
  }

  /** At the root both serve everything. */
  lemma RootServesAll()
    ensures SamePaths("/") && SamePaths("")
  {
    assert "/"[..0] + "/" == "/";
  }

  lemma NotSamePaths(p: string, path: string)
    requires HasPrefix(path, "/") && GatewayPathMatches(NormalizePath(p), path) != HasPrefix(path, NormalizePath(p))
    ensures !SamePaths(p)
  {
  }

  /** HTTPRoute and VirtualService entry serve the same request paths only for the root path. */
  lemma PrefixesAgreeOnlyAtRoot(p: string)
    requires RootedOrEmpty(p)
    ensures SamePaths(p) <==> p == "" || p == "/"
  {
    if p == "" || p == "/" {
      RootServesAll();
    } else if HasSuffix(p, "/") {
      HttpRouteServesStem(p);
      NotSamePaths(p, p[..|p| - 1]);
    } else {
      HttpRouteRefusesContinuation(p);
      NotSamePaths(p, p + "x");
    }
  }
}
