/** Readiness of the Services a Route refers to, canary included. */
module BackendHealth {
  import opened Lists
  import opened RouteApi
  import opened Translation

  type ServiceReads = string -> Lookup<()>

  /** Addresses per endpoint subset. */
  type EndpointReads = string -> Lookup<seq<nat>>

  datatype Summary = Summary(missingServices: seq<string>, zeroEndpoints: seq<string>)
  {
    predicate AllReady() { |missingServices| == 0 && |zeroEndpoints| == 0 }
  }

  predicate HasReadyEndpoints(subsets: seq<nat>) {
    exists i :: 0 <= i < |subsets| && subsets[i] > 0
  }

  function ServiceNames(backends: seq<Backend>): seq<string> {
    seq(|backends|, i requires 0 <= i < |backends| => backends[i].serviceName)
  }

  /** Every reference to a Service, in rule order. */
  function References(rules: seq<Rule>, canary: Option<Canary>): seq<string> {
    if rules == [] then []
    else References(rules[..|rules| - 1], canary) + ServiceNames(RuleBackends(rules[|rules| - 1], canary))
  }

  predicate Missing(services: ServiceReads, s: string) {
    services(s).NotFound?
  }

  predicate Empty(services: ServiceReads, endpoints: EndpointReads, s: string) {
    services(s).Found? && (endpoints(s).NotFound? || (endpoints(s).Found? && !HasReadyEndpoints(endpoints(s).value)))
  }

  predicate Unreadable(services: ServiceReads, endpoints: EndpointReads, s: string) {
    services(s).ReadError? || (services(s).Found? && endpoints(s).ReadError?)
  }

  function MissingAmong(names: seq<string>, services: ServiceReads): (r: seq<string>)
    ensures forall s :: s in r <==> s in names && Missing(services, s)
    ensures NoDup(names) ==> NoDup(r)
  {
    if names == [] then []
    else
      MissingAmong(names[..|names| - 1], services) +
      if Missing(services, names[|names| - 1]) then [names[|names| - 1]] else []
  }

  function EmptyAmong(names: seq<string>, services: ServiceReads, endpoints: EndpointReads): (r: seq<string>)
    ensures forall s :: s in r <==> s in names && Empty(services, endpoints, s)
    ensures NoDup(names) ==> NoDup(r)
  {
    if names == [] then []
    else
      EmptyAmong(names[..|names| - 1], services, endpoints) +
      if Empty(services, endpoints, names[|names| - 1]) then [names[|names| - 1]] else []
  }

  /** The classification of a list of references, each Service at its first occurrence. */
  function Classify(names: seq<string>, services: ServiceReads, endpoints: EndpointReads): Summary {
    var unique := Dedup(names);
    Summary(MissingAmong(unique, services), EmptyAmong(unique, services, endpoints))
  }

  lemma ClassifyOne(names: seq<string>, s: string, services: ServiceReads, endpoints: EndpointReads)
    ensures var before, after := Classify(names, services, endpoints), Classify(names + [s], services, endpoints);
            if s in names then after == before
            else after == Summary(before.missingServices + (if Missing(services, s) then [s] else []),
                                  before.zeroEndpoints + (if Empty(services, endpoints, s) then [s] else []))
  {
    assert (names + [s])[..|names|] == names;
    if s !in names {
      assert (Dedup(names) + [s])[..|Dedup(names)|] == Dedup(names);
    }
  }

  method HasReady(subsets: seq<nat>) returns (ready: bool)
    ensures ready == HasReadyEndpoints(subsets)
  {
    for i := 0 to |subsets|
      invariant forall j :: 0 <= j < i ==> subsets[j] == 0
    {
      if subsets[i] > 0 {
        return true;
      }
    }
    ready := false;
  }

  /** Everything seen so far is readable and classified. */
  ghost predicate JudgedWell(names: seq<string>, seen: set<string>, summary: Summary,
                             services: ServiceReads, endpoints: EndpointReads) {
    && (forall s :: s in seen <==> s in names)
    && (forall s :: s in names ==> !Unreadable(services, endpoints, s))
    && summary == Classify(names, services, endpoints)
  }

  lemma JudgedNext(names: seq<string>, seen: set<string>, summary: Summary, name: string,
                   services: ServiceReads, endpoints: EndpointReads)
    requires JudgedWell(names, seen, summary, services, endpoints)
    ensures name in seen ==> JudgedWell(names + [name], seen, summary, services, endpoints)
    ensures name !in seen && !Unreadable(services, endpoints, name) ==>
              JudgedWell(names + [name], seen + {name},
                         Summary(summary.missingServices + (if Missing(services, name) then [name] else []),
                                 summary.zeroEndpoints + (if Empty(services, endpoints, name) then [name] else [])),
                         services, endpoints)
  {
    ClassifyOne(names, name, services, endpoints);
  }

  /** One Service not seen before. */
  method JudgeService(name: string, was: Summary, services: ServiceReads, endpoints: EndpointReads)
    returns (summary: Summary, failed: bool)
    ensures failed == Unreadable(services, endpoints, name)
    ensures !failed ==> summary == Summary(was.missingServices + (if Missing(services, name) then [name] else []),
                                           was.zeroEndpoints +
                                           (if Empty(services, endpoints, name) then [name] else []))
  {
    summary, failed := was, false;
    var service := services(name);
    if service.NotFound? {
      summary := summary.(missingServices := summary.missingServices + [name]);
      return;
    }
    if service.ReadError? {
      return summary, true;
    }
    var ep := endpoints(name);
    if ep.NotFound? {
      summary := summary.(zeroEndpoints := summary.zeroEndpoints + [name]);
      return;
    }
    if ep.ReadError? {
      return summary, true;
    }
    var ready := HasReady(ep.value);
    if !ready {
      summary := summary.(zeroEndpoints := summary.zeroEndpoints + [name]);
    }
  }

  /** The next reference: a Service met before is passed over. */
  method JudgeNext(name: string, services: ServiceReads, endpoints: EndpointReads,
                   ghost names: seq<string>, was: set<string>, before: Summary)
    returns (seen: set<string>, summary: Summary, failed: bool)
    requires JudgedWell(names, was, before, services, endpoints)
    ensures failed ==> Unreadable(services, endpoints, name)
    ensures !failed ==> JudgedWell(names + [name], seen, summary, services, endpoints)
  {
    JudgedNext(names, was, before, name, services, endpoints);
    seen, summary, failed := was, before, false;
    if name !in seen {
      seen := seen + {name};
      summary, failed := JudgeService(name, summary, services, endpoints);
    }
  }

  lemma NextName(names: seq<string>, backends: seq<Backend>, j: nat)
    requires j < |backends|
    ensures names + ServiceNames(backends[..j + 1]) == names + ServiceNames(backends[..j]) + [backends[j].serviceName]
  {
  }

  /** The Services of one list of backends, after the references `names`. */
  method JudgeBackends(backends: seq<Backend>, services: ServiceReads, endpoints: EndpointReads,
                       ghost names: seq<string>, was: set<string>, before: Summary)
    returns (seen: set<string>, summary: Summary, failed: bool)
    requires JudgedWell(names, was, before, services, endpoints)
    ensures failed ==> exists j :: 0 <= j < |backends| && Unreadable(services, endpoints, backends[j].serviceName)
    ensures !failed ==> JudgedWell(names + ServiceNames(backends), seen, summary, services, endpoints)
  {
    seen, summary, failed := was, before, false;
    ghost var done := names;
    for j := 0 to |backends|
      invariant !failed && done == names + ServiceNames(backends[..j])
      invariant JudgedWell(done, seen, summary, services, endpoints)
    {
      seen, summary, failed := JudgeNext(backends[j].serviceName, services, endpoints, done, seen, summary);
      if failed {
        return;
      }
      NextName(names, backends, j);
      done := done + [backends[j].serviceName];
    }
    assert backends[..|backends|] == backends;
  }

  /** `evaluateBackendHealth`: the first read error ends it; otherwise each Service is judged once. */
  method EvaluateBackendHealth(rules: seq<Rule>, canary: Option<Canary>, services: ServiceReads,
                               endpoints: EndpointReads)
    returns (summary: Summary, failed: bool)
    ensures failed <==> exists s :: s in References(rules, canary) && Unreadable(services, endpoints, s)
    ensures !failed ==> summary == Classify(References(rules, canary), services, endpoints)
  {
    var seen: set<string> := {};
    summary, failed := Summary([], []), false;
    for i := 0 to |rules|
      invariant !failed && JudgedWell(References(rules[..i], canary), seen, summary, services, endpoints)
    {
      var backends := RuleBackends(rules[i], canary);
      seen, summary, failed :=
        JudgeBackends(backends, services, endpoints, References(rules[..i], canary), seen, summary);
      if failed {
        ghost var j :| 0 <= j < |backends| && Unreadable(services, endpoints, backends[j].serviceName);
        ReferencesContain(rules, canary, i, j);
        return;
      }
      assert rules[..i + 1][..i] == rules[..i];
    }
    assert rules[..|rules|] == rules;
  }

  lemma {:induction false} ReferencesContain(rules: seq<Rule>, canary: Option<Canary>, i: nat, j: nat)
    requires i < |rules| && j < |RuleBackends(rules[i], canary)|
    ensures RuleBackends(rules[i], canary)[j].serviceName in References(rules, canary)
  {
    if i == |rules| - 1 {
      assert ServiceNames(RuleBackends(rules[i], canary))[j] in References(rules, canary);
    } else {
      ReferencesContain(rules[..|rules| - 1], canary, i, j);
    }
  }

  lemma {:induction false} AmongInOrder(names: seq<string>, all: seq<string>, services: ServiceReads,
                                        endpoints: EndpointReads)
    requires InFirstOrder(names, all)
    ensures InFirstOrder(MissingAmong(names, services), all)
    ensures InFirstOrder(EmptyAmong(names, services, endpoints), all)
  {
    if names != [] {
      var init := names[..|names| - 1];
      var last := names[|names| - 1];
      assert names == init + [last];
      assert InFirstOrder(init, all);
      AmongInOrder(init, all, services, endpoints);
      InFirstOrderAppend(MissingAmong(init, services), init, last, all);
      InFirstOrderAppend(EmptyAmong(init, services, endpoints), init, last, all);
    }
  }

  /** Both lists are in the order in which the rules first refer to the Services. */
  lemma ClassifiedInOrder(rules: seq<Rule>, canary: Option<Canary>, services: ServiceReads, endpoints: EndpointReads)
    ensures var c, refs := Classify(References(rules, canary), services, endpoints), References(rules, canary);
            InFirstOrder(c.missingServices, refs) && InFirstOrder(c.zeroEndpoints, refs)
  {
    var refs := References(rules, canary);
    DedupInOrder(refs);
    AmongInOrder(Dedup(refs), refs, services, endpoints);
  }

  // ---------------------------------------------------------------- what the classification says

  /** Some rule forwards to the Service, or the canary does, which stands beside every rule. */
  ghost predicate Referred(rules: seq<Rule>, canary: Option<Canary>, s: string) {
    exists i :: 0 <= i < |rules| &&
      (rules[i].backend.serviceName == s || (canary.Some? && canary.value.backend.serviceName == s))
  }

  lemma {:induction false} ReferencesExactly(rules: seq<Rule>, canary: Option<Canary>, s: string)
    ensures s in References(rules, canary) <==> Referred(rules, canary, s)
  {
    if rules != [] {
      var init, last := rules[..|rules| - 1], rules[|rules| - 1];
      ReferencesExactly(init, canary, s);
      var names := ServiceNames(RuleBackends(last, canary));
      assert names[0] == last.backend.serviceName;
      if canary.Some? { assert names[1] == canary.value.backend.serviceName; }
      assert s in names <==>
        s == last.backend.serviceName || (canary.Some? && s == canary.value.backend.serviceName);
    }
  }

  /** The Service is there and some subset of its endpoints has a ready address. */
  ghost predicate Serving(services: ServiceReads, endpoints: EndpointReads, s: string) {
    services(s).Found? && endpoints(s).Found? && exists i :: 0 <= i < |endpoints(s).value| && endpoints(s).value[i] > 0
  }

  /** Neither the Service nor its endpoints failed to be read. */
  ghost predicate Readable(services: ServiceReads, endpoints: EndpointReads, s: string) {
    !services(s).ReadError? && (services(s).Found? ==> !endpoints(s).ReadError?)
  }

  lemma JudgedAs(services: ServiceReads, endpoints: EndpointReads, s: string)
    ensures Unreadable(services, endpoints, s) <==> !Readable(services, endpoints, s)
    ensures Missing(services, s) <==> services(s).NotFound?
    ensures Readable(services, endpoints, s) ==>
              (Empty(services, endpoints, s) <==> services(s).Found? && !Serving(services, endpoints, s))
  {
  }

  /** The evaluation fails exactly if something referred to cannot be read. */
  lemma UnreadableExactly(rules: seq<Rule>, canary: Option<Canary>, services: ServiceReads, endpoints: EndpointReads)
    ensures (exists s :: s in References(rules, canary) && Unreadable(services, endpoints, s)) <==>
            exists s :: Referred(rules, canary, s) && !Readable(services, endpoints, s)
  {
    forall s
      ensures s in References(rules, canary) <==> Referred(rules, canary, s)
      ensures Unreadable(services, endpoints, s) <==> !Readable(services, endpoints, s)
    {
      ReferencesExactly(rules, canary, s);
      JudgedAs(services, endpoints, s);
    }
  }

  /** One Service in the classification. */
  lemma ClassifiedAs(rules: seq<Rule>, canary: Option<Canary>, services: ServiceReads, endpoints: EndpointReads,
                     s: string)
    requires Readable(services, endpoints, s)
    ensures var c := Classify(References(rules, canary), services, endpoints);
            && (s in c.missingServices <==> Referred(rules, canary, s) && services(s).NotFound?)
            && (s in c.zeroEndpoints <==>
                  Referred(rules, canary, s) && services(s).Found? && !Serving(services, endpoints, s))
  {
    ReferencesExactly(rules, canary, s);
    JudgedAs(services, endpoints, s);
  }

  /**
   When everything referred to can be read, the two lists are free of duplicates; the one holds exactly the
   referenced Services that are not there, the other those that are there without a ready endpoint. Nothing is
   listed exactly when all are serving.
   */
  lemma ClassificationExact(rules: seq<Rule>, canary: Option<Canary>, services: ServiceReads, endpoints: EndpointReads)
    requires forall s :: Referred(rules, canary, s) ==> Readable(services, endpoints, s)
    ensures var c := Classify(References(rules, canary), services, endpoints);
            && NoDup(c.missingServices) && NoDup(c.zeroEndpoints)
            && (forall s :: s in c.missingServices <==> Referred(rules, canary, s) && services(s).NotFound?)
            && (forall s :: s in c.zeroEndpoints <==>
                  Referred(rules, canary, s) && services(s).Found? && !Serving(services, endpoints, s))
            && (c.AllReady() <==> forall s :: Referred(rules, canary, s) ==> Serving(services, endpoints, s))
  {
    var c := Classify(References(rules, canary), services, endpoints);
    forall s
      ensures s in c.missingServices <==> Referred(rules, canary, s) && services(s).NotFound?
      ensures s in c.zeroEndpoints <==>
                Referred(rules, canary, s) && services(s).Found? && !Serving(services, endpoints, s)
    {
      ReferencesExactly(rules, canary, s);
      if Referred(rules, canary, s) { ClassifiedAs(rules, canary, services, endpoints, s); }
    }
    NothingListed(c.missingServices);
    NothingListed(c.zeroEndpoints);
  }

  lemma NothingListed(names: seq<string>)
    ensures |names| == 0 <==> forall s :: s !in names
  {
    if |names| > 0 { assert names[0] in names; }
  }

  /** `phaseReasonAndMessage` of a summary that blocks. */
  function BlockedPhase(summary: Summary): (Phase, Reason)
    requires !summary.AllReady()
  {
    if |summary.missingServices| > 0 then (Pending, BackendServiceMissing) else (Degraded, BackendNoEndpoints)
  }
}
