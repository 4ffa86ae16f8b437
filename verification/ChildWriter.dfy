/**
 The writes of a pass as the controller performs them, call by call, on the API server's store.
 Every method is tied to the specification of the pass in `ChildPass`.
 */
module ChildWriter {
  import opened RouteApi
  import opened ChildNames
  import opened Translation
  import opened ChildPass

  lemma {:induction false} RunConcat(owner: Owner, st: PassState, a: seq<Op>, b: seq<Op>, oracle: Oracle)
    ensures Run(owner, st, a + b, oracle) == Run(owner, Run(owner, st, a, oracle), b, oracle)
  {
    if b == [] {
      assert a + b == a;
    } else {
      RunConcat(owner, st, a, b[..|b| - 1], oracle);
      assert (a + b)[..|a + b| - 1] == a + b[..|b| - 1];
    }
  }

  lemma RunPrefix(owner: Owner, st: PassState, ops: seq<Op>, i: nat, oracle: Oracle)
    requires i < |ops|
    ensures Run(owner, st, ops[..i + 1], oracle) == Exec(owner, Run(owner, st, ops[..i], oracle), ops[i], oracle)
  {
    assert ops[..i + 1] == ops[..i] + [ops[i]];
    RunAppend(owner, st, ops[..i], ops[i], oracle);
  }

  lemma NextTlsOp(owner: Owner, st: PassState, seen: seq<Backend>, backend: Backend, oracle: Oracle)
    ensures Run(owner, st, TlsOpsFor(owner.key.ns, seen + [backend]), oracle) ==
            Exec(owner, Run(owner, st, TlsOpsFor(owner.key.ns, seen), oracle),
                 Put(TlsRule(|seen|), DestinationRuleBody(owner.key.ns, backend)), oracle)
  {
    var op := Put(TlsRule(|seen|), DestinationRuleBody(owner.key.ns, backend));
    assert TlsOpsFor(owner.key.ns, seen + [backend]) == TlsOpsFor(owner.key.ns, seen) + [op];
    RunAppend(owner, st, TlsOpsFor(owner.key.ns, seen), op, oracle);
  }

  // ---------------------------------------------------------------- teardown

  const CLEANUP_KINDS: seq<Kind> :=
    [DestinationRuleKind, EnvoyFilterKind, RequestAuthenticationKind, AuthorizationPolicyKind]

  /** The objects that a cleanup lists: one kind, the gateway namespace, the Route's labels. */
  predicate Listed(children: Store, name: string, gatewayNs: string, kind: Kind, k: ChildKey) {
    k in children && k.kind == kind && k.ns == gatewayNs && children[k].routeLabel == Some(name)
  }

  /** Cleanup with errors swallowed: a kind whose list fails is skipped, a failed delete is passed over. */
  function Teardown(children: Store, name: string, gatewayNs: string,
                    listOk: Kind -> bool, delete: ChildKey -> ApiOutcome): Store {
    map k | k in children &&
            !(!Owned(k.kind) && Listed(children, name, gatewayNs, k.kind, k) && listOk(k.kind) && delete(k).Applied())
      :: children[k]
  }

  /** A cleanup that has dealt with some kinds. */
  ghost function Torn(was: Store, name: string, gatewayNs: string, listOk: Kind -> bool,
                      delete: ChildKey -> ApiOutcome, kinds: seq<Kind>): Store {
    map k | k in was &&
      !(k.kind in kinds && Listed(was, name, gatewayNs, k.kind, k) && listOk(k.kind) && delete(k).Applied())
      :: was[k]
  }

  lemma EveryKindCleaned(kind: Kind)
    ensures kind in CLEANUP_KINDS <==> !Owned(kind)
  {
    assert CLEANUP_KINDS[0] == DestinationRuleKind && CLEANUP_KINDS[1] == EnvoyFilterKind &&
           CLEANUP_KINDS[2] == RequestAuthenticationKind && CLEANUP_KINDS[3] == AuthorizationPolicyKind;
  }

  lemma TornIsTeardown(children: Store, name: string, ns: string, listOk: Kind -> bool, delete: ChildKey -> ApiOutcome)
    ensures Torn(children, name, ns, listOk, delete, CLEANUP_KINDS) == Teardown(children, name, ns, listOk, delete)
    ensures Torn(children, name, ns, listOk, delete, []) == children
  {
    forall kind: Kind
      ensures kind in CLEANUP_KINDS <==> !Owned(kind)
    {
      EveryKindCleaned(kind);
    }
  }

  // ---------------------------------------------------------------- the server

  class ApiServer {
    var children: Store
    var calls: nat

    constructor ()
      ensures children == map[] && calls == 0
    {
      children := map[];
      calls := 0;
    }

    ghost predicate Tracks(st: PassState)
      reads this
    {
      children == st.children && calls == st.calls
    }

    /** Between `from` and `to` the server took the calls, `count` writes succeeded, `failed` tells of errors. */
    ghost predicate Reached(from: PassState, to: PassState, count: nat, failed: bool)
      reads this
    {
      Tracks(to) && |to.written| == |from.written| + count && to.failed == (from.failed || failed)
    }

    /** `createOrUpdate` and `createOrUpdateCrossNS`: they differ only in the owner reference. */
    method CreateOrUpdate(ghost st: PassState, owner: Owner, slot: Slot, body: Body, oracle: Oracle) returns (ok: bool)
      requires Tracks(st)
      modifies this
      ensures var end := ExecPut(owner, st, slot, body, oracle);
              && Reached(st, end, if ok then 1 else 0, !ok)
              && (ok ==> SlotKey(owner, slot) in children)
    {
      var key := SlotKey(owner, slot);
      var obj := Child(Some(owner.key.name), if Owned(KindOf(slot)) then Some(owner.key) else None, body);
      var read := oracle(calls);
      calls := calls + 1;
      if !read.Done? {
        return false;
      }
      // Create when the object was not found, Update otherwise; both store the whole object.
      var write := oracle(calls);
      calls := calls + 1;
      if write.Applied() {
        children := children[key := obj];
      }
      ok := write.Done?;
    }

    /** `deleteAuthResources` and `deleteRateLimitEnvoyFilter`: a missing object is no error. */
    method DeleteInOrder(ghost st: PassState, owner: Owner, slots: seq<Slot>, oracle: Oracle) returns (ok: bool)
      requires Tracks(st)
      modifies this
      ensures Reached(st, ExecDrop(owner, st, slots, oracle), 0, !ok)
    {
      ghost var cur := st;
      for i := 0 to |slots|
        invariant Tracks(cur)
        invariant cur.written == st.written && cur.failed == st.failed
        invariant ExecDrop(owner, st, slots, oracle) == ExecDrop(owner, cur, slots[i..], oracle)
      {
        var outcome := oracle(calls);
        calls := calls + 1;
        if outcome.Applied() {
          children := children - {SlotKey(owner, slots[i])};
        }
        cur := cur.(children := children, calls := calls);
        assert slots[i..][1..] == slots[i + 1..];
        if !outcome.Done? {
          return false;
        }
      }
      ok := true;
    }

    method PutOne(ghost st: PassState, owner: Owner, op: Op, oracle: Oracle) returns (ok: bool)
      requires Tracks(st)
      modifies this
      ensures Reached(st, Exec(owner, st, op, oracle), if ok && op.Put? then 1 else 0, !ok)
      ensures op.Invalid? ==> !ok
    {
      match op
      case Put(slot, body) => ok := CreateOrUpdate(st, owner, slot, body, oracle);
      case Invalid(_) => ok := false;
      case Drop(slots) => ok := DeleteInOrder(st, owner, slots, oracle);
    }

    // ---------------------------------------------------------------- the stages

    method PutRuleRoutes(ghost st: PassState, owner: Owner, spec: Spec, canary: Option<Canary>, oracle: Oracle)
      returns (count: nat, failed: bool)
      requires Tracks(st)
      modifies this
      ensures Reached(st, Run(owner, st, RuleOps(spec, canary), oracle), count, failed)
    {
      ghost var ops, cur := RuleOps(spec, canary), st;
      count, failed := 0, false;
      for i := 0 to |spec.rules|
        invariant cur == Run(owner, st, ops[..i], oracle) && Reached(st, cur, count, failed)
      {
        RunPrefix(owner, st, ops, i, oracle);
        var ok := PutOne(cur, owner, Put(RuleRoute(i), RuleBody(spec, spec.rules[i], canary)), oracle);
        if ok { count := count + 1; } else { failed := true; }
        cur := Run(owner, st, ops[..i + 1], oracle);
      }
      assert ops[..|ops|] == ops;
    }

    method PutRedirects(ghost st: PassState, owner: Owner, spec: Spec, oracle: Oracle)
      returns (count: nat, failed: bool)
      requires Tracks(st)
      modifies this
      ensures Reached(st, Run(owner, st, RedirectOps(spec), oracle), count, failed)
    {
      ghost var ops, cur := RedirectOps(spec), st;
      count, failed := 0, false;
      if RedirectsOn(spec) {
        var hosts := UniqueHostsFromRules(spec.rules);
        for i := 0 to |hosts|
          invariant cur == Run(owner, st, ops[..i], oracle) && Reached(st, cur, count, failed)
        {
          RunPrefix(owner, st, ops, i, oracle);
          var ok := PutOne(cur, owner, Put(RedirectRoute(i), RedirectBody(spec, hosts[i])), oracle);
          if ok { count := count + 1; } else { failed := true; }
          cur := Run(owner, st, ops[..i + 1], oracle);
        }
        assert ops[..|ops|] == ops;
      }
    }

    method PutVirtualService(ghost st: PassState, owner: Owner, spec: Spec, canary: Option<Canary>, oracle: Oracle)
      returns (count: nat, failed: bool)
      requires Tracks(st)
      modifies this
      ensures Reached(st, Run(owner, st, VirtualOps(owner.key.ns, spec, canary), oracle), count, failed)
    {
      count, failed := 0, false;
      if spec.timeout != "" || spec.cors.Some? || spec.retries.Some? || canary.Some? {
        var entries := BuildEntries(owner.key.ns, spec, canary);
        var hosts := UniqueHostsFromRules(spec.rules);
        RunPrefix(owner, st, VirtualOps(owner.key.ns, spec, canary), 0, oracle);
        assert VirtualOps(owner.key.ns, spec, canary)[..1] == VirtualOps(owner.key.ns, spec, canary);
        var ok := PutOne(st, owner, Put(Virtual, VirtualService(hosts, GatewayRef(spec), entries)), oracle);
        if ok { count := 1; } else { failed := true; }
      }
    }

    /** One DestinationRule per HTTPS backend; the index advances whether or not the write succeeds. */
    method PutTlsRules(ghost st: PassState, owner: Owner, spec: Spec, canary: Option<Canary>, oracle: Oracle)
      returns (count: nat, failed: bool)
      requires Tracks(st)
      modifies this
      ensures Reached(st, Run(owner, st, TlsOps(owner.key.ns, spec, canary), oracle), count, failed)
    {
      ghost var seen: seq<Backend> := [];
      var drIndex: nat := 0;
      count, failed := 0, false;
      for i := 0 to |spec.rules|
        invariant seen == HttpsBackends(spec.rules[..i], canary) && drIndex == |seen|
        invariant Reached(st, Run(owner, st, TlsOpsFor(owner.key.ns, seen), oracle), count, failed)
      {
        var backends := RuleBackends(spec.rules[i], canary);
        var n, f := PutTlsRulesOf(st, seen, owner, backends, drIndex, oracle);
        count, failed, drIndex := count + n, failed || f, drIndex + |HttpsOnly(backends)|;
        assert spec.rules[..i + 1][..i] == spec.rules[..i];
        seen := seen + HttpsOnly(backends);
      }
      assert spec.rules[..|spec.rules|] == spec.rules;
    }

    /** The inner loop, over the backends of one rule, after DestinationRules for `seen`. */
    method PutTlsRulesOf(ghost st: PassState, ghost seen: seq<Backend>, owner: Owner, backends: seq<Backend>,
                         first: nat, oracle: Oracle)
      returns (count: nat, failed: bool)
      requires Tracks(Run(owner, st, TlsOpsFor(owner.key.ns, seen), oracle)) && first == |seen|
      modifies this
      ensures Reached(Run(owner, st, TlsOpsFor(owner.key.ns, seen), oracle),
                      Run(owner, st, TlsOpsFor(owner.key.ns, seen + HttpsOnly(backends)), oracle), count, failed)
    {
      ghost var from := Run(owner, st, TlsOpsFor(owner.key.ns, seen), oracle);
      ghost var done, cur := seen, from;
      var drIndex := first;
      count, failed := 0, false;
      for j := 0 to |backends|
        invariant done == seen + HttpsOnly(backends[..j]) && drIndex == |done|
        invariant cur == Run(owner, st, TlsOpsFor(owner.key.ns, done), oracle) && Reached(from, cur, count, failed)
      {
        var backend := backends[j];
        assert backends[..j + 1][..j] == backends[..j];
        if (if backend.protocol == "" then "HTTP" else backend.protocol) == "HTTPS" {
          var op := Put(TlsRule(drIndex), DestinationRuleBody(owner.key.ns, backend));
          NextTlsOp(owner, st, done, backend, oracle);
          var ok := PutOne(cur, owner, op, oracle);
          if ok { count := count + 1; } else { failed := true; }
          drIndex := drIndex + 1;
          done := done + [backend];
          cur := Run(owner, st, TlsOpsFor(owner.key.ns, done), oracle);
        }
      }
      assert backends[..|backends|] == backends;
    }

    method PutBodyLimits(ghost st: PassState, owner: Owner, spec: Spec, oracle: Oracle)
      returns (count: nat, failed: bool)
      requires Tracks(st)
      modifies this
      ensures Reached(st, Run(owner, st, BodySizeOps(spec), oracle), count, failed)
    {
      ghost var ops, cur := BodySizeOps(spec), st;
      count, failed := 0, false;
      if spec.maxBodySize != "" {
        for i := 0 to |spec.rules|
          invariant cur == Run(owner, st, ops[..i], oracle) && Reached(st, cur, count, failed)
        {
          RunPrefix(owner, st, ops, i, oracle);
          var op := PutOrInvalid(BodySize(i), BodyLimitBody(spec, spec.rules[i]));
          var ok := PutOne(cur, owner, op, oracle);
          if ok { count := count + 1; } else { failed := true; }
          cur := Run(owner, st, ops[..i + 1], oracle);
        }
        assert ops[..|ops|] == ops;
      }
    }

    method SyncAuth(ghost st: PassState, owner: Owner, spec: Spec, oracle: Oracle)
      returns (count: nat, failed: bool)
      requires Tracks(st)
      modifies this
      ensures Reached(st, Run(owner, st, AuthOps(spec), oracle), count, failed)
    {
      ghost var ops := AuthOps(spec);
      assert ops[..0] == [] && ops[..|ops|] == ops;
      count, failed := 0, false;
      RunPrefix(owner, st, ops, 0, oracle);
      if spec.auth.Some? {
        var ok := PutOne(st, owner, Put(Jwt, RequestAuthenticationBody(spec, spec.auth.value)), oracle);
        if ok { count := 1; } else { failed := true; }
        RunPrefix(owner, st, ops, 1, oracle);
        ok := PutOne(Run(owner, st, ops[..1], oracle), owner, Put(Authz, AuthorizationPolicyBody(spec)), oracle);
        if ok { count := count + 1; } else { failed := true; }
      } else {
        var ok := PutOne(st, owner, Drop([Jwt, Authz]), oracle);
        if !ok { failed := true; }
      }
    }

    method SyncRateLimit(ghost st: PassState, owner: Owner, spec: Spec, oracle: Oracle)
      returns (count: nat, failed: bool)
      requires Tracks(st)
      modifies this
      ensures Reached(st, Run(owner, st, RateLimitOps(owner.key.name, spec), oracle), count, failed)
    {
      ghost var ops := RateLimitOps(owner.key.name, spec);
      assert ops[..0] == [] && ops[..1] == ops;
      count, failed := 0, false;
      RunPrefix(owner, st, ops, 0, oracle);
      if spec.rateLimit.Some? {
        var op := PutOrInvalid(RateLimiter, TokenBucketBody(owner.key.name, spec, spec.rateLimit.value));
        var ok := PutOne(st, owner, op, oracle);
        if ok { count := 1; } else { failed := true; }
      } else {
        var ok := PutOne(st, owner, Drop([RateLimiter]), oracle);
        if !ok { failed := true; }
      }
    }

    /**
     The middle of `Reconcile`: every stage runs, an error of one never stops the next, and the
     result is the specified pass over the store.
     */
    method ReconcileChildren(key: RouteKey, spec: Spec, canary: Option<Canary>, oracle: Oracle)
      returns (managedCount: nat, failed: bool)
      modifies this
      ensures var end := Run(OwnerOf(key, spec), Begin(old(children), old(calls)), PassOps(key, spec, canary), oracle);
              children == end.children && calls == end.calls && managedCount == |end.written| && failed == end.failed
    {
      var owner := OwnerOf(key, spec);
      ghost var s0 := Begin(children, calls);
      ghost var s4 := AfterTraffic(owner, s0, spec, canary, oracle);
      var n, f := PutTrafficChildren(s0, owner, spec, canary, oracle);
      managedCount, failed := n, f;
      n, f := PutPolicyChildren(s4, owner, spec, oracle);
      managedCount, failed := managedCount + n, failed || f;
      PassInStages(key, spec, canary, s0, oracle);
    }

    /** HTTPRoutes, redirects, the VirtualService and the DestinationRules. */
    method PutTrafficChildren(ghost st: PassState, owner: Owner, spec: Spec, canary: Option<Canary>, oracle: Oracle)
      returns (count: nat, failed: bool)
      requires Tracks(st)
      modifies this
      ensures Reached(st, AfterTraffic(owner, st, spec, canary, oracle), count, failed)
    {
      var n, f := PutRuleRoutes(st, owner, spec, canary, oracle);
      count, failed := n, f;
      ghost var s1 := Run(owner, st, RuleOps(spec, canary), oracle);
      n, f := PutRedirects(s1, owner, spec, oracle);
      count, failed := count + n, failed || f;
      ghost var s2 := Run(owner, s1, RedirectOps(spec), oracle);
      n, f := PutVirtualService(s2, owner, spec, canary, oracle);
      count, failed := count + n, failed || f;
      ghost var s3 := Run(owner, s2, VirtualOps(owner.key.ns, spec, canary), oracle);
      n, f := PutTlsRules(s3, owner, spec, canary, oracle);
      count, failed := count + n, failed || f;
    }

    /** Body limits, authentication and rate limiting. */
    method PutPolicyChildren(ghost st: PassState, owner: Owner, spec: Spec, oracle: Oracle)
      returns (count: nat, failed: bool)
      requires Tracks(st)
      modifies this
      ensures Reached(st, AfterPolicies(owner, st, spec, oracle), count, failed)
    {
      var n, f := PutBodyLimits(st, owner, spec, oracle);
      count, failed := n, f;
      ghost var s5 := Run(owner, st, BodySizeOps(spec), oracle);
      n, f := SyncAuth(s5, owner, spec, oracle);
      count, failed := count + n, failed || f;
      ghost var s6 := Run(owner, s5, AuthOps(spec), oracle);
      n, f := SyncRateLimit(s6, owner, spec, oracle);
      count, failed := count + n, failed || f;
    }

    /** `cleanupOwnedResources`: list and delete, kind by kind, swallowing every error. */
    method CleanupOwnedResources(name: string, gatewayNs: string, listOk: Kind -> bool, delete: ChildKey -> ApiOutcome)
      modifies this`children
      ensures children == Teardown(old(children), name, gatewayNs, listOk, delete)
    {
      ghost var was := children;
      for i := 0 to |CLEANUP_KINDS|
        invariant children == Torn(was, name, gatewayNs, listOk, delete, CLEANUP_KINDS[..i])
      {
        var kind := CLEANUP_KINDS[i];
        assert CLEANUP_KINDS[..i + 1] == CLEANUP_KINDS[..i] + [kind];
        assert kind !in CLEANUP_KINDS[..i];
        if listOk(kind) {
          var items := set k | k in children && Listed(children, name, gatewayNs, kind, k);
          DeleteListed(items, delete);
        }
      }
      assert CLEANUP_KINDS[..|CLEANUP_KINDS|] == CLEANUP_KINDS;
      TornIsTeardown(was, name, gatewayNs, listOk, delete);
    }

    method DeleteListed(items: set<ChildKey>, delete: ChildKey -> ApiOutcome)
      modifies this`children
      ensures children == map k | k in old(children) && !(k in items && delete(k).Applied()) :: old(children)[k]
    {
      var todo := items;
      while todo != {}
        invariant todo <= items
        invariant children ==
          map k | k in old(children) && !(k in items - todo && delete(k).Applied()) :: old(children)[k]
      {
        var k :| k in todo;
        if delete(k).Applied() {
          children := children - {k};
        }
        todo := todo - {k};
      }
    }
  }

  ghost function AfterTraffic(owner: Owner, st: PassState, spec: Spec, canary: Option<Canary>, oracle: Oracle)
    : PassState
  {
    var s1 := Run(owner, st, RuleOps(spec, canary), oracle);
    var s2 := Run(owner, s1, RedirectOps(spec), oracle);
    var s3 := Run(owner, s2, VirtualOps(owner.key.ns, spec, canary), oracle);
    Run(owner, s3, TlsOps(owner.key.ns, spec, canary), oracle)
  }

  ghost function AfterPolicies(owner: Owner, st: PassState, spec: Spec, oracle: Oracle): PassState {
    var s5 := Run(owner, st, BodySizeOps(spec), oracle);
    var s6 := Run(owner, s5, AuthOps(spec), oracle);
    Run(owner, s6, RateLimitOps(owner.key.name, spec), oracle)
  }

  lemma PassInStages(key: RouteKey, spec: Spec, canary: Option<Canary>, st: PassState, oracle: Oracle)
    ensures var owner := OwnerOf(key, spec);
            Run(owner, st, PassOps(key, spec, canary), oracle) ==
            AfterPolicies(owner, AfterTraffic(owner, st, spec, canary, oracle), spec, oracle)
  {
    RunSeven(OwnerOf(key, spec), st, Stages(key, spec, canary), oracle);
  }

  lemma RunSeven(owner: Owner, start: PassState, stages: seq<seq<Op>>, oracle: Oracle)
    requires |stages| == 7
    ensures Run(owner, start, Flatten(stages), oracle) ==
            Run(owner, Run(owner, Run(owner, Run(owner, Run(owner, Run(owner, Run(owner, start,
              stages[0], oracle), stages[1], oracle), stages[2], oracle), stages[3], oracle),
              stages[4], oracle), stages[5], oracle), stages[6], oracle)
  {
    assert stages[..7] == stages && Flatten(stages[..0]) == [];
    for i := 0 to 7
      invariant forall j :: 0 < j <= i ==>
        Run(owner, start, Flatten(stages[..j]), oracle) ==
        Run(owner, Run(owner, start, Flatten(stages[..j - 1]), oracle), stages[j - 1], oracle)
    {
      assert stages[..i + 1][..i] == stages[..i];
      RunConcat(owner, start, Flatten(stages[..i]), stages[i], oracle);
    }
  }
}
