/**
 Passes of other Routes: the objects written for a Route stay in place while other Routes come, go and are
 reconciled, unless both write common names, or both have one name and one gateway namespace.
 */
module Isolation {
  import opened RouteApi
  import opened ChildNames
  import opened ChildPass
  import opened ChildWriter
  import opened Convergence
  import opened StaleChildren
  import opened Conflicts
  import opened Reconcile
  import opened ReconcileRuns
  import B = BackendHealth
  import C = Canary
  import O = Outcomes

  /** Two Routes with these gateway namespaces cannot meet in the store. */
  ghost predicate Unrelated(a: RouteKey, ga: string, b: RouteKey, gb: string) {
    && a != b
    && (a.name == b.name ==> ga != gb)
    && (a.ns == b.ns ==> a.name != b.name + "-redirect" && b.name != a.name + "-redirect")
  }

  /** Exactly the unrelated Routes have no key in common. */
  lemma UnrelatedExactly(a: RouteKey, ga: string, b: RouteKey, gb: string)
    requires a != b
    ensures Unrelated(a, ga, b, gb) <==> forall s: Slot, t: Slot :: KeyOf(a, ga, s) != KeyOf(b, gb, t)
  {
    forall s: Slot, t: Slot
      ensures Unrelated(a, ga, b, gb) ==> KeyOf(a, ga, s) != KeyOf(b, gb, t)
    {
      SharedKeyExactly(a, ga, s, b, gb, t);
    }
    SharedKeyExactly(a, ga, Jwt, b, gb, Jwt);
    SharedKeyExactly(a, ga, RuleRoute(0), b, gb, RedirectRoute(0));
    SharedKeyExactly(a, ga, RedirectRoute(0), b, gb, RuleRoute(0));
  }

  /** An object that a pass over `a`, with this gateway namespace, wrote. */
  ghost predicate WrittenFor(a: RouteKey, ga: string, k: ChildKey, c: Child) {
    c.routeLabel == Some(a.name) && exists s: Slot :: k == KeyOf(a, ga, s)
  }

  // ---------------------------------------------------------------- one pass of another Route

  lemma {:induction false} TouchedHasSlot(owner: Owner, ops: seq<Op>, k: ChildKey)
    requires k in Touched(owner, ops)
    ensures exists s: Slot :: k == SlotKey(owner, s)
  {
    var init, last := ops[..|ops| - 1], ops[|ops| - 1];
    if k in Touched(owner, init) {
      TouchedHasSlot(owner, init, k);
    } else if last.Put? {
      assert k == SlotKey(owner, last.slot);
    } else {
      assert k in KeysOf(owner, last.slots);
    }
  }

  /** A key of `a` is untouched by the writes of an unrelated Route. */
  lemma WritesSpare(a: RouteKey, ga: string, owner: Owner, ops: seq<Op>, start: PassState, oracle: Oracle, k: ChildKey)
    requires Unrelated(a, ga, owner.key, owner.gatewayNs) && exists s: Slot :: k == KeyOf(a, ga, s)
    ensures var end := Run(owner, start, ops, oracle).children;
            (k in end <==> k in start.children) && (k in end ==> end[k] == start.children[k])
  {
    if k in Touched(owner, ops) {
      TouchedHasSlot(owner, ops, k);
      var t: Slot :| k == SlotKey(owner, t);
      var s: Slot :| k == KeyOf(a, ga, s);
      SharedKeyExactly(a, ga, s, owner.key, owner.gatewayNs, t);
    }
    PassFrame(owner, start, ops, oracle);
  }

  ghost predicate Spares(a: RouteKey, ga: string, before: Store, after: Store) {
    forall k, c :: k in before && before[k] == c && WrittenFor(a, ga, k, c) ==> k in after && after[k] == c
  }

  lemma TeardownSpares(a: RouteKey, ga: string, b: RouteKey, gb: string, children: Store,
                       listOk: Kind -> bool, delete: ChildKey -> ApiOutcome)
    requires Unrelated(a, ga, b, gb)
    ensures Spares(a, ga, children, Teardown(children, b.name, gb, listOk, delete))
  {
  }

  lemma RunSpares(a: RouteKey, ga: string, owner: Owner, ops: seq<Op>, start: PassState, oracle: Oracle)
    requires Unrelated(a, ga, owner.key, owner.gatewayNs)
    ensures Spares(a, ga, start.children, Run(owner, start, ops, oracle).children)
  {
    var end := Run(owner, start, ops, oracle).children;
    forall k, c | k in start.children && start.children[k] == c && WrittenFor(a, ga, k, c)
      ensures k in end && end[k] == c
    {
      WritesSpare(a, ga, owner, ops, start, oracle, k);
    }
  }

  /** The store after a pass over `b`: as before, torn down, or written by the pass. */
  ghost predicate ChildrenStep(before: Store, after: Store, b: RouteKey, gb: string) {
    || after == before
    || (exists listOk: Kind -> bool, delete: ChildKey -> ApiOutcome ::
          after == Teardown(before, b.name, gb, listOk, delete))
    || (exists calls: nat, ops: seq<Op>, oracle: Oracle ::
          after == Run(Owner(b, gb), Begin(before, calls), ops, oracle).children)
  }

  lemma ServeChildren(w: World, key: RouteKey, route: Route, env: Env)
    requires !CertVerdictOf(route, env).CertError?
    ensures ChildrenStep(w.children, Serve(w, key, route, env).0.children, key, GatewayRef(route.spec).ns)
  {
    SettleChildren(w, CanaryStep(w, key, route.spec, env).0, key, route, ChildrenEnd(w, key, route.spec, env), env);
  }

  lemma SettleChildren(w: World, canary: C.CanaryState, key: RouteKey, route: Route, end: PassState, env: Env)
    requires !CertVerdictOf(route, env).CertError?
    ensures Settle(w.(canary := canary), key, route, end, env).0.children == end.children
  {
  }

  lemma LiveChildren(w: World, key: RouteKey, route: Route, env: Env)
    ensures ChildrenStep(w.children, LivePass(w, key, route, env).0.children, key, GatewayRef(route.spec).ns)
  {
    if CertVerdictOf(route, env).CertError? || !env.routesListed {
    } else if Conflicted(w.routes, route) {
      BlockChildren(w, key, route, Degraded, RouteConflict, env);
    } else if BackendsUnreadable(route.spec, env) {
    } else if !BackendSummary(route.spec, env).AllReady() {
      var (phase, reason) := B.BlockedPhase(BackendSummary(route.spec, env));
      BlockChildren(w, key, route, phase, reason, env);
    } else {
      ServeChildren(w, key, route, env);
    }
  }

  lemma BlockChildren(w: World, key: RouteKey, route: Route, phase: Phase, reason: Reason, env: Env)
    requires !CertVerdictOf(route, env).CertError?
    ensures Block(w, key, route, phase, reason, env).0.children == w.children
  {
  }

  lemma PassChildren(w: World, key: RouteKey, env: Env)
    requires key in w.routes
    ensures ChildrenStep(w.children, Pass(w, key, env).0.children, key, GatewayRef(w.routes[key].spec).ns)
  {
    if !env.getOk {
    } else if w.routes[key].deleting {
      FinalizeChildren(w, key, w.routes[key], env);
    } else if w.routes[key].held {
      LiveChildren(w, key, w.routes[key], env);
    } else {
      var held := w.routes[key].(held := true);
      LiveChildren(w.(routes := w.routes[key := held]), key, held, env);
    }
  }

  lemma FinalizeChildren(w: World, key: RouteKey, route: Route, env: Env)
    ensures ChildrenStep(w.children, Finalize(w, key, route, env).0.children, key, GatewayRef(route.spec).ns)
  {
    var torn := Teardown(w.children, key.name, GatewayRef(route.spec).ns, env.cleanupLists, env.cleanupDeletes);
    assert Finalize(w, key, route, env).0.children == w.children || Finalize(w, key, route, env).0.children == torn;
  }

  lemma StepSpares(a: RouteKey, ga: string, b: RouteKey, gb: string, before: Store, after: Store)
    requires Unrelated(a, ga, b, gb) && ChildrenStep(before, after, b, gb)
    ensures Spares(a, ga, before, after)
  {
    if after != before {
      if listOk: Kind -> bool, delete: ChildKey -> ApiOutcome :| after == Teardown(before, b.name, gb, listOk, delete) {
        TeardownSpares(a, ga, b, gb, before, listOk, delete);
      } else {
        var calls: nat, ops: seq<Op>, oracle: Oracle :|
          after == Run(Owner(b, gb), Begin(before, calls), ops, oracle).children;
        RunSpares(a, ga, Owner(b, gb), ops, Begin(before, calls), oracle);
      }
    }
  }

  // ---------------------------------------------------------------- runs

  /** Nothing but passes touches children, and the pass, if there is one, is over an unrelated Route. */
  ghost predicate Distant(w: World, e: Event, a: RouteKey, ga: string) {
    match e
    case Disturb(_) => false
    case PassOver(b, _) => b in w.routes ==> Unrelated(a, ga, b, GatewayRef(w.routes[b].spec).ns)
    case _ => true
  }

  ghost predicate DistantRun(w: World, events: seq<Event>, a: RouteKey, ga: string) {
    events != [] ==>
      DistantRun(w, events[..|events| - 1], a, ga) &&
      Distant(After(w, events[..|events| - 1]), events[|events| - 1], a, ga)
  }

  lemma NextSpares(w: World, e: Event, a: RouteKey, ga: string)
    requires Distant(w, e, a, ga)
    ensures Spares(a, ga, w.children, Next(w, e).children)
  {
    if e.PassOver? && e.key in w.routes {
      PassChildren(w, e.key, e.env);
      StepSpares(a, ga, e.key, GatewayRef(w.routes[e.key].spec).ns, w.children, Next(w, e).children);
    }
  }

  /**
   Isolation: in any run in which only unrelated Routes are reconciled, judged by their names and the gateway
   namespaces they then have, whatever fails in their passes and whatever users do to any Route, every object
   written for a Route stays as it is.
   */
  lemma {:induction false} ChildrenStay(w: World, events: seq<Event>, a: RouteKey, ga: string)
    requires DistantRun(w, events, a, ga)
    ensures Spares(a, ga, w.children, After(w, events).children)
  {
    if events != [] {
      var init := events[..|events| - 1];
      ChildrenStay(w, init, a, ga);
      NextSpares(After(w, init), events[|events| - 1], a, ga);
    }
  }

  ghost predicate DesiredThere(children: Store, key: RouteKey, spec: Spec, canary: Option<Canary>) {
    var wanted := Desired(OwnerOf(key, spec), PassOps(key, spec, canary));
    forall k :: k in wanted ==> k in children && children[k] == wanted[k]
  }

  /** So a Route that a pass made Active keeps all its desired objects through such a run. */
  lemma ActiveStaysServed(w: World, key: RouteKey, env: Env, events: seq<Event>)
    requires key in w.routes && !w.routes[key].deleting && Pass(w, key, env).1.outcome == Success
    requires DistantRun(Pass(w, key, env).0, events, key, GatewayRef(w.routes[key].spec).ns)
    ensures var spec := w.routes[key].spec;
            DesiredThere(After(Pass(w, key, env).0, events).children, key, spec, EffectiveCanary(w, key, spec, env))
  {
    var spec, after := w.routes[key].spec, Pass(w, key, env).0;
    var canary := EffectiveCanary(w, key, spec, env);
    O.OutcomeMeans(w, key, env);
    assert InPlace(after.children, key, spec, canary);
    ChildrenStay(after, events, key, GatewayRef(spec).ns);
    StaysThere(after.children, After(after, events).children, key, spec, canary);
  }

  lemma StaysThere(before: Store, after: Store, key: RouteKey, spec: Spec, canary: Option<Canary>)
    requires InPlace(before, key, spec, canary) && Spares(key, GatewayRef(spec).ns, before, after)
    ensures DesiredThere(after, key, spec, canary)
  {
    var owner, ops := OwnerOf(key, spec), PassOps(key, spec, canary);
    PassOpsApart(key, spec, canary);
    forall k | k in Desired(owner, ops)
      ensures k in after && after[k] == Desired(owner, ops)[k]
    {
      DesiredIsPut(owner, ops, k);
      assert k in Touched(owner, ops);
      TouchedHasSlot(owner, ops, k);
      var s: Slot :| k == SlotKey(owner, s);
      assert k == KeyOf(key, owner.gatewayNs, s);
      assert WrittenFor(key, owner.gatewayNs, k, Desired(owner, ops)[k]);
    }
  }

  // ---------------------------------------------------------------- what a Route leaves in a gateway it has left

  ghost predicate Stays(before: Store, after: Store, k: ChildKey) {
    k in before && k in after && after[k] == before[k]
  }

  /** A pass over a Route of another name, or with its gateway elsewhere; it may be the same Route, moved. */
  ghost predicate Elsewhere(w: World, e: Event, name: string, ga: string) {
    match e
    case Disturb(_) => false
    case PassOver(b, _) => b in w.routes ==> b.name != name || GatewayRef(w.routes[b].spec).ns != ga
    case _ => true
  }

  ghost predicate ElsewhereRun(w: World, events: seq<Event>, name: string, ga: string) {
    events != [] ==>
      ElsewhereRun(w, events[..|events| - 1], name, ga) &&
      Elsewhere(After(w, events[..|events| - 1]), events[|events| - 1], name, ga)
  }

  /** The writes of such a pass do not reach the object. */
  lemma WritesElsewhere(a: RouteKey, ga: string, owner: Owner, ops: seq<Op>, start: PassState, oracle: Oracle,
                        k: ChildKey)
    requires !Owned(k.kind) && k in start.children && exists s: Slot :: k == KeyOf(a, ga, s)
    requires owner.key.name != a.name || owner.gatewayNs != ga
    ensures Stays(start.children, Run(owner, start, ops, oracle).children, k)
  {
    if k in Touched(owner, ops) {
      TouchedHasSlot(owner, ops, k);
      var t: Slot :| k == SlotKey(owner, t);
      var s: Slot :| k == KeyOf(a, ga, s);
      if owner.key != a { SharedKeyExactly(a, ga, s, owner.key, owner.gatewayNs, t); }
      assert false;
    }
    PassFrame(owner, start, ops, oracle);
  }

  lemma StepElsewhere(a: RouteKey, ga: string, b: RouteKey, gb: string, before: Store, after: Store, k: ChildKey)
    requires !Owned(k.kind) && k in before && WrittenFor(a, ga, k, before[k])
    requires (b.name != a.name || gb != ga) && ChildrenStep(before, after, b, gb)
    ensures Stays(before, after, k)
  {
    if after != before {
      if calls: nat, ops: seq<Op>, oracle: Oracle :|
        after == Run(Owner(b, gb), Begin(before, calls), ops, oracle).children
      {
        WritesElsewhere(a, ga, Owner(b, gb), ops, Begin(before, calls), oracle, k);
      }
    }
  }

  /**
   An object that a Route wrote to a gateway namespace stays as it is for as long as no Route of that name has
   its gateway there when it is reconciled. So no later pass over a Route whose gateway was edited deletes what it
   left behind, not even the one that deletes the Route.
   */
  lemma {:induction false} LeftBehindStays(w: World, events: seq<Event>, a: RouteKey, ga: string, k: ChildKey)
    requires !Owned(k.kind) && k in w.children && WrittenFor(a, ga, k, w.children[k])
    requires ElsewhereRun(w, events, a.name, ga)
    ensures Stays(w.children, After(w, events).children, k)
  {
    if events != [] {
      var init, e := events[..|events| - 1], events[|events| - 1];
      LeftBehindStays(w, init, a, ga, k);
      var before := After(w, init);
      if e.PassOver? && e.key in before.routes {
        PassChildren(before, e.key, e.env);
        StepElsewhere(a, ga, e.key, GatewayRef(before.routes[e.key].spec).ns, before.children,
                      Next(before, e).children, k);
      }
    }
  }

  // ---------------------------------------------------------------- where isolation ends

  /**
   "Deleting a Route leaves the objects of other Routes alone" is false: cleanup selects by label, and the label
   has the Route's name only. An object written for `a` goes with `b` exactly if it is one of the kinds in the gateway
   namespace, the two Routes have one name and one gateway namespace, and its list and delete take effect.
   */
  lemma DeletionTakesExactly(w: World, b: RouteKey, env: Env, a: RouteKey, ga: string, k: ChildKey)
    requires env.getOk && b in w.routes && w.routes[b].deleting && w.routes[b].held
    requires k in w.children && WrittenFor(a, ga, k, w.children[k])
    ensures k !in Pass(w, b, env).0.children <==>
            && !Owned(k.kind) && a.name == b.name && ga == GatewayRef(w.routes[b].spec).ns
            && env.cleanupLists(k.kind) && env.cleanupDeletes(k).Applied()
  {
    O.DeletionMeans(w, b, env);
  }
}
