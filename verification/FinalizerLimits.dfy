/**
 Where the finalizer protocol stops protecting: exactly which step orphans an object, and four runs
 in which one does.
 */
module FinalizerLimits {
  import opened RouteApi
  import opened ChildNames
  import opened Translation
  import opened ChildPass
  import opened ChildWriter
  import opened Finalizer
  import opened PassRuns

  // ---------------------------------------------------------------- exactly when a step is harmless

  /** Some Route other than `key` answers for the labelled object `k`. */
  ghost predicate OtherHolder(w: World, key: RouteKey, k: ChildKey)
    requires GatewayChild(w, k)
  {
    exists r :: r != key && Holder(w, r, w.children[k].routeLabel.value, k.ns)
  }

  /** The objects that `key` alone answers for. */
  ghost predicate SoleHolder(w: World, key: RouteKey) {
    exists k :: GatewayChild(w, k) && Holder(w, key, w.children[k].routeLabel.value, k.ns) && !OtherHolder(w, key, k)
  }

  /** An edit orphans nothing at once exactly if it keeps the gateway namespace or nothing depends on the Route. */
  lemma EditStepExactly(w: World, key: RouteKey, spec: Spec)
    requires NoOrphan(w) && key in w.routes
    ensures NoOrphan(Step(w, Edit(key, spec))) <==>
            GatewayRef(spec).ns == GatewayNs(w.routes[key]) || !SoleHolder(w, key)
  {
    var after := Step(w, Edit(key, spec));
    assert after.children == w.children;
    forall k | GatewayChild(w, k)
      ensures (exists r :: Holder(after, r, w.children[k].routeLabel.value, k.ns)) <==>
              OtherHolder(w, key, k) ||
                (w.routes[key].held && key.name == w.children[k].routeLabel.value && GatewayRef(spec).ns == k.ns)
    {
      if r :| Holder(after, r, w.children[k].routeLabel.value, k.ns) {
        if r != key { assert Holder(w, r, w.children[k].routeLabel.value, k.ns); }
      }
      if OtherHolder(w, key, k) {
        var r :| r != key && Holder(w, r, w.children[k].routeLabel.value, k.ns);
        assert Holder(after, r, w.children[k].routeLabel.value, k.ns);
      }
      if w.routes[key].held && key.name == w.children[k].routeLabel.value && GatewayRef(spec).ns == k.ns {
        assert Holder(after, key, w.children[k].routeLabel.value, k.ns);
      }
    }
    if SoleHolder(w, key) {
      var k :| GatewayChild(w, k) && Holder(w, key, w.children[k].routeLabel.value, k.ns) && !OtherHolder(w, key, k);
      assert GatewayChild(after, k);
    } else {
      forall k | GatewayChild(after, k)
        ensures exists r :: Holder(after, r, after.children[k].routeLabel.value, k.ns)
      {
        assert GatewayChild(w, k);
        var r :| Holder(w, r, w.children[k].routeLabel.value, k.ns);
      }
    }
  }

  /** Taking the finalizer off orphans nothing exactly if cleanup left nothing that this Route alone answers for. */
  lemma ReleaseStepExactly(w: World, key: RouteKey, outcome: ApiOutcome)
    requires NoOrphan(w) && key in w.passes && w.passes[key].Releasing?
    requires UpdateApplies(w, key, w.passes[key].copy, outcome)
    ensures NoOrphan(Step(w, Release(key, outcome))) <==> !SoleHolder(w, key)
  {
    var after := Step(w, Release(key, outcome));
    assert after.children == w.children && !Holds(after, key);
    forall k | GatewayChild(w, k)
      ensures (exists r :: Holder(after, r, w.children[k].routeLabel.value, k.ns)) <==> OtherHolder(w, key, k)
    {
      if r :| Holder(after, r, w.children[k].routeLabel.value, k.ns) {
        assert Holder(w, r, w.children[k].routeLabel.value, k.ns);
      }
      if OtherHolder(w, key, k) {
        var r :| r != key && Holder(w, r, w.children[k].routeLabel.value, k.ns);
        assert Holder(after, r, w.children[k].routeLabel.value, k.ns);
      }
    }
    if SoleHolder(w, key) {
      var k :| GatewayChild(w, k) && Holder(w, key, w.children[k].routeLabel.value, k.ns) && !OtherHolder(w, key, k);
      assert GatewayChild(after, k);
    } else {
      forall k | GatewayChild(after, k)
        ensures exists r :: Holder(after, r, after.children[k].routeLabel.value, k.ns)
      {
        assert GatewayChild(w, k);
        var r :| Holder(w, r, w.children[k].routeLabel.value, k.ns);
        if r == key { assert OtherHolder(w, key, k); }
      }
    }
  }

  /** Someone answers for what a pass writes to the gateway namespace. */
  ghost predicate Answered(w: World, name: string, ns: string) {
    exists r :: Holder(w, r, name, ns)
  }

  /** The step stores an object in the gateway namespace of the pass's copy. */
  ghost predicate Puts(w: World, key: RouteKey, outcome: ApiOutcome) {
    key in w.passes && w.passes[key].Writing? && w.passes[key].ops != [] && GatewayPut(w.passes[key].ops[0]) &&
    outcome.Applied()
  }

  lemma PutStores(w: World, key: RouteKey, outcome: ApiOutcome)
    requires Puts(w, key, outcome)
    ensures var Writing(copy, ops) := w.passes[key];
            var after, k := Step(w, Write(key, outcome)), SlotKey(OwnerOf(key, copy.spec), ops[0].slot);
            && after.routes == w.routes && k.ns == GatewayNs(copy)
            && GatewayChild(after, k) && after.children[k].routeLabel == Some(key.name)
            && forall j :: j != k ==> (GatewayChild(after, j) <==> GatewayChild(w, j)) &&
                                      (GatewayChild(w, j) ==> after.children[j] == w.children[j])
  {
  }

  /** A write to the gateway namespace orphans nothing exactly if a stored Route of that name answers for it. */
  lemma WriteStepExactly(w: World, key: RouteKey, outcome: ApiOutcome)
    requires NoOrphan(w) && Puts(w, key, outcome)
    ensures NoOrphan(Step(w, Write(key, outcome))) <==> Answered(w, key.name, GatewayNs(w.passes[key].copy))
  {
    var Writing(copy, ops) := w.passes[key];
    var after, k := Step(w, Write(key, outcome)), SlotKey(OwnerOf(key, copy.spec), ops[0].slot);
    PutStores(w, key, outcome);
    assert forall r, name, ns :: Holder(after, r, name, ns) <==> Holder(w, r, name, ns);
    if Answered(w, key.name, GatewayNs(copy)) {
      forall j | GatewayChild(after, j)
        ensures exists r :: Holder(after, r, after.children[j].routeLabel.value, j.ns)
      {
        var r :| Holder(w, r, after.children[j].routeLabel.value, j.ns);
        assert Holder(after, r, after.children[j].routeLabel.value, j.ns);
      }
    }
  }

  /** The steps that orphan an object at once. */
  ghost predicate Orphans(w: World, a: Action) {
    match a
    case Edit(key, spec) => key in w.routes && GatewayRef(spec).ns != GatewayNs(w.routes[key]) && SoleHolder(w, key)
    case Write(key, outcome) => Puts(w, key, outcome) && !Answered(w, key.name, GatewayNs(w.passes[key].copy))
    case Release(key, outcome) =>
      key in w.passes && w.passes[key].Releasing? && UpdateApplies(w, key, w.passes[key].copy, outcome) &&
      SoleHolder(w, key)
    case _ => false
  }

  /** Nothing new is labelled, and whoever answered for a gateway namespace still does. */
  ghost predicate Milder(w: World, after: World) {
    && (forall k :: GatewayChild(after, k) ==> GatewayChild(w, k) && after.children[k] == w.children[k])
    && (forall r :: Holds(w, r) ==> Holds(after, r) && GatewayNs(after.routes[r]) == GatewayNs(w.routes[r]))
  }

  lemma MilderKeeps(w: World, after: World)
    requires NoOrphan(w) && Milder(w, after)
    ensures NoOrphan(after)
  {
    forall k | GatewayChild(after, k)
      ensures exists r :: Holder(after, r, after.children[k].routeLabel.value, k.ns)
    {
      assert GatewayChild(w, k);
      var r :| Holder(w, r, w.children[k].routeLabel.value, k.ns);
      assert Holds(w, r);
      assert Holder(after, r, after.children[k].routeLabel.value, k.ns);
    }
  }

  lemma MildUser(w: World, a: Action)
    requires Base(w) && Tame(w, a)
    ensures Milder(w, StepUser(w, a))
  {
    UserAction(w, a);
    forall r | Holds(w, r)
      ensures StillHolds(w, StepUser(w, a), r)
    {
      UserKeepsGateway(w, a, r);
    }
  }

  lemma MildAdd(w: World, key: RouteKey, rollback: bool, outcome: ApiOutcome)
    requires Base(w)
    ensures Milder(w, StepAdd(w, key, rollback, outcome))
  {
    if key in w.passes && w.passes[key].Adding? && UpdateApplies(w, key, w.passes[key].copy, outcome) {
      assert w.routes[key] == w.passes[key].copy;
    }
  }

  lemma MildWrite(w: World, key: RouteKey, outcome: ApiOutcome)
    requires !Puts(w, key, outcome)
    ensures Milder(w, StepWrite(w, key, outcome))
  {
  }

  lemma OtherSteps(w: World, a: Action)
    requires Base(w) && NoOrphan(w) && !(a.Edit? || a.Write? || a.Release?)
    ensures NoOrphan(Step(w, a))
  {
    match a
    case Start(key, rollback) => MilderKeeps(w, StepStart(w, key, rollback));
    case AddFinalizer(key, rollback, outcome) =>
      MildAdd(w, key, rollback, outcome);
      MilderKeeps(w, StepAdd(w, key, rollback, outcome));
    case List(key, ok) => MilderKeeps(w, StepList(w, key, ok));
    case DeleteOne(key, child, outcome) => MilderKeeps(w, StepDelete(w, key, child, outcome));
    case End(key) => MilderKeeps(w, EndPass(w, key));
    case _ =>
      MildUser(w, a);
      MilderKeeps(w, StepUser(w, a));
  }

  /**
   Exactly these steps orphan an object: an edit that moves the gateway away from objects the Route alone
   answers for, a write into a gateway namespace nobody of that name answers for, and a release while
   such objects are left.
   */
  lemma StepOrphansExactly(w: World, a: Action)
    requires Base(w) && NoOrphan(w)
    ensures NoOrphan(Step(w, a)) <==> !Orphans(w, a)
  {
    match a
    case Edit(key, spec) =>
      if key in w.routes { EditStepExactly(w, key, spec); }
    case Write(key, outcome) =>
      if Puts(w, key, outcome) {
        WriteStepExactly(w, key, outcome);
      } else {
        MildWrite(w, key, outcome);
        MilderKeeps(w, StepWrite(w, key, outcome));
      }
    case Release(key, outcome) =>
      if key in w.passes && w.passes[key].Releasing? && UpdateApplies(w, key, w.passes[key].copy, outcome) {
        ReleaseStepExactly(w, key, outcome);
      } else {
        MilderKeeps(w, StepRelease(w, key, outcome));
      }
    case _ => OtherSteps(w, a);
  }

  // ---------------------------------------------------------------- four runs that leave orphans

  const APP := RouteKey("apps", "app")
  const APP_RULE := Rule("app.example.com", "/", Backend("svc", 80, "HTTP"), None)

  /** One plain rule, no redirects, JWT authentication at a gateway in the given namespace. */
  function AppSpec(gatewayNs: string): Spec {
    Spec([APP_RULE], Some(false), "", "", None, Some(Gateway("gw", gatewayNs)), None,
         Some(Auth("issuer", "", [], None)), None, None)
  }

  lemma FlattenSeven(stages: seq<seq<Op>>)
    requires |stages| == 7
    ensures Flatten(stages) ==
            stages[0] + stages[1] + stages[2] + stages[3] + stages[4] + stages[5] + stages[6]
  {
    assert Flatten(stages[..0]) == [];
    assert stages[..7] == stages;
    assert forall i, j :: 0 <= i <= j <= 7 ==> stages[..j][..i] == stages[..i];
    assert Flatten(stages[..1]) == stages[0];
    assert Flatten(stages[..2]) == stages[0] + stages[1];
    assert Flatten(stages[..3]) == stages[0] + stages[1] + stages[2];
    assert Flatten(stages[..4]) == stages[0] + stages[1] + stages[2] + stages[3];
    assert Flatten(stages[..5]) == stages[0] + stages[1] + stages[2] + stages[3] + stages[4];
    assert Flatten(stages[..6]) == stages[0] + stages[1] + stages[2] + stages[3] + stages[4] + stages[5];
  }

  lemma AppWrites(gatewayNs: string)
    ensures var ops := PassOps(APP, AppSpec(gatewayNs), None);
            |ops| >= 2 && ops[0].Put? && ops[0].slot == RuleRoute(0) && ops[1].Put? && ops[1].slot == Jwt
  {
    var spec := AppSpec(gatewayNs);
    var stages := Stages(APP, spec, None);
    FlattenSeven(stages);
    assert stages[1] == [] && stages[2] == [] && stages[4] == [];
    assert spec.rules[..0] == [] && HttpsBackends([], None) == [];
    var backends := RuleBackends(APP_RULE, None);
    assert backends == [APP_RULE.backend] && backends[..0] == [];
    assert HttpsOnly(backends) == [];
    assert stages[3] == [];
    assert |stages[0]| == 1 && |stages[5]| == 2;
  }

  ghost predicate Orphan(w: World, k: ChildKey) {
    GatewayChild(w, k) && w.routes == map[] && w.passes == map[]
  }

  /** The Route is created, gets its finalizer and writes its RequestAuthentication. */
  const SETUP: seq<Action> :=
    [Create(APP, AppSpec("g1")), Start(APP, false), AddFinalizer(APP, false, Done),
     Write(APP, Done), Write(APP, Done), End(APP)]

  function SetupWorld(): World {
    var owner := OwnerOf(APP, AppSpec("g1"));
    var ops := PassOps(APP, AppSpec("g1"), None);
    AppWrites("g1");
    World(2, map[APP := Stored(1, AppSpec("g1"), false, true, false)],
          map[SlotKey(owner, RuleRoute(0)) := MakeChild(owner, RuleRoute(0), ops[0].body),
              SlotKey(owner, Jwt) := MakeChild(owner, Jwt, ops[1].body)],
          map[])
  }

  /** A Route is created, read, and updated with its finalizer. */
  lemma CreateAndHold(spec: Spec)
    requires spec.canary.None?
    ensures Step(Step(Step(EMPTY_WORLD, Create(APP, spec)), Start(APP, false)), AddFinalizer(APP, false, Done)) ==
            var held := Stored(1, spec, false, true, false);
            World(2, map[APP := held], map[], map[APP := Writing(held, PassOps(APP, spec, None))])
  {
    var ops := PassOps(APP, spec, None);
    var plain, held := Stored(0, spec, false, false, false), Stored(1, spec, false, true, false);
    var w1 := World(1, map[APP := plain], map[], map[]);
    assert Step(EMPTY_WORLD, Create(APP, spec)) == w1;
    var w2 := World(1, map[APP := plain], map[], map[APP := Adding(plain)]);
    assert Step(w1, Start(APP, false)) == w2;
    assert WritesOf(APP, plain, false) == ops;
    assert Step(w2, AddFinalizer(APP, false, Done)) ==
      World(2, map[APP := held], map[], map[APP := Writing(held, ops)]);
  }

  lemma TwoWrites(w: World, copy: Stored, ops: seq<Op>)
    requires w.passes == map[APP := Writing(copy, ops)]
    requires |ops| >= 2 && ops[0].Put? && ops[1].Put?
    ensures var owner := OwnerOf(APP, copy.spec);
            Step(Step(Step(w, Write(APP, Done)), Write(APP, Done)), End(APP)) ==
            World(w.clock, w.routes,
                  w.children[SlotKey(owner, ops[0].slot) := MakeChild(owner, ops[0].slot, ops[0].body)]
                            [SlotKey(owner, ops[1].slot) := MakeChild(owner, ops[1].slot, ops[1].body)],
                  map[])
  {
    var owner := OwnerOf(APP, copy.spec);
    var one := w.children[SlotKey(owner, ops[0].slot) := MakeChild(owner, ops[0].slot, ops[0].body)];
    var w1 := World(w.clock, w.routes, one, map[APP := Writing(copy, ops[1..])]);
    assert Step(w, Write(APP, Done)) == w1;
    var two := one[SlotKey(owner, ops[1].slot) := MakeChild(owner, ops[1].slot, ops[1].body)];
    var w2 := World(w.clock, w.routes, two, map[APP := Writing(copy, ops[1..][1..])]);
    assert Step(w1, Write(APP, Done)) == w2;
  }

  lemma SetupReaches()
    ensures After(EMPTY_WORLD, SETUP) == SetupWorld()
  {
    var spec := AppSpec("g1");
    AppWrites("g1");
    var ops := PassOps(APP, spec, None);
    var held := Stored(1, spec, false, true, false);
    CreateAndHold(spec);
    TwoWrites(World(2, map[APP := held], map[], map[APP := Writing(held, ops)]), held, ops);
    ExecSix(EMPTY_WORLD, SETUP);
  }

  lemma ExecSix(w: World, s: seq<Action>)
    requires |s| == 6
    ensures After(w, s) == Step(Step(Step(Step(Step(Step(w, s[0]), s[1]), s[2]), s[3]), s[4]), s[5])
  {
    assert forall i, j :: 0 <= i <= j <= 6 ==> s[..j][..i] == s[..i];
    assert s[..6] == s && After(w, s[..0]) == w;
    assert After(w, s[..1]) == Step(w, s[0]);
    assert After(w, s[..2]) == Step(After(w, s[..1]), s[1]);
    assert After(w, s[..3]) == Step(After(w, s[..2]), s[2]);
    assert After(w, s[..4]) == Step(After(w, s[..3]), s[3]);
    assert After(w, s[..5]) == Step(After(w, s[..4]), s[4]);
  }

  const TEARDOWN_START: seq<Action> := [Delete(APP), Start(APP, false)]

  /** Deleting the Route with the four list calls answering `oks`. */
  function TeardownRun(ok: bool): seq<Action> {
    [List(APP, ok), List(APP, ok), List(APP, ok), List(APP, ok), Release(APP, Done), End(APP)]
  }

  ghost predicate OnlyApp(w: World) {
    w.routes.Keys == {APP} && w.routes[APP].held && !w.routes[APP].foreign && w.passes == map[]
  }

  ghost function Doomed(w: World): Stored
    requires OnlyApp(w)
  {
    w.routes[APP].(deleting := true, rv := w.clock)
  }

  lemma DeleteAndStart(w: World)
    requires OnlyApp(w)
    ensures After(w, TEARDOWN_START) ==
            World(w.clock + 1, map[APP := Doomed(w)], w.children, map[APP := Cleaning(Doomed(w), CLEANUP_KINDS)])
  {
    var w1 := World(w.clock + 1, map[APP := Doomed(w)], w.children, map[]);
    assert Step(w, Delete(APP)) == w1;
    assert TEARDOWN_START[..1] == [Delete(APP)] && TEARDOWN_START[..1][..0] == [];
    assert After(w, TEARDOWN_START[..1]) == w1;
    assert After(w, TEARDOWN_START) == Step(w1, Start(APP, false));
  }

  lemma ReleaseLast(w: World, copy: Stored)
    requires w.routes == map[APP := copy] && copy.deleting && copy.held && !copy.foreign
    requires w.passes == map[APP := Releasing(copy)]
    ensures Step(w, Release(APP, Done)) == World(w.clock + 1, map[], w.children, map[])
  {
  }

  lemma ReleaseAndEnd(w: World, copy: Stored)
    requires w.routes == map[APP := copy] && copy.deleting && copy.held && !copy.foreign
    requires w.passes == map[APP := Releasing(copy)]
    ensures Step(Step(w, Release(APP, Done)), End(APP)) == World(w.clock + 1, map[], w.children, map[])
  {
    ReleaseLast(w, copy);
  }

  /** Cleanup of a Route that lists nothing, or whose lists all fail, takes the Route away and no object. */
  lemma EmptyTeardown(w: World, spec: Spec, ok: bool)
    requires OnlyApp(w) && w.routes[APP].spec == spec
    requires ok ==> forall k, kind :: !Listed(w.children, APP.name, GatewayRef(spec).ns, kind, k)
    ensures var end := After(After(w, TEARDOWN_START), TeardownRun(ok));
            end.routes == map[] && end.passes == map[] && end.children == w.children
  {
    var copy := Doomed(w);
    DeleteAndStart(w);
    var w2 := World(w.clock + 1, map[APP := copy], w.children, map[APP := Cleaning(copy, CLEANUP_KINDS)]);
    FourLists(w2, copy, ok);
    var w6 := World(w.clock + 1, map[APP := copy], w.children, map[APP := Releasing(copy)]);
    assert SetPass(w2, APP, Releasing(copy)) == w6;
    ReleaseAndEnd(w6, copy);
    var run := TeardownRun(ok);
    ExecSix(w2, run);
    assert run[0] == run[1] == run[2] == run[3] == List(APP, ok) && run[4] == Release(APP, Done) && run[5] == End(APP);
  }

  lemma TwoLists(w: World, copy: Stored, todo: seq<Kind>, ok: bool)
    requires |todo| >= 2 && APP in w.passes && w.passes[APP] == Cleaning(copy, todo)
    requires ok ==> forall k, kind :: !Listed(w.children, APP.name, GatewayNs(copy), kind, k)
    ensures Step(Step(w, List(APP, ok)), List(APP, ok)) == SetPass(w, APP, NextKind(copy, todo[2..]))
  {
    NothingListed(w, copy, todo, ok);
    var next := SetPass(w, APP, Cleaning(copy, todo[1..]));
    NothingListed(next, copy, todo[1..], ok);
    assert todo[1..][1..] == todo[2..];
    SetPassTwice(w, APP, next.passes[APP], w.children, NextKind(copy, todo[2..]));
  }

  lemma FourLists(w: World, copy: Stored, ok: bool)
    requires APP in w.passes && w.passes[APP] == Cleaning(copy, CLEANUP_KINDS)
    requires ok ==> forall k, kind :: !Listed(w.children, APP.name, GatewayNs(copy), kind, k)
    ensures Step(Step(Step(Step(w, List(APP, ok)), List(APP, ok)), List(APP, ok)), List(APP, ok)) ==
            SetPass(w, APP, Releasing(copy))
  {
    TwoLists(w, copy, CLEANUP_KINDS, ok);
    var half := SetPass(w, APP, Cleaning(copy, CLEANUP_KINDS[2..]));
    TwoLists(half, copy, CLEANUP_KINDS[2..], ok);
    assert CLEANUP_KINDS[2..][2..] == [];
    SetPassTwice(w, APP, half.passes[APP], w.children, Releasing(copy));
  }

  lemma NothingListed(w: World, copy: Stored, todo: seq<Kind>, ok: bool)
    requires todo != [] && APP in w.passes && w.passes[APP] == Cleaning(copy, todo)
    requires ok ==> forall k :: !Listed(w.children, APP.name, GatewayNs(copy), todo[0], k)
    ensures Step(w, List(APP, ok)) == SetPass(w, APP, NextKind(copy, todo[1..]))
  {
  }

  // ---------------------------------------------------------------- a refused delete

  /** The only object a cleanup would list is `k`, of the third kind. */
  ghost predicate ListsOnly(children: Store, ns: string, k: ChildKey) {
    && k.kind == RequestAuthenticationKind && Listed(children, APP.name, ns, k.kind, k)
    && forall j: ChildKey, kind: Kind :: Listed(children, APP.name, ns, kind, j) ==> j == k
  }

  /** Lists all succeed; the one delete is refused. */
  function RefusedRun(k: ChildKey): seq<Action> {
    [List(APP, true), List(APP, true), List(APP, true), DeleteOne(APP, k, Rejected), List(APP, true),
     Release(APP, Done)]
  }

  /** A kind with one object, whose delete is refused. */
  lemma RefusedDelete(w: World, copy: Stored, todo: seq<Kind>, k: ChildKey)
    requires todo != [] && APP in w.passes && w.passes[APP] == Cleaning(copy, todo)
    requires todo[0] == k.kind && ListsOnly(w.children, GatewayNs(copy), k)
    ensures Step(Step(w, List(APP, true)), DeleteOne(APP, k, Rejected)) == SetPass(w, APP, NextKind(copy, todo[1..]))
  {
    var pending := set j | j in w.children && Listed(w.children, APP.name, GatewayNs(copy), todo[0], j);
    assert pending == {k};
    var next := SetPass(w, APP, Deleting(copy, todo[0], {k}, todo[1..]));
    assert Step(w, List(APP, true)) == next;
    assert {k} - {k} == {};
    SetPassTwice(w, APP, next.passes[APP], w.children, NextKind(copy, todo[1..]));
  }

  lemma KindsAbove(k: ChildKey, children: Store, ns: string, i: nat)
    requires ListsOnly(children, ns, k) && i in {0, 1, 3}
    ensures forall j :: !Listed(children, APP.name, ns, CLEANUP_KINDS[i], j)
  {
  }

  /** The five steps of the cleanup leave everything but the pass as it was. */
  lemma RefusedCleanup(w: World, copy: Stored, k: ChildKey)
    requires APP in w.passes && w.passes[APP] == Cleaning(copy, CLEANUP_KINDS) &&
             ListsOnly(w.children, GatewayNs(copy), k)
    ensures var run := RefusedRun(k);
            Step(Step(Step(Step(Step(w, run[0]), run[1]), run[2]), run[3]), run[4]) == SetPass(w, APP, Releasing(copy))
  {
    var ns := GatewayNs(copy);
    KindsAbove(k, w.children, ns, 0);
    KindsAbove(k, w.children, ns, 1);
    KindsAbove(k, w.children, ns, 3);
    var w1, w2 := SetPass(w, APP, Cleaning(copy, CLEANUP_KINDS[1..])),
      SetPass(w, APP, Cleaning(copy, CLEANUP_KINDS[2..]));
    var w4 := SetPass(w, APP, Cleaning(copy, CLEANUP_KINDS[3..]));
    NothingListed(w, copy, CLEANUP_KINDS, true);
    NothingListed(w1, copy, CLEANUP_KINDS[1..], true);
    SetPassTwice(w, APP, w1.passes[APP], w.children, w2.passes[APP]);
    RefusedDelete(w2, copy, CLEANUP_KINDS[2..], k);
    SetPassTwice(w, APP, w2.passes[APP], w.children, w4.passes[APP]);
    NothingListed(w4, copy, CLEANUP_KINDS[3..], true);
    SetPassTwice(w, APP, w4.passes[APP], w.children, Releasing(copy));
  }

  lemma RefusedEnd(w: World, copy: Stored, k: ChildKey)
    requires w.routes == map[APP := copy] && copy.deleting && copy.held && !copy.foreign
    requires w.passes == map[APP := Cleaning(copy, CLEANUP_KINDS)] && ListsOnly(w.children, GatewayNs(copy), k)
    ensures var end := After(w, RefusedRun(k)); end.routes == map[] && end.passes == map[] && end.children == w.children
  {
    var w6 := World(w.clock, map[APP := copy], w.children, map[APP := Releasing(copy)]);
    assert SetPass(w, APP, Releasing(copy)) == w6;
    RefusedCleanup(w, copy, k);
    ReleaseLast(w6, copy);
    var run := RefusedRun(k);
    ExecSix(w, run);
    assert run[5] == Release(APP, Done);
  }

  lemma RefusedTeardown(w: World, spec: Spec, k: ChildKey)
    requires OnlyApp(w) && w.routes[APP].spec == spec && ListsOnly(w.children, GatewayRef(spec).ns, k)
    ensures var end := After(After(w, TEARDOWN_START), RefusedRun(k));
            end.routes == map[] && end.passes == map[] && end.children == w.children
  {
    DeleteAndStart(w);
    RefusedEnd(After(w, TEARDOWN_START), Doomed(w), k);
  }

  /**
   The four runs: the gateway is edited between passes, or while a pass has writes left, or cleanup's list
   calls fail, or its delete does.
   */
  function EditedRun(): seq<Action> {
    SETUP + [Edit(APP, AppSpec("g2"))] + TEARDOWN_START + TeardownRun(true)
  }

  const BEGUN: seq<Action> := [Create(APP, AppSpec("g1")), Start(APP, false), AddFinalizer(APP, false, Done)]
  const WRITTEN: seq<Action> := [Write(APP, Done), Write(APP, Done), End(APP)]

  function MidPassRun(): seq<Action> {
    BEGUN + [Edit(APP, AppSpec("g2"))] + WRITTEN + TEARDOWN_START + TeardownRun(true)
  }

  function UnlistedRun(): seq<Action> {
    SETUP + TEARDOWN_START + TeardownRun(false)
  }

  const APP_JWT := KeyOf(APP, "g1", Jwt)

  function UndeletedRun(): seq<Action> {
    SETUP + TEARDOWN_START + RefusedRun(APP_JWT)
  }

  lemma SetupFacts()
    ensures var w, k := SetupWorld(), KeyOf(APP, "g1", Jwt);
            OnlyApp(w) && w.routes[APP].spec == AppSpec("g1") && k in w.children &&
              w.children[k].routeLabel == Some(APP.name)
    ensures forall k, kind :: !Listed(SetupWorld().children, APP.name, "g2", kind, k)
    ensures ListsOnly(SetupWorld().children, "g1", APP_JWT)
  {
    AppWrites("g1");
    assert Owned(HttpRouteKind) && !Owned(RequestAuthenticationKind);
  }

  lemma UnlistedRunLeaves()
    ensures Orphan(After(EMPTY_WORLD, UnlistedRun()), KeyOf(APP, "g1", Jwt))
  {
    SetupReaches();
    SetupFacts();
    AfterConcat(EMPTY_WORLD, SETUP, TEARDOWN_START);
    AfterConcat(EMPTY_WORLD, SETUP + TEARDOWN_START, TeardownRun(false));
    EmptyTeardown(SetupWorld(), AppSpec("g1"), false);
  }

  lemma EditedWorld(w: World)
    requires OnlyApp(w) && w.routes[APP].spec == AppSpec("g1")
    ensures var after := After(w, [Edit(APP, AppSpec("g2"))]);
            OnlyApp(after) && after.routes[APP].spec == AppSpec("g2") && after.children == w.children
  {
    OneStep(w, Edit(APP, AppSpec("g2")));
  }

  lemma EditedRunLeaves()
    ensures Orphan(After(EMPTY_WORLD, EditedRun()), KeyOf(APP, "g1", Jwt))
  {
    var edit := [Edit(APP, AppSpec("g2"))];
    SetupReaches();
    SetupFacts();
    EditedWorld(SetupWorld());
    AfterConcat(EMPTY_WORLD, SETUP, edit);
    AfterConcat(EMPTY_WORLD, SETUP + edit, TEARDOWN_START);
    AfterConcat(EMPTY_WORLD, SETUP + edit + TEARDOWN_START, TeardownRun(true));
    EmptyTeardown(After(SetupWorld(), edit), AppSpec("g2"), true);
  }

  lemma ExecThree(w: World, s: seq<Action>)
    requires |s| == 3
    ensures After(w, s) == Step(Step(Step(w, s[0]), s[1]), s[2])
  {
    assert forall i, j :: 0 <= i <= j <= 3 ==> s[..j][..i] == s[..i];
    assert s[..3] == s && After(w, s[..0]) == w;
    assert After(w, s[..1]) == Step(w, s[0]);
    assert After(w, s[..2]) == Step(After(w, s[..1]), s[1]);
  }

  /** The gateway is edited after the finalizer was added; the pass writes from the Route it has read. */
  function MidPassWorld(): World {
    World(3, map[APP := Stored(2, AppSpec("g2"), false, true, false)], SetupWorld().children, map[])
  }

  lemma MidPassReaches()
    ensures After(EMPTY_WORLD, BEGUN + [Edit(APP, AppSpec("g2"))] + WRITTEN) == MidPassWorld()
  {
    var edit := Edit(APP, AppSpec("g2"));
    var held := Stored(1, AppSpec("g1"), false, true, false);
    var ops := PassOps(APP, AppSpec("g1"), None);
    AppWrites("g1");
    CreateAndHold(AppSpec("g1"));
    ExecThree(EMPTY_WORLD, BEGUN);
    var w1 := World(2, map[APP := held], map[], map[APP := Writing(held, ops)]);
    var w2 := World(3, map[APP := Stored(2, AppSpec("g2"), false, true, false)], map[], map[APP := Writing(held, ops)]);
    OneStep(w1, edit);
    assert Step(w1, edit) == w2;
    TwoWrites(w2, held, ops);
    ExecThree(w2, WRITTEN);
    AfterConcat(EMPTY_WORLD, BEGUN, [edit]);
    AfterConcat(EMPTY_WORLD, BEGUN + [edit], WRITTEN);
  }

  lemma MidPassRunLeaves()
    ensures Orphan(After(EMPTY_WORLD, MidPassRun()), APP_JWT)
  {
    var run := BEGUN + [Edit(APP, AppSpec("g2"))] + WRITTEN;
    MidPassReaches();
    SetupFacts();
    AfterConcat(EMPTY_WORLD, run, TEARDOWN_START);
    AfterConcat(EMPTY_WORLD, run + TEARDOWN_START, TeardownRun(true));
    EmptyTeardown(MidPassWorld(), AppSpec("g2"), true);
  }

  lemma UndeletedRunLeaves()
    ensures Orphan(After(EMPTY_WORLD, UndeletedRun()), APP_JWT)
  {
    SetupReaches();
    SetupFacts();
    AfterConcat(EMPTY_WORLD, SETUP, TEARDOWN_START);
    AfterConcat(EMPTY_WORLD, SETUP + TEARDOWN_START, RefusedRun(APP_JWT));
    RefusedTeardown(SetupWorld(), AppSpec("g1"), APP_JWT);
  }

  /**
   No hypothesis of the no-orphan theorem can be dropped: after an edit of the gateway namespace between two
   passes or during one, after a cleanup whose list calls failed, and after one whose delete was refused, the
   RequestAuthentication stays behind with no Route left in the store.
   */
  lemma OrphanRuns()
    ensures Orphan(After(EMPTY_WORLD, EditedRun()), APP_JWT)
    ensures Orphan(After(EMPTY_WORLD, MidPassRun()), APP_JWT)
    ensures Orphan(After(EMPTY_WORLD, UnlistedRun()), APP_JWT)
    ensures Orphan(After(EMPTY_WORLD, UndeletedRun()), APP_JWT)
  {
    EditedRunLeaves();
    MidPassRunLeaves();
    UnlistedRunLeaves();
    UndeletedRunLeaves();
  }
}
