/**
 Which objects a pass writes, which it deletes and which it leaves behind, read off the spec; and when
 the number of managed resources in the status is the number of the Route's objects in the store.
 */
module StaleChildren {
  import opened Text
  import opened RouteApi
  import opened ChildNames
  import opened Translation
  import opened ChildPass
  import opened Convergence

  // ---------------------------------------------------------------- the slots of a pass

  /** The objects that a pass writes. */
  ghost predicate WantedSlot(spec: Spec, canary: Option<Canary>, s: Slot) {
    match s
    case RuleRoute(i) => i < |spec.rules|
    case RedirectRoute(i) => spec.sslRedirect != Some(false) && i < |HostSet(spec.rules)|
    case Virtual => spec.timeout != "" || spec.cors.Some? || spec.retries.Some? || canary.Some?
    case TlsRule(i) => i < HttpsCount(spec.rules, canary)
    case BodySize(i) =>
      spec.maxBodySize != "" && AllDigits(spec.maxBodySize) && DigitsValue(spec.maxBodySize) < 0x1_0000_0000 &&
      i < |spec.rules|
    case Jwt => spec.auth.Some?
    case Authz => spec.auth.Some?
    case RateLimiter => spec.rateLimit.Some? && spec.rateLimit.value.unit in {"Second", "Minute", "Hour"}
  }

  /** The objects that a pass deletes. */
  ghost predicate DroppedSlot(spec: Spec, s: Slot) {
    match s
    case Jwt => spec.auth.None?
    case Authz => spec.auth.None?
    case RateLimiter => spec.rateLimit.None?
    case _ => false
  }

  ghost predicate PutsSlot(ops: seq<Op>, s: Slot) {
    exists op :: op in ops && op.Put? && op.slot == s
  }

  ghost predicate DropsSlot(ops: seq<Op>, s: Slot) {
    exists op :: op in ops && op.Drop? && s in op.slots
  }

  lemma RuleSlots(spec: Spec, canary: Option<Canary>, s: Slot)
    ensures PutsSlot(RuleOps(spec, canary), s) <==> s.RuleRoute? && WantedSlot(spec, canary, s)
    ensures !DropsSlot(RuleOps(spec, canary), s)
  {
    if s.RuleRoute? && s.index < |spec.rules| {
      assert RuleOps(spec, canary)[s.index] in RuleOps(spec, canary);
    }
  }

  lemma RedirectSlots(spec: Spec, canary: Option<Canary>, s: Slot)
    ensures PutsSlot(RedirectOps(spec), s) <==> s.RedirectRoute? && WantedSlot(spec, canary, s)
    ensures !DropsSlot(RedirectOps(spec), s)
  {
    UniqueHostsCounted(spec.rules);
    if s.RedirectRoute? && RedirectsOn(spec) && s.index < |UniqueHosts(spec.rules)| {
      assert RedirectOps(spec)[s.index] in RedirectOps(spec);
    }
  }

  lemma VirtualSlots(ns: string, spec: Spec, canary: Option<Canary>, s: Slot)
    ensures PutsSlot(VirtualOps(ns, spec, canary), s) <==> s.Virtual? && WantedSlot(spec, canary, s)
    ensures !DropsSlot(VirtualOps(ns, spec, canary), s)
  {
    if NeedsVirtualService(spec, canary) {
      assert VirtualOps(ns, spec, canary)[0] in VirtualOps(ns, spec, canary);
    }
  }

  lemma TlsSlots(ns: string, spec: Spec, canary: Option<Canary>, s: Slot)
    ensures PutsSlot(TlsOps(ns, spec, canary), s) <==> s.TlsRule? && WantedSlot(spec, canary, s)
    ensures !DropsSlot(TlsOps(ns, spec, canary), s)
  {
    HttpsBackendsCounted(spec.rules, canary);
    if s.TlsRule? && s.index < |HttpsBackends(spec.rules, canary)| {
      assert TlsOps(ns, spec, canary)[s.index] in TlsOps(ns, spec, canary);
    }
  }

  lemma BodySizeSlots(spec: Spec, canary: Option<Canary>, s: Slot)
    ensures PutsSlot(BodySizeOps(spec), s) <==> s.BodySize? && WantedSlot(spec, canary, s)
    ensures !DropsSlot(BodySizeOps(spec), s)
  {
    if s.BodySize? && spec.maxBodySize != "" && s.index < |spec.rules| {
      assert BodySizeOps(spec)[s.index] in BodySizeOps(spec);
    }
  }

  lemma AuthSlots(spec: Spec, canary: Option<Canary>, s: Slot)
    ensures PutsSlot(AuthOps(spec), s) <==> (s.Jwt? || s.Authz?) && WantedSlot(spec, canary, s)
    ensures DropsSlot(AuthOps(spec), s) <==> (s.Jwt? || s.Authz?) && DroppedSlot(spec, s)
  {
    var ops := AuthOps(spec);
    assert ops[0] in ops;
    if spec.auth.Some? { assert ops[1] in ops; }
  }

  lemma RateLimitSlots(name: string, spec: Spec, canary: Option<Canary>, s: Slot)
    ensures PutsSlot(RateLimitOps(name, spec), s) <==> s.RateLimiter? && WantedSlot(spec, canary, s)
    ensures DropsSlot(RateLimitOps(name, spec), s) <==> s.RateLimiter? && DroppedSlot(spec, s)
  {
    var ops := RateLimitOps(name, spec);
    assert ops[0] in ops;
  }

  lemma TrafficStageSlots(key: RouteKey, spec: Spec, canary: Option<Canary>, stage: nat, s: Slot)
    requires stage < 4
    ensures PutsSlot(Stages(key, spec, canary)[stage], s) <==> Family(s) == stage && WantedSlot(spec, canary, s)
    ensures !DropsSlot(Stages(key, spec, canary)[stage], s)
  {
    match stage
    case 0 => RuleSlots(spec, canary, s);
    case 1 => RedirectSlots(spec, canary, s);
    case 2 => VirtualSlots(key.ns, spec, canary, s);
    case _ => TlsSlots(key.ns, spec, canary, s);
  }

  /** Each stage writes and deletes exactly the objects of its own family. */
  lemma StageSlots(key: RouteKey, spec: Spec, canary: Option<Canary>, stage: nat, s: Slot)
    requires stage < STAGES
    ensures PutsSlot(Stages(key, spec, canary)[stage], s) <==> Family(s) == stage && WantedSlot(spec, canary, s)
    ensures DropsSlot(Stages(key, spec, canary)[stage], s) <==> Family(s) == stage && DroppedSlot(spec, s)
  {
    if stage < 4 {
      TrafficStageSlots(key, spec, canary, stage, s);
    } else if stage == 4 {
      BodySizeSlots(spec, canary, s);
    } else if stage == 5 {
      AuthSlots(spec, canary, s);
    } else {
      RateLimitSlots(key.name, spec, canary, s);
    }
  }

  lemma FlattenSlots(stages: seq<seq<Op>>, s: Slot)
    ensures PutsSlot(Flatten(stages), s) <==> exists i :: 0 <= i < |stages| && PutsSlot(stages[i], s)
    ensures DropsSlot(Flatten(stages), s) <==> exists i :: 0 <= i < |stages| && DropsSlot(stages[i], s)
  {
    forall op: Op
      ensures op in Flatten(stages) <==> exists i :: 0 <= i < |stages| && op in stages[i]
    {
      InFlatten(stages, op);
    }
    if PutsSlot(Flatten(stages), s) {
      var op: Op :| op in Flatten(stages) && op.Put? && op.slot == s;
      var i :| 0 <= i < |stages| && op in stages[i];
      assert PutsSlot(stages[i], s);
    }
    if DropsSlot(Flatten(stages), s) {
      var op: Op :| op in Flatten(stages) && op.Drop? && s in op.slots;
      var i :| 0 <= i < |stages| && op in stages[i];
      assert DropsSlot(stages[i], s);
    }
  }

  /** The writes and the deletes of a whole pass, read off the spec. */
  lemma PassSlots(key: RouteKey, spec: Spec, canary: Option<Canary>, s: Slot)
    ensures PutsSlot(PassOps(key, spec, canary), s) <==> WantedSlot(spec, canary, s)
    ensures DropsSlot(PassOps(key, spec, canary), s) <==> DroppedSlot(spec, s)
  {
    var stages := Stages(key, spec, canary);
    FlattenSlots(stages, s);
    forall stage: nat | stage < STAGES
      ensures PutsSlot(stages[stage], s) <==> Family(s) == stage && WantedSlot(spec, canary, s)
      ensures DropsSlot(stages[stage], s) <==> Family(s) == stage && DroppedSlot(spec, s)
    {
      StageSlots(key, spec, canary, stage, s);
    }
    if WantedSlot(spec, canary, s) { assert PutsSlot(stages[Family(s)], s); }
    if DroppedSlot(spec, s) { assert DropsSlot(stages[Family(s)], s); }
  }

  lemma DesiredSlots(owner: Owner, ops: seq<Op>, s: Slot)
    requires Separate(ops)
    ensures SlotKey(owner, s) in Desired(owner, ops) <==> PutsSlot(ops, s)
  {
    var k := SlotKey(owner, s);
    DesiredIsPut(owner, ops, k);
    if k in Desired(owner, ops) {
      var op :| op in ops && op.Put? && k == SlotKey(owner, op.slot);
      SlotKeysEqual(owner, s, op.slot);
    }
    if PutsSlot(ops, s) {
      var op: Op :| op in ops && op.Put? && op.slot == s;
      assert Puts(owner, ops, k, MakeChild(owner, op.slot, op.body));
    }
  }

  lemma DisabledSlots(owner: Owner, ops: seq<Op>, s: Slot)
    ensures SlotKey(owner, s) in Disabled(owner, ops) <==> DropsSlot(ops, s)
  {
    var k := SlotKey(owner, s);
    DisabledIsDrop(owner, ops, k);
    if Drops(owner, ops, k) {
      var op: Op :| op in ops && op.Drop? && k in KeysOf(owner, op.slots);
      var t :| t in op.slots && k == SlotKey(owner, t);
      SlotKeysEqual(owner, s, t);
    }
    if DropsSlot(ops, s) {
      var op: Op :| op in ops && op.Drop? && s in op.slots;
      assert k in KeysOf(owner, op.slots);
    }
  }

  /** What a pass desires and what it disables, slot by slot. */
  lemma TouchedExactly(key: RouteKey, spec: Spec, canary: Option<Canary>, s: Slot)
    ensures var owner, ops := OwnerOf(key, spec), PassOps(key, spec, canary);
            && (SlotKey(owner, s) in Desired(owner, ops) <==> WantedSlot(spec, canary, s))
            && (SlotKey(owner, s) in Disabled(owner, ops) <==> DroppedSlot(spec, s))
  {
    PassOpsApart(key, spec, canary);
    PassSlots(key, spec, canary, s);
    DesiredSlots(OwnerOf(key, spec), PassOps(key, spec, canary), s);
    DisabledSlots(OwnerOf(key, spec), PassOps(key, spec, canary), s);
  }

  // ---------------------------------------------------------------- a Route in place

  /** The desired objects of a Route are in the store, and none of the disabled ones. */
  ghost predicate InPlace(children: Store, key: RouteKey, spec: Spec, canary: Option<Canary>) {
    var owner, ops := OwnerOf(key, spec), PassOps(key, spec, canary);
    && (forall k :: k in Desired(owner, ops) ==> k in children && children[k] == Desired(owner, ops)[k])
    && (forall k :: k in Disabled(owner, ops) ==> k !in children)
  }

  lemma TargetInPlace(children: Store, key: RouteKey, spec: Spec, canary: Option<Canary>)
    ensures InPlace(Target(children, OwnerOf(key, spec), PassOps(key, spec, canary)), key, spec, canary)
  {
    PassOpsApart(key, spec, canary);
    DesiredNotDisabled(OwnerOf(key, spec), PassOps(key, spec, canary));
  }

  // ---------------------------------------------------------------- what a pass does not undo

  /**
   A failure-free pass leaves objects of the Route that its spec does not ask for exactly when the store had
   some, other than authentication and rate limiting that are switched off: children of dropped rules, hosts and
   other features, and those of a size or unit that no longer parses, are never deleted.
   */
  lemma StaleChildrenExactly(key: RouteKey, spec: Spec, canary: Option<Canary>, children: Store)
    ensures var owner, ops := OwnerOf(key, spec), PassOps(key, spec, canary);
            var after := Run(owner, Begin(children, 0), ops, CALM).children;
            (exists s :: SlotKey(owner, s) in after && !WantedSlot(spec, canary, s)) <==>
            (exists s :: SlotKey(owner, s) in children && !WantedSlot(spec, canary, s) && !DroppedSlot(spec, s))
  {
    var owner, ops := OwnerOf(key, spec), PassOps(key, spec, canary);
    PassOpsApart(key, spec, canary);
    CalmPass(owner, Begin(children, 0), ops);
    var after := Run(owner, Begin(children, 0), ops, CALM).children;
    forall s
      ensures SlotKey(owner, s) in after <==>
              WantedSlot(spec, canary, s) || (SlotKey(owner, s) in children && !DroppedSlot(spec, s))
    {
      TouchedExactly(key, spec, canary, s);
    }
  }

  /** Any object that a pass neither wants nor drops stays as it is, whatever fails. */
  lemma Untouched(key: RouteKey, spec: Spec, canary: Option<Canary>, children: Store, oracle: Oracle, s: Slot)
    requires !WantedSlot(spec, canary, s) && !DroppedSlot(spec, s)
    ensures var k, end := SlotKey(OwnerOf(key, spec), s),
                          Run(OwnerOf(key, spec), Begin(children, 0), PassOps(key, spec, canary), oracle).children;
            (k in end <==> k in children) && (k in end ==> end[k] == children[k])
  {
    var owner, ops := OwnerOf(key, spec), PassOps(key, spec, canary);
    TouchedExactly(key, spec, canary, s);
    PassFrame(owner, Begin(children, 0), ops, oracle);
  }

  /**
   Rules are dropped from a spec: whatever the pass for the shorter spec does, the HTTPRoutes of the dropped
   rules stay and go on serving their hosts.
   */
  lemma DroppedRuleStays(key: RouteKey, before: Spec, after: Spec, canary: Option<Canary>, children: Store,
                         oracle: Oracle, i: nat)
    requires GatewayRef(before).ns == GatewayRef(after).ns && |after.rules| <= i < |before.rules|
    ensures var first := Run(OwnerOf(key, before), Begin(children, 0), PassOps(key, before, canary), CALM).children;
            var second := Run(OwnerOf(key, after), Begin(first, 0), PassOps(key, after, canary), oracle).children;
            Maps(second, SlotKey(OwnerOf(key, after), RuleRoute(i)), RuleBody(before, before.rules[i], canary))
  {
    CalmStage(key, before, canary, children, 0, i);
    var first := Run(OwnerOf(key, before), Begin(children, 0), PassOps(key, before, canary), CALM).children;
    Untouched(key, after, canary, first, oracle, RuleRoute(i));
  }

  // ---------------------------------------------------------------- the count and the store

  /** The objects in the store that some pass of this Route, at this gateway namespace, would have written. */
  ghost function OwnObjects(children: Store, owner: Owner): set<ChildKey> {
    set k | k in children && exists s :: k == SlotKey(owner, s)
  }

  lemma DesiredAreOwn(key: RouteKey, spec: Spec, canary: Option<Canary>, k: ChildKey)
    requires k in Desired(OwnerOf(key, spec), PassOps(key, spec, canary))
    ensures exists s :: k == SlotKey(OwnerOf(key, spec), s)
  {
    var owner, ops := OwnerOf(key, spec), PassOps(key, spec, canary);
    PassOpsApart(key, spec, canary);
    DesiredIsPut(owner, ops, k);
  }

  lemma SubsetOfSameSize<T>(a: set<T>, b: set<T>)
    requires a <= b
    ensures |a| == |b| <==> a == b
  {
    if a != b {
      var x :| x in b && x !in a;
      SubsetOfSameSize(a, b - {x});
      SizeOfSubset(a, b - {x});
    }
  }

  lemma {:induction false} SizeOfSubset<T>(a: set<T>, b: set<T>)
    requires a <= b
    ensures |a| <= |b|
    decreases a
  {
    if a != {} {
      var x :| x in a;
      SizeOfSubset(a - {x}, b - {x});
    }
  }

  /** Nothing of the Route is in the store but what its spec asks for, or is about to be deleted. */
  ghost predicate NothingStale(children: Store, key: RouteKey, spec: Spec, canary: Option<Canary>) {
    forall s :: SlotKey(OwnerOf(key, spec), s) in children ==> WantedSlot(spec, canary, s) || DroppedSlot(spec, s)
  }

  /** At its target the store holds as many objects of the Route as are desired exactly if none was stale before. */
  lemma TargetCount(key: RouteKey, spec: Spec, canary: Option<Canary>, children: Store)
    ensures var owner, ops := OwnerOf(key, spec), PassOps(key, spec, canary);
            |Desired(owner, ops).Keys| == |OwnObjects(Target(children, owner, ops), owner)| <==>
            NothingStale(children, key, spec, canary)
  {
    var owner, ops := OwnerOf(key, spec), PassOps(key, spec, canary);
    var after := Target(children, owner, ops);
    var desired, own := Desired(owner, ops).Keys, OwnObjects(after, owner);
    forall k | k in desired
      ensures k in own
    {
      DesiredAreOwn(key, spec, canary, k);
    }
    SubsetOfSameSize(desired, own);
    forall s
      ensures SlotKey(owner, s) in own <==>
              WantedSlot(spec, canary, s) || (SlotKey(owner, s) in children && !DroppedSlot(spec, s))
      ensures SlotKey(owner, s) in desired <==> WantedSlot(spec, canary, s)
    {
      TouchedExactly(key, spec, canary, s);
    }
  }
}
