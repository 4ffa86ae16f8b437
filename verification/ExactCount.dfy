/** `managedCount`: the number of distinct keys a pass wrote, and its closed form. */
module ExactCount {
  import opened Text
  import opened Lists
  import opened RouteApi
  import opened Translation
  import opened ChildPass
  import opened Convergence

  // ---------------------------------------------------------------- counting

  ghost function CountPuts(ops: seq<Op>): nat {
    if ops == [] then 0 else CountPuts(ops[..|ops| - 1]) + if ops[|ops| - 1].Put? then 1 else 0
  }

  lemma {:induction false} CountPutsConcat(a: seq<Op>, b: seq<Op>)
    ensures CountPuts(a + b) == CountPuts(a) + CountPuts(b)
  {
    if b == [] {
      assert a + b == a;
    } else {
      CountPutsConcat(a, b[..|b| - 1]);
      assert (a + b)[..|a + b| - 1] == a + b[..|b| - 1];
    }
  }

  lemma {:induction false} CountUniform(ops: seq<Op>, put: bool)
    requires forall op :: op in ops ==> op.Put? == put
    ensures CountPuts(ops) == if put then |ops| else 0
  {
    if ops != [] {
      CountUniform(ops[..|ops| - 1], put);
    }
  }

  lemma LastKeyIsNew(owner: Owner, ops: seq<Op>)
    requires Apart(ops) && ops != [] && ops[|ops| - 1].Put?
    ensures SlotKey(owner, ops[|ops| - 1].slot) !in Desired(owner, ops[..|ops| - 1])
  {
    var init, last := ops[..|ops| - 1], ops[|ops| - 1];
    var k := SlotKey(owner, last.slot);
    assert Apart(init);
    ApartIsSeparate(init);
    DesiredIsPut(owner, init, k);
    PutKey(owner, last);
    forall op | op in init && op.Put?
      ensures SlotKey(owner, op.slot) != k
    {
      var i :| 0 <= i < |init| && init[i] == op;
      assert Disjoint(ops[i], ops[|ops| - 1]);
      DisjointKeys(owner, op, last);
      PutKey(owner, op);
    }
  }

  /** The keys counted are written, pairwise different, and among the desired ones. */
  lemma {:induction false} WrittenDistinct(owner: Owner, children: Store, calls: nat, ops: seq<Op>, oracle: Oracle)
    requires Apart(ops)
    ensures var end := Run(owner, Begin(children, calls), ops, oracle);
            && NoDup(end.written)
            && (forall k :: k in end.written ==> k in Desired(owner, ops))
            && |end.written| <= CountPuts(ops)
            && (!end.failed ==> |end.written| == CountPuts(ops))
  {
    if ops != [] {
      var init, last := ops[..|ops| - 1], ops[|ops| - 1];
      assert ops == init + [last];
      WrittenDistinct(owner, children, calls, init, oracle);
      var mid := Run(owner, Begin(children, calls), init, oracle);
      if last.Drop? {
        DropFrame(owner, mid, last.slots, oracle);
      }
      if last.Put? {
        LastKeyIsNew(owner, ops);
        NoDupConcat(mid.written, [SlotKey(owner, last.slot)]);
      }
    }
  }

  /** The body size is a decimal numeral below 2 to the 32, and the rate limit is per second, minute or hour. */
  ghost predicate Renderable(spec: Spec) {
    && (spec.maxBodySize != "" && spec.rules != [] ==>
          AllDigits(spec.maxBodySize) && DigitsValue(spec.maxBodySize) < 0x1_0000_0000)
    && (spec.rateLimit.Some? ==> spec.rateLimit.value.unit in {"Second", "Minute", "Hour"})
  }

  lemma {:induction false} CalmFailure(owner: Owner, st: PassState, ops: seq<Op>)
    ensures Run(owner, st, ops, CALM).failed <==> st.failed || exists op :: op in ops && op.Invalid?
  {
    if ops != [] {
      var init, last := ops[..|ops| - 1], ops[|ops| - 1];
      assert ops == init + [last];
      CalmFailure(owner, st, init);
      if last.Drop? { CalmDrop(owner, Run(owner, st, init, CALM), last.slots); }
    }
  }

  lemma InvalidStage(key: RouteKey, spec: Spec, canary: Option<Canary>, stage: nat)
    requires stage < STAGES
    ensures (exists op :: op in Stages(key, spec, canary)[stage] && op.Invalid?) <==>
            || (stage == 4 && spec.maxBodySize != "" && spec.rules != [] && ParseUint32(spec.maxBodySize).None?)
            || (stage == 6 && spec.rateLimit.Some? && FillInterval(spec.rateLimit.value.unit).None?)
  {
    var ops := Stages(key, spec, canary)[stage];
    if stage == 4 && spec.maxBodySize != "" && spec.rules != [] {
      assert ops[0] in ops;
    }
    if stage == 6 {
      assert ops[0] in ops;
    }
  }

  /** With no API failure the pass reports an error exactly when the spec cannot be rendered. */
  lemma CalmPassSucceedsExactly(key: RouteKey, spec: Spec, canary: Option<Canary>, children: Store, calls: nat)
    ensures !Run(OwnerOf(key, spec), Begin(children, calls), PassOps(key, spec, canary), CALM).failed <==>
            Renderable(spec)
  {
    var stages, ops := Stages(key, spec, canary), PassOps(key, spec, canary);
    CalmFailure(OwnerOf(key, spec), Begin(children, calls), ops);
    if op :| op in ops && op.Invalid? {
      InFlatten(stages, op);
      var stage :| 0 <= stage < |stages| && op in stages[stage];
      InvalidStage(key, spec, canary, stage);
    }
    if !Renderable(spec) {
      var stage := if spec.rateLimit.Some? && FillInterval(spec.rateLimit.value.unit).None? then 6 else 4;
      InvalidStage(key, spec, canary, stage);
      var op: Op :| op in stages[stage] && op.Invalid?;
      InFlatten(stages, op);
    }
  }

  ghost function ClosedForm(spec: Spec, canary: Option<Canary>): nat {
    |spec.rules|
    + (if spec.sslRedirect != Some(false) then |HostSet(spec.rules)| else 0)
    + (if spec.timeout != "" || spec.cors.Some? || spec.retries.Some? || canary.Some? then 1 else 0)
    + HttpsCount(spec.rules, canary)
    + (if spec.maxBodySize != "" then |spec.rules| else 0)
    + (if spec.auth.Some? then 2 else 0)
    + (if spec.rateLimit.Some? then 1 else 0)
  }

  ghost function SumPuts(stages: seq<seq<Op>>): nat {
    if stages == [] then 0 else SumPuts(stages[..|stages| - 1]) + CountPuts(stages[|stages| - 1])
  }

  lemma {:induction false} FlattenPuts(stages: seq<seq<Op>>)
    ensures CountPuts(Flatten(stages)) == SumPuts(stages)
  {
    if stages != [] {
      FlattenPuts(stages[..|stages| - 1]);
      CountPutsConcat(Flatten(stages[..|stages| - 1]), stages[|stages| - 1]);
    }
  }

  lemma SumOfSeven(stages: seq<seq<Op>>)
    requires |stages| == 7
    ensures SumPuts(stages) ==
            CountPuts(stages[0]) + CountPuts(stages[1]) + CountPuts(stages[2]) + CountPuts(stages[3]) +
            CountPuts(stages[4]) + CountPuts(stages[5]) + CountPuts(stages[6])
  {
    assert forall i, j :: 0 <= i <= j <= 7 ==> stages[..j][..i] == stages[..i];
    assert SumPuts(stages[..1]) == SumPuts(stages[..0]) + CountPuts(stages[0]);
    assert SumPuts(stages[..2]) == SumPuts(stages[..1]) + CountPuts(stages[1]);
    assert SumPuts(stages[..3]) == SumPuts(stages[..2]) + CountPuts(stages[2]);
    assert SumPuts(stages[..4]) == SumPuts(stages[..3]) + CountPuts(stages[3]);
    assert SumPuts(stages[..5]) == SumPuts(stages[..4]) + CountPuts(stages[4]);
    assert SumPuts(stages[..6]) == SumPuts(stages[..5]) + CountPuts(stages[5]);
  }

  lemma RulePuts(spec: Spec, canary: Option<Canary>)
    ensures CountPuts(RuleOps(spec, canary)) == |spec.rules|
  {
    CountUniform(RuleOps(spec, canary), true);
  }

  lemma RedirectPuts(spec: Spec)
    ensures CountPuts(RedirectOps(spec)) == if RedirectsOn(spec) then |UniqueHosts(spec.rules)| else 0
  {
    CountUniform(RedirectOps(spec), true);
  }

  lemma TlsPuts(ns: string, spec: Spec, canary: Option<Canary>)
    ensures CountPuts(TlsOps(ns, spec, canary)) == |HttpsBackends(spec.rules, canary)|
  {
    CountUniform(TlsOps(ns, spec, canary), true);
  }

  lemma BodySizePuts(spec: Spec)
    requires Renderable(spec)
    ensures CountPuts(BodySizeOps(spec)) == if spec.maxBodySize != "" then |spec.rules| else 0
  {
    CountUniform(BodySizeOps(spec), true);
  }

  lemma FeaturePuts(key: RouteKey, spec: Spec, canary: Option<Canary>)
    requires Renderable(spec)
    ensures CountPuts(VirtualOps(key.ns, spec, canary)) == if NeedsVirtualService(spec, canary) then 1 else 0
    ensures CountPuts(AuthOps(spec)) == if spec.auth.Some? then 2 else 0
    ensures CountPuts(RateLimitOps(key.name, spec)) == if spec.rateLimit.Some? then 1 else 0
  {
    CountUniform(VirtualOps(key.ns, spec, canary), true);
    CountUniform(AuthOps(spec), spec.auth.Some?);
    CountUniform(RateLimitOps(key.name, spec), spec.rateLimit.Some?);
  }

  lemma PutsClosedForm(key: RouteKey, spec: Spec, canary: Option<Canary>)
    requires Renderable(spec)
    ensures CountPuts(PassOps(key, spec, canary)) == ClosedForm(spec, canary)
  {
    var stages := Stages(key, spec, canary);
    FlattenPuts(stages);
    SumOfSeven(stages);
    RulePuts(spec, canary);
    RedirectPuts(spec);
    TlsPuts(key.ns, spec, canary);
    BodySizePuts(spec);
    FeaturePuts(key, spec, canary);
    UniqueHostsCounted(spec.rules);
    HttpsBackendsCounted(spec.rules, canary);
  }

  /**
   Exact count: in every pass the count is the number of distinct keys written; when nothing
   failed these are all the desired keys, and their number is the closed form.
   */
  lemma ExactCount(key: RouteKey, spec: Spec, canary: Option<Canary>, children: Store, calls: nat, oracle: Oracle)
    ensures var owner, ops := OwnerOf(key, spec), PassOps(key, spec, canary);
            var end := Run(owner, Begin(children, calls), ops, oracle);
            && |SetOf(end.written)| == |end.written|
            && SetOf(end.written) <= Desired(owner, ops).Keys
            && (!end.failed ==>
                  SetOf(end.written) == Desired(owner, ops).Keys && |end.written| == ClosedForm(spec, canary))
  {
    var owner, ops := OwnerOf(key, spec), PassOps(key, spec, canary);
    PassOpsApart(key, spec, canary);
    WrittenDistinct(owner, children, calls, ops, oracle);
    var end := Run(owner, Begin(children, calls), ops, oracle);
    NoDupCardinality(end.written);
    if !end.failed {
      AllWritten(owner, Begin(children, calls), ops, oracle);
      CalmPassSucceedsExactly(key, spec, canary, children, 0);
      InvalidFails(owner, Begin(children, calls), ops, oracle);
      CalmFailure(owner, Begin(children, 0), ops);
      PutsClosedForm(key, spec, canary);
    }
  }

  lemma {:induction false} AllWritten(owner: Owner, st: PassState, ops: seq<Op>, oracle: Oracle)
    requires !Run(owner, st, ops, oracle).failed
    ensures forall k :: k in Desired(owner, ops) ==> k in Run(owner, st, ops, oracle).written
  {
    if ops != [] {
      var init, last := ops[..|ops| - 1], ops[|ops| - 1];
      if last.Drop? { DropFrame(owner, Run(owner, st, init, oracle), last.slots, oracle); }
      AllWritten(owner, st, init, oracle);
    }
  }

  lemma {:induction false} InvalidFails(owner: Owner, st: PassState, ops: seq<Op>, oracle: Oracle)
    ensures (exists op :: op in ops && op.Invalid?) || st.failed ==> Run(owner, st, ops, oracle).failed
  {
    if ops != [] {
      var init, last := ops[..|ops| - 1], ops[|ops| - 1];
      assert ops == init + [last];
      InvalidFails(owner, st, init, oracle);
      if last.Drop? { DropFrame(owner, Run(owner, st, init, oracle), last.slots, oracle); }
    }
  }
}
