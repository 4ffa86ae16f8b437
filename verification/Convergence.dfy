/**
 Convergence of the child store: however many API calls failed before, one failure-free pass
 restores exactly the desired objects; passes are idempotent and may write in any order.
 */
module Convergence {
  import opened RouteApi
  import opened ChildNames
  import opened Translation
  import opened ChildPass

  // ---------------------------------------------------------------- slots of a pass are distinct

  function OpSlots(op: Op): seq<Slot> {
    match op
    case Put(slot, _) => [slot]
    case Invalid(slot) => [slot]
    case Drop(slots) => slots
  }

  ghost predicate Disjoint(a: Op, b: Op) {
    forall s :: s in OpSlots(a) ==> s !in OpSlots(b)
  }

  /** Different positions touch different slots. */
  ghost predicate Apart(ops: seq<Op>) {
    forall i, j :: 0 <= i < j < |ops| ==> Disjoint(ops[i], ops[j])
  }

  /** Different writes touch different slots; insensitive to order and repetition. */
  ghost predicate Separate(ops: seq<Op>) {
    forall a, b :: a in ops && b in ops && a != b ==> Disjoint(a, b)
  }

  function Family(s: Slot): nat {
    match s
    case RuleRoute(_) => 0
    case RedirectRoute(_) => 1
    case Virtual => 2
    case TlsRule(_) => 3
    case BodySize(_) => 4
    case Jwt => 5
    case Authz => 5
    case RateLimiter => 6
  }

  ghost predicate Within(ops: seq<Op>, lo: nat, hi: nat) {
    forall op, s :: op in ops && s in OpSlots(op) ==> lo <= Family(s) < hi
  }

  lemma ApartConcat(a: seq<Op>, b: seq<Op>, mid: nat)
    requires Apart(a) && Apart(b) && Within(a, 0, mid) && Within(b, mid, mid + 1)
    ensures Apart(a + b) && Within(a + b, 0, mid + 1)
  {
    var c := a + b;
    forall i, j | 0 <= i < j < |c|
      ensures Disjoint(c[i], c[j])
    {
      if i < |a| <= j {
        assert c[i] in a && c[j] in b;
        forall s | s in OpSlots(c[i])
          ensures s !in OpSlots(c[j])
        {
          assert Family(s) < mid;
        }
      } else if j < |a| {
        assert c[i] == a[i] && c[j] == a[j];
      } else {
        assert c[i] == b[i - |a|] && c[j] == b[j - |a|];
      }
    }
  }

  function IndexOf(s: Slot): nat {
    match s
    case RuleRoute(i) => i
    case RedirectRoute(i) => i
    case TlsRule(i) => i
    case BodySize(i) => i
    case Authz => 1
    case _ => 0
  }

  /** The stage's i-th write touches the i-th slot of one family, and nothing else. */
  ghost predicate Indexed(ops: seq<Op>, family: nat) {
    forall i :: 0 <= i < |ops| ==>
      |OpSlots(ops[i])| == 1 && Family(OpSlots(ops[i])[0]) == family && IndexOf(OpSlots(ops[i])[0]) == i
  }

  lemma IndexedApart(ops: seq<Op>, family: nat)
    requires Indexed(ops, family)
    ensures Apart(ops) && Within(ops, family, family + 1)
  {
    forall i, j | 0 <= i < j < |ops|
      ensures Disjoint(ops[i], ops[j])
    {
      assert OpSlots(ops[i]) == [OpSlots(ops[i])[0]] && OpSlots(ops[j]) == [OpSlots(ops[j])[0]];
    }
  }

  lemma RuleOpsIndexed(spec: Spec, canary: Option<Canary>)
    ensures Indexed(RuleOps(spec, canary), 0)
  {
  }

  lemma RedirectOpsIndexed(spec: Spec)
    ensures Indexed(RedirectOps(spec), 1)
  {
  }

  lemma BodySizeOpsIndexed(spec: Spec)
    ensures Indexed(BodySizeOps(spec), 4)
  {
  }

  lemma AuthOpsApart(spec: Spec)
    ensures Apart(AuthOps(spec)) && Within(AuthOps(spec), 5, 6)
  {
    if spec.auth.Some? {
      assert Indexed(AuthOps(spec), 5);
      IndexedApart(AuthOps(spec), 5);
    }
  }

  lemma VirtualOpsIndexed(ns: string, spec: Spec, canary: Option<Canary>)
    ensures Indexed(VirtualOps(ns, spec, canary), 2)
  {
  }

  lemma TlsOpsIndexed(ns: string, spec: Spec, canary: Option<Canary>)
    ensures Indexed(TlsOps(ns, spec, canary), 3)
  {
  }

  lemma RateLimitOpsIndexed(name: string, spec: Spec)
    ensures Indexed(RateLimitOps(name, spec), 6)
  {
  }

  lemma StageIndexed(key: RouteKey, spec: Spec, canary: Option<Canary>, stage: nat)
    requires stage < STAGES && stage != 5
    ensures Indexed(Stages(key, spec, canary)[stage], stage)
  {
    match stage
    case 0 => RuleOpsIndexed(spec, canary);
    case 1 => RedirectOpsIndexed(spec);
    case 2 => VirtualOpsIndexed(key.ns, spec, canary);
    case 3 => TlsOpsIndexed(key.ns, spec, canary);
    case 4 => BodySizeOpsIndexed(spec);
    case _ => RateLimitOpsIndexed(key.name, spec);
  }

  lemma StageApart(key: RouteKey, spec: Spec, canary: Option<Canary>, stage: nat)
    requires stage < STAGES
    ensures Apart(Stages(key, spec, canary)[stage])
    ensures Within(Stages(key, spec, canary)[stage], stage, stage + 1)
  {
    if stage == 5 {
      AuthOpsApart(spec);
    } else {
      StageIndexed(key, spec, canary, stage);
      IndexedApart(Stages(key, spec, canary)[stage], stage);
    }
  }

  lemma {:induction false} FlattenApart(stages: seq<seq<Op>>)
    requires forall i :: 0 <= i < |stages| ==> Apart(stages[i]) && Within(stages[i], i, i + 1)
    ensures Apart(Flatten(stages)) && Within(Flatten(stages), 0, |stages|)
  {
    if stages != [] {
      FlattenApart(stages[..|stages| - 1]);
      ApartConcat(Flatten(stages[..|stages| - 1]), stages[|stages| - 1], |stages| - 1);
    }
  }

  lemma PassOpsApart(key: RouteKey, spec: Spec, canary: Option<Canary>)
    ensures Apart(PassOps(key, spec, canary)) && Separate(PassOps(key, spec, canary))
  {
    var stages := Stages(key, spec, canary);
    forall i | 0 <= i < |stages|
      ensures Apart(stages[i]) && Within(stages[i], i, i + 1)
    {
      StageApart(key, spec, canary, i);
    }
    FlattenApart(stages);
    ApartIsSeparate(PassOps(key, spec, canary));
  }

  lemma ApartIsSeparate(ops: seq<Op>)
    requires Apart(ops)
    ensures Separate(ops)
  {
    forall a, b | a in ops && b in ops && a != b
      ensures Disjoint(a, b)
    {
      var i :| 0 <= i < |ops| && ops[i] == a;
      var j :| 0 <= j < |ops| && ops[j] == b;
      if j < i { assert Disjoint(ops[j], ops[i]); }
    }
  }

  ghost predicate ComesBefore(s: Slot, t: Slot) {
    Family(s) < Family(t) || (Family(s) == Family(t) && IndexOf(s) < IndexOf(t))
  }

  ghost predicate Ordered(ops: seq<Op>) {
    forall i, j, s, t :: 0 <= i < j < |ops| && s in OpSlots(ops[i]) && t in OpSlots(ops[j]) ==> ComesBefore(s, t)
  }

  lemma OrderedConcat(a: seq<Op>, b: seq<Op>, mid: nat)
    requires Ordered(a) && Ordered(b) && Within(a, 0, mid) && Within(b, mid, mid + 1)
    ensures Ordered(a + b)
  {
    var c := a + b;
    forall i, j, s, t | 0 <= i < j < |c| && s in OpSlots(c[i]) && t in OpSlots(c[j])
      ensures ComesBefore(s, t)
    {
      if i < |a| <= j {
        assert c[i] in a && c[j] in b;
      }
    }
  }

  lemma StageOrdered(key: RouteKey, spec: Spec, canary: Option<Canary>, stage: nat)
    requires stage < STAGES
    ensures Ordered(Stages(key, spec, canary)[stage])
  {
    var ops := Stages(key, spec, canary)[stage];
    if stage != 5 {
      StageIndexed(key, spec, canary, stage);
    } else if spec.auth.Some? {
      assert Indexed(ops, 5);
    }
    if stage != 5 || spec.auth.Some? {
      forall i, j, s, t | 0 <= i < j < |ops| && s in OpSlots(ops[i]) && t in OpSlots(ops[j])
        ensures ComesBefore(s, t)
      {
        assert OpSlots(ops[i]) == [OpSlots(ops[i])[0]] && OpSlots(ops[j]) == [OpSlots(ops[j])[0]];
      }
    }
  }

  lemma {:induction false} FlattenOrdered(stages: seq<seq<Op>>)
    requires forall i :: 0 <= i < |stages| ==> Ordered(stages[i]) && Apart(stages[i]) && Within(stages[i], i, i + 1)
    ensures Ordered(Flatten(stages))
  {
    if stages != [] {
      FlattenOrdered(stages[..|stages| - 1]);
      FlattenApart(stages[..|stages| - 1]);
      OrderedConcat(Flatten(stages[..|stages| - 1]), stages[|stages| - 1], |stages| - 1);
    }
  }

  /** A pass goes from the HTTPRoutes to the rate limit, and through each family in the order of the rules. */
  lemma WritesInOrder(key: RouteKey, spec: Spec, canary: Option<Canary>)
    ensures Ordered(PassOps(key, spec, canary))
  {
    var stages := Stages(key, spec, canary);
    forall i | 0 <= i < |stages|
      ensures Ordered(stages[i]) && Apart(stages[i]) && Within(stages[i], i, i + 1)
    {
      StageOrdered(key, spec, canary, i);
      StageApart(key, spec, canary, i);
    }
    FlattenOrdered(stages);
  }

  // ---------------------------------------------------------------- desired and disabled objects

  /** The objects the pass is meant to leave in the store. */
  ghost function Desired(owner: Owner, ops: seq<Op>): Store {
    if ops == [] then map[]
    else
      var init, last := Desired(owner, ops[..|ops| - 1]), ops[|ops| - 1];
      if last.Put? then init[SlotKey(owner, last.slot) := MakeChild(owner, last.slot, last.body)] else init
  }

  ghost function KeysOf(owner: Owner, slots: seq<Slot>): set<ChildKey> {
    set s | s in slots :: SlotKey(owner, s)
  }

  /** The keys of switched-off features, which the pass deletes. */
  ghost function Disabled(owner: Owner, ops: seq<Op>): set<ChildKey> {
    if ops == [] then {}
    else
      var last := ops[|ops| - 1];
      Disabled(owner, ops[..|ops| - 1]) + if last.Drop? then KeysOf(owner, last.slots) else {}
  }

  ghost function Touched(owner: Owner, ops: seq<Op>): set<ChildKey> {
    Desired(owner, ops).Keys + Disabled(owner, ops)
  }

  ghost predicate Puts(owner: Owner, ops: seq<Op>, k: ChildKey, c: Child) {
    exists op :: op in ops && op.Put? && k == SlotKey(owner, op.slot) && c == MakeChild(owner, op.slot, op.body)
  }

  ghost predicate Drops(owner: Owner, ops: seq<Op>, k: ChildKey) {
    exists op :: op in ops && op.Drop? && k in KeysOf(owner, op.slots)
  }

  lemma SlotKeysEqual(owner: Owner, s: Slot, t: Slot)
    ensures SlotKey(owner, s) == SlotKey(owner, t) <==> s == t
  {
    if SlotKey(owner, s) == SlotKey(owner, t) {
      SlotKeysInjective(owner.key, owner.gatewayNs, s, t);
    }
  }

  lemma DisjointKeys(owner: Owner, a: Op, b: Op)
    requires Disjoint(a, b)
    ensures KeysOf(owner, OpSlots(a)) !! KeysOf(owner, OpSlots(b))
  {
    forall s, t | s in OpSlots(a) && t in OpSlots(b)
      ensures SlotKey(owner, s) != SlotKey(owner, t)
    {
      SlotKeysEqual(owner, s, t);
    }
  }

  lemma PutKey(owner: Owner, op: Op)
    requires op.Put?
    ensures KeysOf(owner, OpSlots(op)) == {SlotKey(owner, op.slot)}
  {
  }

  /** Two writes of one key in a list of separate writes are the same write. */
  lemma SameKeySamePut(owner: Owner, ops: seq<Op>, a: Op, b: Op)
    requires Separate(ops) && a in ops && b in ops && a.Put? && b.Put?
    requires SlotKey(owner, a.slot) == SlotKey(owner, b.slot)
    ensures a == b
  {
    PutKey(owner, a);
    PutKey(owner, b);
    assert SlotKey(owner, a.slot) in KeysOf(owner, OpSlots(a)) * KeysOf(owner, OpSlots(b));
    if Disjoint(a, b) { DisjointKeys(owner, a, b); }
  }

  lemma {:induction false} DesiredIsPut(owner: Owner, ops: seq<Op>, k: ChildKey)
    requires Separate(ops)
    ensures k in Desired(owner, ops) ==> Puts(owner, ops, k, Desired(owner, ops)[k])
    ensures forall c :: Puts(owner, ops, k, c) ==> k in Desired(owner, ops) && Desired(owner, ops)[k] == c
  {
    if ops != [] {
      var init, last := ops[..|ops| - 1], ops[|ops| - 1];
      assert ops == init + [last];
      DesiredIsPut(owner, init, k);
      if k in Desired(owner, ops) {
        if last.Put? && SlotKey(owner, last.slot) == k {
          assert last in ops;
        } else {
          var op :| op in init && op.Put? && k == SlotKey(owner, op.slot)
                    && Desired(owner, init)[k] == MakeChild(owner, op.slot, op.body);
          assert op in ops;
        }
      }
      forall c | Puts(owner, ops, k, c)
        ensures k in Desired(owner, ops) && Desired(owner, ops)[k] == c
      {
        var op :| op in ops && op.Put? && k == SlotKey(owner, op.slot) && c == MakeChild(owner, op.slot, op.body);
        if last.Put? && SlotKey(owner, last.slot) == k {
          SameKeySamePut(owner, ops, op, last);
        } else {
          assert Puts(owner, init, k, c);
        }
      }
    }
  }

  lemma {:induction false} DisabledIsDrop(owner: Owner, ops: seq<Op>, k: ChildKey)
    ensures k in Disabled(owner, ops) <==> Drops(owner, ops, k)
  {
    if ops != [] {
      var init, last := ops[..|ops| - 1], ops[|ops| - 1];
      assert ops == init + [last];
      DisabledIsDrop(owner, init, k);
    }
  }

  lemma DesiredNotDisabled(owner: Owner, ops: seq<Op>)
    requires Separate(ops)
    ensures Desired(owner, ops).Keys !! Disabled(owner, ops)
  {
    forall k | k in Desired(owner, ops)
      ensures k !in Disabled(owner, ops)
    {
      DesiredIsPut(owner, ops, k);
      DisabledIsDrop(owner, ops, k);
      var op :| op in ops && op.Put? && k == SlotKey(owner, op.slot);
      PutKey(owner, op);
      forall drop | drop in ops && drop.Drop?
        ensures k !in KeysOf(owner, drop.slots)
      {
        DisjointKeys(owner, op, drop);
      }
    }
  }

  // ---------------------------------------------------------------- what any pass may change

  ghost predicate AgreeOutside(a: Store, b: Store, keys: set<ChildKey>) {
    forall k :: k !in keys ==> (k in a <==> k in b) && (k in a ==> a[k] == b[k])
  }

  lemma {:induction false} DropFrame(owner: Owner, st: PassState, slots: seq<Slot>, oracle: Oracle)
    ensures var end := ExecDrop(owner, st, slots, oracle);
            && AgreeOutside(st.children, end.children, KeysOf(owner, slots))
            && end.written == st.written
            && (st.failed ==> end.failed)
    decreases |slots|
  {
    if slots != [] {
      var outcome := oracle(st.calls);
      var next := st.(children := if outcome.Applied() then st.children - {SlotKey(owner, slots[0])} else st.children,
                      calls := st.calls + 1);
      DropFrame(owner, next, slots[1..], oracle);
      assert forall s :: s in slots[1..] ==> s in slots;
      assert slots[0] in slots;
    }
  }

  /** Whatever API calls fail, a pass changes no key that it neither manages nor disables. */
  lemma {:induction false} PassFrame(owner: Owner, st: PassState, ops: seq<Op>, oracle: Oracle)
    ensures AgreeOutside(st.children, Run(owner, st, ops, oracle).children, Touched(owner, ops))
  {
    if ops != [] {
      var init, last := ops[..|ops| - 1], ops[|ops| - 1];
      assert ops == init + [last];
      PassFrame(owner, st, init, oracle);
      assert Touched(owner, init) <= Touched(owner, ops);
      var mid := Run(owner, st, init, oracle);
      if last.Drop? {
        DropFrame(owner, mid, last.slots, oracle);
      }
    }
  }

  // ---------------------------------------------------------------- each write for itself

  ghost predicate SameAt(a: Store, b: Store, k: ChildKey) {
    (k in a <==> k in b) && (k in a ==> a[k] == b[k])
  }

  /** A write that touches other slots leaves a key alone. */
  lemma OtherWrite(owner: Owner, st: PassState, op: Op, other: Op, oracle: Oracle)
    requires op.Put? && Disjoint(op, other)
    ensures SameAt(st.children, Exec(owner, st, other, oracle).children, SlotKey(owner, op.slot))
    ensures SlotKey(owner, op.slot) in Exec(owner, st, other, oracle).written <==>
            SlotKey(owner, op.slot) in st.written
  {
    DisjointKeys(owner, op, other);
    PutKey(owner, op);
    if other.Put? { PutKey(owner, other); }
    if other.Drop? { DropFrame(owner, st, other.slots, oracle); }
  }

  /** Before its own turn the object of a write is as it was at the start, and not counted. */
  lemma {:induction false} Unwritten(owner: Owner, st: PassState, ops: seq<Op>, op: Op, oracle: Oracle)
    requires op.Put? && forall j :: 0 <= j < |ops| ==> Disjoint(op, ops[j])
    requires SlotKey(owner, op.slot) !in st.written
    ensures SameAt(st.children, Run(owner, st, ops, oracle).children, SlotKey(owner, op.slot))
    ensures SlotKey(owner, op.slot) !in Run(owner, st, ops, oracle).written
  {
    if ops != [] {
      var init := ops[..|ops| - 1];
      Unwritten(owner, st, init, op, oracle);
      OtherWrite(owner, Run(owner, st, init, oracle), op, ops[|ops| - 1], oracle);
    }
  }

  /** Between `before` and `end` a write was carried out as far as its own two calls, the read and the write, let it. */
  ghost predicate Stands(owner: Owner, op: Op, before: PassState, end: PassState, oracle: Oracle)
    requires op.Put?
  {
    var k := SlotKey(owner, op.slot);
    var read, write := oracle(before.calls), oracle(before.calls + 1);
    && (if read.Done? && write.Applied()
        then k in end.children && end.children[k] == MakeChild(owner, op.slot, op.body)
        else SameAt(before.children, end.children, k))
    && (k in end.written <==> read.Done? && write.Done?)
  }

  lemma StandsAtOnce(owner: Owner, st: PassState, op: Op, oracle: Oracle)
    requires op.Put? && SlotKey(owner, op.slot) !in st.written
    ensures Stands(owner, op, st, Exec(owner, st, op, oracle), oracle)
  {
  }

  lemma StandsLater(owner: Owner, op: Op, before: PassState, mid: PassState, other: Op, oracle: Oracle)
    requires op.Put? && Stands(owner, op, before, mid, oracle) && Disjoint(op, other)
    ensures Stands(owner, op, before, Exec(owner, mid, other, oracle), oracle)
  {
    OtherWrite(owner, mid, op, other, oracle);
  }

  /**
   An error of one write never stops another: whatever happened before and happens after, the object of the i-th
   write is stored if its own calls took effect, and is as it was at the start if they did not; it is counted
   exactly if both were acknowledged.
   */
  lemma {:induction false} EachWriteStands(owner: Owner, st: PassState, ops: seq<Op>, i: nat, oracle: Oracle)
    requires Apart(ops) && i < |ops| && ops[i].Put? && SlotKey(owner, ops[i].slot) !in st.written
    ensures var before, end := Run(owner, st, ops[..i], oracle), Run(owner, st, ops, oracle);
            && Stands(owner, ops[i], before, end, oracle)
            && SameAt(st.children, before.children, SlotKey(owner, ops[i].slot))
  {
    var init, last := ops[..|ops| - 1], ops[|ops| - 1];
    if i == |init| {
      forall j | 0 <= j < |init|
        ensures Disjoint(last, init[j])
      {
        assert Disjoint(ops[j], ops[i]);
      }
      Unwritten(owner, st, init, last, oracle);
      StandsAtOnce(owner, Run(owner, st, init, oracle), last, oracle);
    } else {
      assert Disjoint(ops[i], ops[|ops| - 1]);
      assert init[..i] == ops[..i];
      EachWriteStands(owner, st, init, i, oracle);
      StandsLater(owner, ops[i], Run(owner, st, ops[..i], oracle), Run(owner, st, init, oracle), last, oracle);
    }
  }

  lemma KeysOfHead(owner: Owner, slots: seq<Slot>, k: nat)
    requires 0 < k <= |slots|
    ensures KeysOf(owner, slots[..k]) == {SlotKey(owner, slots[0])} + KeysOf(owner, slots[1..][..k - 1])
  {
    assert slots[..k] == [slots[0]] + slots[1..][..k - 1];
  }

  /** Deletes are made in order, and the first that is not acknowledged is the last. */
  lemma {:induction false} DeletesStop(owner: Owner, st: PassState, slots: seq<Slot>, oracle: Oracle, n: nat)
    requires n < |slots| && !oracle(st.calls + n).Done?
    requires forall c :: st.calls <= c < st.calls + n ==> oracle(c).Done?
    ensures var end := ExecDrop(owner, st, slots, oracle);
            && end.failed && end.calls == st.calls + n + 1
            && end.children ==
                 st.children - KeysOf(owner, slots[..if oracle(st.calls + n).LostReply? then n + 1 else n])
    decreases n
  {
    if n > 0 {
      var next := st.(children := st.children - {SlotKey(owner, slots[0])}, calls := st.calls + 1);
      assert next.calls + (n - 1) == st.calls + n;
      DeletesStop(owner, next, slots[1..], oracle, n - 1);
      KeysOfHead(owner, slots, if oracle(st.calls + n).LostReply? then n + 1 else n);
    } else {
      assert slots[..1] == [slots[0]];
      assert KeysOf(owner, slots[..1]) == {SlotKey(owner, slots[0])};
      assert KeysOf(owner, slots[..0]) == {};
    }
  }

  // ---------------------------------------------------------------- failure-free passes

  ghost function Target(children: Store, owner: Owner, ops: seq<Op>): Store {
    (children - Disabled(owner, ops)) + Desired(owner, ops)
  }

  lemma {:induction false} CalmDrop(owner: Owner, st: PassState, slots: seq<Slot>)
    ensures ExecDrop(owner, st, slots, CALM).children == st.children - KeysOf(owner, slots)
    ensures ExecDrop(owner, st, slots, CALM).written == st.written
    ensures ExecDrop(owner, st, slots, CALM).failed == st.failed
    decreases |slots|
  {
    if slots != [] {
      var next := st.(children := st.children - {SlotKey(owner, slots[0])}, calls := st.calls + 1);
      CalmDrop(owner, next, slots[1..]);
      assert slots == [slots[0]] + slots[1..];
      assert KeysOf(owner, slots) ==
             {SlotKey(owner, slots[0])} + KeysOf(owner, slots[1..]);
      assert ExecDrop(owner, st, slots, CALM) == ExecDrop(owner, next, slots[1..], CALM);
    }
  }

  lemma OverlayPut(children: Store, gone: set<ChildKey>, desired: Store, k: ChildKey, c: Child)
    ensures ((children - gone) + desired)[k := c] == (children - gone) + desired[k := c]
  {
  }

  lemma OverlayDrop(children: Store, gone: set<ChildKey>, desired: Store, more: set<ChildKey>)
    requires desired.Keys !! more
    ensures ((children - gone) + desired) - more == (children - (gone + more)) + desired
  {
  }

  /** The store after one more write that took full effect. */
  ghost function Applied(owner: Owner, children: Store, op: Op): Store {
    match op
    case Put(slot, body) => children[SlotKey(owner, slot) := MakeChild(owner, slot, body)]
    case Invalid(_) => children
    case Drop(slots) => children - KeysOf(owner, slots)
  }

  lemma TargetNext(owner: Owner, children: Store, ops: seq<Op>)
    requires ops != [] && Separate(ops)
    ensures Applied(owner, Target(children, owner, ops[..|ops| - 1]), ops[|ops| - 1]) == Target(children, owner, ops)
  {
    var init, last := ops[..|ops| - 1], ops[|ops| - 1];
    match last
    case Put(slot, body) =>
      OverlayPut(children, Disabled(owner, init), Desired(owner, init), SlotKey(owner, slot),
                 MakeChild(owner, slot, body));
    case Invalid(_) =>
    case Drop(slots) =>
      DesiredNotDisabled(owner, ops);
      OverlayDrop(children, Disabled(owner, init), Desired(owner, init), KeysOf(owner, slots));
  }

  lemma SeparatePrefix(ops: seq<Op>)
    requires ops != [] && Separate(ops)
    ensures Separate(ops[..|ops| - 1])
  {
    assert ops == ops[..|ops| - 1] + [ops[|ops| - 1]];
  }

  /** A failure-free pass removes the disabled objects and overlays the desired ones. */
  lemma {:induction false} CalmPass(owner: Owner, st: PassState, ops: seq<Op>)
    requires Separate(ops)
    ensures Run(owner, st, ops, CALM).children == Target(st.children, owner, ops)
  {
    if ops != [] {
      var init, last := ops[..|ops| - 1], ops[|ops| - 1];
      SeparatePrefix(ops);
      CalmPass(owner, st, init);
      if last.Drop? { CalmDrop(owner, Run(owner, st, init, CALM), last.slots); }
      assert Run(owner, st, ops, CALM).children == Applied(owner, Run(owner, st, init, CALM).children, last);
      TargetNext(owner, st.children, ops);
    }
  }

  lemma {:induction false} UnfailedDrop(owner: Owner, st: PassState, slots: seq<Slot>, oracle: Oracle)
    requires !ExecDrop(owner, st, slots, oracle).failed
    ensures ExecDrop(owner, st, slots, oracle).children == st.children - KeysOf(owner, slots)
    ensures !st.failed
    decreases |slots|
  {
    if slots != [] {
      var next := st.(children := st.children - {SlotKey(owner, slots[0])}, calls := st.calls + 1);
      UnfailedDrop(owner, next, slots[1..], oracle);
      assert slots == [slots[0]] + slots[1..];
      assert KeysOf(owner, slots) == {SlotKey(owner, slots[0])} + KeysOf(owner, slots[1..]);
    }
  }

  lemma UnfailedExec(owner: Owner, st: PassState, op: Op, oracle: Oracle)
    requires !Exec(owner, st, op, oracle).failed
    ensures Exec(owner, st, op, oracle).children == Applied(owner, st.children, op) && !st.failed
  {
    if op.Drop? { UnfailedDrop(owner, st, op.slots, oracle); }
  }

  /** A pass that reports no error has done what a failure-free one does. */
  lemma {:induction false} UnfailedPass(owner: Owner, st: PassState, ops: seq<Op>, oracle: Oracle)
    requires Separate(ops) && !Run(owner, st, ops, oracle).failed
    ensures Run(owner, st, ops, oracle).children == Target(st.children, owner, ops)
    ensures !st.failed
  {
    if ops != [] {
      var init, last := ops[..|ops| - 1], ops[|ops| - 1];
      SeparatePrefix(ops);
      UnfailedExec(owner, Run(owner, st, init, oracle), last, oracle);
      UnfailedPass(owner, st, init, oracle);
      TargetNext(owner, st.children, ops);
    }
  }

  /** Passes of one Route over a store, each with its own API failures. */
  ghost function RunPasses(owner: Owner, children: Store, ops: seq<Op>, oracles: seq<Oracle>): Store {
    if oracles == [] then children
    else
      var before := RunPasses(owner, children, ops, oracles[..|oracles| - 1]);
      Run(owner, Begin(before, 0), ops, oracles[|oracles| - 1]).children
  }

  lemma {:induction false} PassesFrame(owner: Owner, children: Store, ops: seq<Op>, oracles: seq<Oracle>)
    ensures AgreeOutside(children, RunPasses(owner, children, ops, oracles), Touched(owner, ops))
  {
    if oracles != [] {
      var init := oracles[..|oracles| - 1];
      PassesFrame(owner, children, ops, init);
      PassFrame(owner, Begin(RunPasses(owner, children, ops, init), 0), ops, oracles[|oracles| - 1]);
    }
  }

  /** Whatever has happened to the managed and disabled keys, a failure-free pass restores them. */
  lemma HealsDrift(owner: Owner, children: Store, drifted: Store, ops: seq<Op>)
    requires Separate(ops) && AgreeOutside(children, drifted, Touched(owner, ops))
    ensures Run(owner, Begin(drifted, 0), ops, CALM).children == Target(children, owner, ops)
  {
    CalmPass(owner, Begin(drifted, 0), ops);
    var a, b := Target(drifted, owner, ops), Target(children, owner, ops);
    assert forall k :: k in a <==> k in b;
  }

  /**
   Convergence: after any passes in which any API calls failed, one failure-free pass leaves the
   original store with the disabled keys removed and the desired objects overlaid.
   */
  lemma Convergence(key: RouteKey, spec: Spec, canary: Option<Canary>, children: Store, oracles: seq<Oracle>)
    ensures var owner, ops := OwnerOf(key, spec), PassOps(key, spec, canary);
            Run(owner, Begin(RunPasses(owner, children, ops, oracles), 0), ops, CALM).children
            == Target(children, owner, ops)
  {
    var owner, ops := OwnerOf(key, spec), PassOps(key, spec, canary);
    PassOpsApart(key, spec, canary);
    PassesFrame(owner, children, ops, oracles);
    HealsDrift(owner, children, RunPasses(owner, children, ops, oracles), ops);
  }

  /** A second failure-free pass changes nothing. */
  lemma Idempotent(key: RouteKey, spec: Spec, canary: Option<Canary>, children: Store)
    ensures var owner, ops := OwnerOf(key, spec), PassOps(key, spec, canary);
            var once := Run(owner, Begin(children, 0), ops, CALM).children;
            Run(owner, Begin(once, 0), ops, CALM).children == once
  {
    var owner, ops := OwnerOf(key, spec), PassOps(key, spec, canary);
    Convergence(key, spec, canary, children, []);
    Convergence(key, spec, canary, children, [CALM]);
    assert RunPasses(owner, children, ops, []) == children;
    assert [CALM][..0] == [];
    assert RunPasses(owner, children, ops, [CALM]) == Run(owner, Begin(children, 0), ops, CALM).children;
  }

  /** The writes of a pass may be issued in any order, even repeatedly. */
  lemma OrderIndependent(key: RouteKey, spec: Spec, canary: Option<Canary>, children: Store, shuffled: seq<Op>)
    requires forall op :: op in shuffled <==> op in PassOps(key, spec, canary)
    ensures var owner := OwnerOf(key, spec);
            Run(owner, Begin(children, 0), shuffled, CALM).children
            == Run(owner, Begin(children, 0), PassOps(key, spec, canary), CALM).children
  {
    var owner, ops := OwnerOf(key, spec), PassOps(key, spec, canary);
    PassOpsApart(key, spec, canary);
    CalmPass(owner, Begin(children, 0), ops);
    CalmPass(owner, Begin(children, 0), shuffled);
    forall k
      ensures k in Disabled(owner, ops) <==> k in Disabled(owner, shuffled)
    {
      DisabledIsDrop(owner, ops, k);
      DisabledIsDrop(owner, shuffled, k);
    }
    assert Disabled(owner, ops) == Disabled(owner, shuffled);
    forall k
      ensures k in Desired(owner, ops) <==> k in Desired(owner, shuffled)
      ensures k in Desired(owner, ops) ==> Desired(owner, ops)[k] == Desired(owner, shuffled)[k]
    {
      DesiredIsPut(owner, ops, k);
      DesiredIsPut(owner, shuffled, k);
      assert forall c :: Puts(owner, ops, k, c) <==> Puts(owner, shuffled, k, c);
    }
    assert Desired(owner, ops) == Desired(owner, shuffled);
  }

  // ---------------------------------------------------------------- canary rollback in the store

  /**
   After a canary pass and then a rollback pass, both failure-free, every HTTPRoute of the Route
   is back to its stable contents, but the VirtualService is stable exactly when the spec has a
   timeout, CORS or retries: otherwise the rollback pass does not write it and it keeps the split.
   */
  lemma RollbackInStore(key: RouteKey, spec: Spec, children: Store)
    requires spec.canary.Some? && spec.rules != []
    ensures var owner := OwnerOf(key, spec);
            var split := Run(owner, Begin(children, 0), PassOps(key, spec, spec.canary), CALM).children;
            var stable := Run(owner, Begin(split, 0), PassOps(key, spec, None), CALM).children;
            var vs := SlotKey(owner, Virtual);
            && (forall i :: 0 <= i < |spec.rules| ==>
                  Maps(stable, SlotKey(owner, RuleRoute(i)), RuleBody(spec, spec.rules[i], None)))
            && vs in stable
            && (Maps(stable, vs, VirtualServiceBody(key.ns, spec, None)) <==>
                  spec.timeout != "" || spec.cors.Some? || spec.retries.Some?)
            && (Maps(stable, vs, VirtualServiceBody(key.ns, spec, spec.canary)) <==>
                  !(spec.timeout != "" || spec.cors.Some? || spec.retries.Some?))
  {
    var owner, on, off := OwnerOf(key, spec), PassOps(key, spec, spec.canary), PassOps(key, spec, None);
    var split := Run(owner, Begin(children, 0), on, CALM).children;
    CalmStage(key, spec, spec.canary, children, 2, 0);
    forall i | 0 <= i < |spec.rules|
      ensures Maps(Run(owner, Begin(split, 0), off, CALM).children, SlotKey(owner, RuleRoute(i)),
                   RuleBody(spec, spec.rules[i], None))
    {
      CalmStage(key, spec, None, split, 0, i);
    }
    if OtherVirtualServiceReason(spec) {
      CalmStage(key, spec, None, split, 2, 0);
    } else {
      VirtualUntouched(key, spec);
      PassFrame(owner, Begin(split, 0), off, CALM);
    }
    SplitDiffers(key.ns, spec);
  }

  /** What one stage writes is in the store after a failure-free pass. */
  lemma CalmStage(key: RouteKey, spec: Spec, canary: Option<Canary>, children: Store, stage: nat, i: nat)
    requires stage < STAGES && i < |Stages(key, spec, canary)[stage]| && Stages(key, spec, canary)[stage][i].Put?
    ensures var owner, op := OwnerOf(key, spec), Stages(key, spec, canary)[stage][i];
            Maps(Run(owner, Begin(children, 0), PassOps(key, spec, canary), CALM).children,
                 SlotKey(owner, op.slot), op.body)
  {
    var owner, ops, op := OwnerOf(key, spec), PassOps(key, spec, canary), Stages(key, spec, canary)[stage][i];
    InFlatten(Stages(key, spec, canary), op);
    PassOpsApart(key, spec, canary);
    CalmPass(owner, Begin(children, 0), ops);
    DesiredIsPut(owner, ops, SlotKey(owner, op.slot));
    assert Puts(owner, ops, SlotKey(owner, op.slot), MakeChild(owner, op.slot, op.body));
  }

  lemma SplitDiffers(ns: string, spec: Spec)
    requires spec.canary.Some? && spec.rules != []
    ensures VirtualServiceBody(ns, spec, None) != VirtualServiceBody(ns, spec, spec.canary)
  {
    assert |Entries(ns, spec, None)[0].dests| == 1;
    assert |Entries(ns, spec, spec.canary)[0].dests| == 2;
  }

  /** A pass without canary, timeout, CORS and retries neither writes nor deletes the VirtualService. */
  lemma VirtualUntouched(key: RouteKey, spec: Spec)
    requires !OtherVirtualServiceReason(spec)
    ensures SlotKey(OwnerOf(key, spec), Virtual) !in Touched(OwnerOf(key, spec), PassOps(key, spec, None))
  {
    var owner, off := OwnerOf(key, spec), PassOps(key, spec, None);
    var vs := SlotKey(owner, Virtual);
    PassOpsApart(key, spec, None);
    forall op | op in off
      ensures vs !in KeysOf(owner, OpSlots(op))
    {
      NoVirtualSlot(key, spec, op);
      forall s | s in OpSlots(op)
        ensures SlotKey(owner, s) != vs
      {
        SlotKeysEqual(owner, s, Virtual);
      }
    }
    UntouchedKey(owner, off, vs);
  }

  lemma {:induction false} UntouchedKey(owner: Owner, ops: seq<Op>, k: ChildKey)
    requires forall op :: op in ops ==> k !in KeysOf(owner, OpSlots(op))
    ensures k !in Touched(owner, ops)
  {
    if ops != [] {
      var init, last := ops[..|ops| - 1], ops[|ops| - 1];
      assert ops == init + [last];
      UntouchedKey(owner, init, k);
      assert k !in KeysOf(owner, OpSlots(last));
      if last.Put? { PutKey(owner, last); }
    }
  }

  lemma NoVirtualSlot(key: RouteKey, spec: Spec, op: Op)
    requires !OtherVirtualServiceReason(spec) && op in PassOps(key, spec, None)
    ensures Virtual !in OpSlots(op)
  {
    var stages := Stages(key, spec, None);
    InFlatten(stages, op);
    var stage :| 0 <= stage < |stages| && op in stages[stage];
    StageApart(key, spec, None, stage);
    assert stage != 2;
  }

  ghost predicate Maps(store: Store, k: ChildKey, body: Body) {
    k in store && store[k].body == body
  }
}
