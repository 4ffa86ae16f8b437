/**
 The states from which no run that meets the hypotheses can ever orphan an object: exactly those of
 the invariant. So an edit of the gateway, a failed list or a refused delete is harmless exactly if
 it keeps the invariant, and that can be read off the state before it.
 */
module SafeStates {
  import opened RouteApi
  import opened ChildNames
  import opened ChildPass
  import opened ChildWriter
  import opened Finalizer
  import opened PassRuns

  /** Whatever happens next, as long as the hypotheses are met, there is no orphan. */
  ghost predicate Safe(w: World) {
    forall actions :: TameRun(w, actions) ==> NoOrphan(After(w, actions))
  }

  // ---------------------------------------------------------------- the invariant is enough

  lemma InvIsSafe(w: World)
    requires Inv(w)
    ensures Safe(w)
  {
    forall actions | TameRun(w, actions)
      ensures NoOrphan(After(w, actions))
    {
      InvRun(w, actions);
      InvHasNoOrphan(After(w, actions));
    }
  }

  // ---------------------------------------------------------------- runs that take one Route's finalizer off

  /** Routes and passes of every key but one are as they were. */
  ghost predicate SameElsewhere(w: World, after: World, key: RouteKey) {
    after.routes - {key} == w.routes - {key} && after.passes - {key} == w.passes - {key}
  }

  lemma Elsewhere(w: World, after: World, key: RouteKey, other: RouteKey)
    requires SameElsewhere(w, after, key) && other != key
    ensures other in after.routes <==> other in w.routes
    ensures other in w.routes ==> after.routes[other] == w.routes[other]
    ensures other in after.passes <==> other in w.passes
    ensures other in w.passes ==> after.passes[other] == w.passes[other]
  {
    assert (other in after.routes - {key}) <==> (other in w.routes - {key});
    assert (other in after.passes - {key}) <==> (other in w.passes - {key});
    if other in w.routes { assert (after.routes - {key})[other] == (w.routes - {key})[other]; }
    if other in w.passes { assert (after.passes - {key})[other] == (w.passes - {key})[other]; }
  }

  /** The Route no longer answers for anything, and no pass of it is under way. */
  ghost predicate LetGo(w: World, after: World, key: RouteKey) {
    SameElsewhere(w, after, key) && !Holds(after, key) && key !in after.passes
  }

  lemma ReleaseLetsGo(w: World, key: RouteKey)
    requires key in w.passes && w.passes[key].Releasing? && key in w.routes && w.routes[key] == w.passes[key].copy
    ensures var after := After(w, [Release(key, Done)]); LetGo(w, after, key) && after.children == w.children
  {
    OneStep(w, Release(key, Done));
  }

  /** A cleanup whose calls all take effect goes on to the end, without touching what it has dealt with. */
  lemma {:induction false} FinishKinds(w: World, key: RouteKey, copy: Stored, todo: seq<Kind>, k: ChildKey)
    returns (actions: seq<Action>)
    requires key in w.passes && w.passes[key] == NextKind(copy, todo) && key in w.routes && w.routes[key] == copy
    requires k in w.children && k.kind !in todo
    ensures AllMild(actions)
    ensures var after := After(w, actions);
            LetGo(w, after, key) && k in after.children && after.children[k] == w.children[k]
    decreases |todo|
  {
    if todo == [] {
      ReleaseLetsGo(w, key);
      actions := [Release(key, Done)];
    } else {
      var one := KindIsARun(w, key, copy, todo, (kind: Kind) => true, (child: ChildKey) => Done);
      var next := After(w, one);
      var more := FinishKinds(next, key, copy, todo[1..], k);
      AfterConcat(w, one, more);
      actions := one + more;
    }
  }

  lemma FinishDeletes(w: World, key: RouteKey, k: ChildKey)
    returns (actions: seq<Action>)
    requires key in w.passes && w.passes[key].Deleting? && w.passes[key].pending != {}
    requires key in w.routes && w.routes[key] == w.passes[key].copy
    requires k in w.children && SweptBy(w.passes[key], k)
    ensures AllMild(actions)
    ensures var after := After(w, actions);
            LetGo(w, after, key) && k in after.children && after.children[k] == w.children[k]
  {
    var Deleting(copy, kind, pending, todo) := w.passes[key];
    var one := DeletesAreARun(w, key, copy, kind, pending, todo, (child: ChildKey) => Done);
    var next := After(w, one);
    var more := FinishKinds(next, key, copy, todo, k);
    AfterConcat(w, one, more);
    actions := one + more;
  }

  /** A pass that can still update its Route and has swept `k` can end with the finalizer off and `k` there. */
  lemma FinishSweep(w: World, key: RouteKey, k: ChildKey)
    returns (actions: seq<Action>)
    requires Base(w) && Holds(w, key) && key in w.passes && !Stale(w, key)
    requires k in w.children && SweptBy(w.passes[key], k)
    ensures AllMild(actions)
    ensures var after := After(w, actions);
            LetGo(w, after, key) && k in after.children && after.children[k] == w.children[k]
  {
    assert Underway(w.passes[key]);
    match w.passes[key]
    case Cleaning(copy, todo) => actions := FinishKinds(w, key, copy, todo, k);
    case Deleting(_, _, _, _) => actions := FinishDeletes(w, key, k);
    case Releasing(copy) => actions := FinishKinds(w, key, copy, [], k);
  }

  /** The Routes that answer for a name in a gateway namespace. */
  ghost function Holders(w: World, name: string, ns: string): set<RouteKey> {
    set r | r in w.routes && Holder(w, r, name, ns)
  }

  lemma FewerHolders(w: World, after: World, key: RouteKey, name: string, ns: string)
    requires LetGo(w, after, key)
    ensures Holders(after, name, ns) == Holders(w, name, ns) - {key}
  {
    forall r
      ensures r in Holders(after, name, ns) <==> r in Holders(w, name, ns) - {key}
    {
      if r != key { Elsewhere(w, after, key, r); }
    }
  }

  lemma StillUnshielded(w: World, after: World, key: RouteKey, k: ChildKey, name: string)
    requires LetGo(w, after, key) && forall r :: !Shields(w, r, k, name)
    ensures forall r :: !Shields(after, r, k, name)
  {
    forall r
      ensures !Shields(after, r, k, name)
    {
      if r != key {
        Elsewhere(w, after, key, r);
        assert !Shields(w, r, k, name);
      }
    }
  }

  /** An object that nobody shields is orphaned by letting every pass that has swept it finish. */
  lemma {:induction false} UnshieldedOrphans(w: World, k: ChildKey)
    returns (actions: seq<Action>)
    requires Base(w) && GatewayChild(w, k) && !Shielded(w, k)
    ensures AllMild(actions) && !NoOrphan(After(w, actions))
    decreases |Holders(w, w.children[k].routeLabel.value, k.ns)|
  {
    var name := w.children[k].routeLabel.value;
    var holders := Holders(w, name, k.ns);
    if holders == {} {
      actions := [];
      assert forall r :: Holder(w, r, name, k.ns) ==> r in holders;
    } else {
      var r :| r in holders;
      assert !Shields(w, r, k, name);
      var one := FinishSweep(w, r, k);
      var next := After(w, one);
      BaseRun(w, one);
      FewerHolders(w, next, r, name, k.ns);
      StillUnshielded(w, next, r, k, name);
      var more := UnshieldedOrphans(next, k);
      AfterConcat(w, one, more);
      actions := one + more;
    }
  }

  // ---------------------------------------------------------------- a write into a namespace nobody answers for

  lemma EndAlone(w: World, key: RouteKey)
    ensures var after := After(w, [End(key)]);
            SameElsewhere(w, after, key) && key !in after.passes && after.routes == w.routes
  {
    OneStep(w, End(key));
  }

  lemma DeleteAlone(w: World, key: RouteKey)
    requires Holds(w, key)
    ensures var after := After(w, [Delete(key)]);
            SameElsewhere(w, after, key) && Holds(after, key) && after.routes[key].deleting && after.passes == w.passes
  {
    OneStep(w, Delete(key));
  }

  lemma FinalizeLetsGo(w: World, key: RouteKey)
    returns (actions: seq<Action>)
    requires Holds(w, key) && w.routes[key].deleting && key !in w.passes
    ensures AllMild(actions) && LetGo(w, After(w, actions), key)
  {
    actions := FinalizeIsARun(w, key, (kind: Kind) => true, (child: ChildKey) => Done, Done);
  }

  /** A pass may end, its Route be deleted and then finalized. */
  lemma DeleteWhole(w: World, key: RouteKey)
    returns (actions: seq<Action>)
    requires Holds(w, key)
    ensures AllMild(actions) && LetGo(w, After(w, actions), key)
  {
    EndAlone(w, key);
    var w1 := After(w, [End(key)]);
    DeleteAlone(w1, key);
    var w2 := After(w1, [Delete(key)]);
    var rest := FinalizeLetsGo(w2, key);
    AfterConcat(w, [End(key)], [Delete(key)]);
    AfterConcat(w, [End(key)] + [Delete(key)], rest);
    actions := [End(key)] + [Delete(key)] + rest;
  }

  /** One Route and its pass are as they were. */
  ghost predicate Same(w: World, after: World, key: RouteKey) {
    && (key in w.routes <==> key in after.routes) && (key in w.routes ==> after.routes[key] == w.routes[key])
    && (key in w.passes <==> key in after.passes) && (key in w.passes ==> after.passes[key] == w.passes[key])
  }

  lemma DeleteHolder(w: World, key: RouteKey, r: RouteKey, name: string, ns: string)
    returns (actions: seq<Action>)
    requires r in Holders(w, name, ns) - {key}
    ensures AllMild(actions) && Same(w, After(w, actions), key)
    ensures Holders(After(w, actions), name, ns) - {key} == Holders(w, name, ns) - {key} - {r}
  {
    actions := DeleteWhole(w, r);
    var after := After(w, actions);
    FewerHolders(w, after, r, name, ns);
    Elsewhere(w, after, r, key);
  }

  /** Every Route but `key` that answers for a name in a namespace can be deleted. */
  lemma {:induction false} DeleteHolders(w: World, key: RouteKey, name: string, ns: string)
    returns (actions: seq<Action>)
    ensures AllMild(actions)
    ensures var after := After(w, actions); Same(w, after, key) && Holders(after, name, ns) <= {key}
    decreases |Holders(w, name, ns) - {key}|
  {
    var holders := Holders(w, name, ns) - {key};
    if holders == {} {
      actions := [];
    } else {
      var r :| r in holders;
      var one := DeleteHolder(w, key, r, name, ns);
      var more := DeleteHolders(After(w, one), key, name, ns);
      AfterConcat(w, one, more);
      actions := one + more;
    }
  }

  /** A labelled object of the given name in a gateway namespace. */
  ghost predicate Present(w: World, name: string, ns: string) {
    exists k :: GatewayChild(w, k) && w.children[k].routeLabel == Some(name) && k.ns == ns
  }

  lemma PutPresent(w: World, key: RouteKey)
    requires key in w.passes && w.passes[key].Writing? && w.passes[key].ops != [] && GatewayPut(w.passes[key].ops[0])
    ensures var after := After(w, [Write(key, Done)]);
            after.routes == w.routes && Present(after, key.name, GatewayNs(w.passes[key].copy))
  {
    OneStep(w, Write(key, Done));
    var after := After(w, [Write(key, Done)]);
    var copy, op := w.passes[key].copy, w.passes[key].ops[0];
    var k := SlotKey(OwnerOf(key, copy.spec), op.slot);
    assert GatewayChild(after, k) && after.children[k].routeLabel == Some(key.name) && k.ns == GatewayNs(copy);
  }

  /** A pass that has gateway puts left can go on writing up to the first of them. */
  lemma {:induction false} WriteUntilPut(w: World, key: RouteKey, copy: Stored, ops: seq<Op>)
    returns (actions: seq<Action>)
    requires key in w.passes && w.passes[key] == Writing(copy, ops) && PutsLeft(w.passes[key])
    ensures AllMild(actions)
    ensures var after := After(w, actions);
            after.routes == w.routes && Present(after, key.name, GatewayNs(copy))
    decreases |ops|
  {
    if GatewayPut(ops[0]) {
      PutPresent(w, key);
      actions := [Write(key, Done)];
    } else {
      assert ops == [ops[0]] + ops[1..];
      var one := FirstWrite(w, key, copy, ops[0], ops[1..], Begin(w.children, 0), CALM);
      var next := After(w, one);
      var op :| op in ops && GatewayPut(op);
      assert op in ops[1..];
      var more := WriteUntilPut(next, key, copy, ops[1..]);
      AfterConcat(w, one, more);
      actions := one + more;
    }
  }

  /** A pass still writing to a gateway namespace its Route has left can leave an object nobody answers for. */
  lemma MisdirectedOrphans(w: World, key: RouteKey)
    returns (actions: seq<Action>)
    requires Base(w) && !SameGateway(w, key)
    ensures AllMild(actions) && !NoOrphan(After(w, actions))
  {
    var Writing(copy, ops) := w.passes[key];
    var ns := GatewayNs(copy);
    var clear := DeleteHolders(w, key, key.name, ns);
    var w1 := After(w, clear);
    var writes := WriteUntilPut(w1, key, copy, ops);
    var end := After(w1, writes);
    AfterConcat(w, clear, writes);
    actions := clear + writes;
    var k :| GatewayChild(end, k) && end.children[k].routeLabel == Some(key.name) && k.ns == ns;
    forall r
      ensures !Holder(end, r, key.name, ns)
    {
      assert Holder(w1, r, key.name, ns) ==> r in Holders(w1, key.name, ns);
    }
  }

  // ---------------------------------------------------------------- the safe states

  lemma SafeIsInv(w: World)
    requires Base(w) && Safe(w)
    ensures Inv(w)
  {
    forall key
      ensures SameGateway(w, key)
    {
      if !SameGateway(w, key) {
        var actions := MisdirectedOrphans(w, key);
        MildIsTame(w, actions);
        assert false;
      }
    }
    forall k
      ensures Shielded(w, k)
    {
      if !Shielded(w, k) {
        var actions := UnshieldedOrphans(w, k);
        MildIsTame(w, actions);
        assert false;
      }
    }
  }

  /**
   The invariant is not one of many: it holds exactly in the states from which no run that meets the
   hypotheses ever has an orphan.
   */
  lemma SafeExactly(w: World)
    requires Base(w)
    ensures Safe(w) <==> Inv(w)
  {
    if Safe(w) { SafeIsInv(w); }
    if Inv(w) { InvIsSafe(w); }
  }

  // ---------------------------------------------------------------- the hypotheses, one step at a time

  /** The Route is the only one that will take care of the object. */
  ghost predicate Alone(w: World, key: RouteKey, k: ChildKey) {
    GatewayChild(w, k) && Shields(w, key, k, w.children[k].routeLabel.value) &&
    forall r :: Shields(w, r, k, w.children[k].routeLabel.value) ==> r == key
  }

  /** Being alone means that nobody else shields the object. */
  lemma OtherShield(w: World, key: RouteKey, k: ChildKey)
    requires GatewayChild(w, k) && Shielded(w, k)
    ensures !Alone(w, key, k) <==> exists r :: r != key && Shields(w, r, k, w.children[k].routeLabel.value)
  {
    var r :| Shields(w, r, k, w.children[k].routeLabel.value);
  }

  /** What is shielded after a step that concerns one Route. */
  lemma ShieldedAfter(w: World, after: World, key: RouteKey, k: ChildKey)
    requires GatewayChild(w, k) && Shielded(w, k) && SameElsewhere(w, after, key) && after.children == w.children
    ensures Shielded(after, k) <==> (Alone(w, key, k) ==> Shields(after, key, k, w.children[k].routeLabel.value))
  {
    var name := w.children[k].routeLabel.value;
    OtherShield(w, key, k);
    forall r | r != key
      ensures Shields(after, r, k, name) <==> Shields(w, r, k, name)
    {
      Elsewhere(w, after, key, r);
    }
  }

  /** Every object that the Route alone takes care of it still takes care of. */
  ghost predicate KeepsShields(w: World, after: World, key: RouteKey) {
    forall k :: Alone(w, key, k) ==> Shields(after, key, k, w.children[k].routeLabel.value)
  }

  lemma SafeAfterExactly(w: World, after: World, key: RouteKey)
    requires Inv(w) && Base(after) && SameElsewhere(w, after, key) && after.children == w.children
    ensures Safe(after) <==> SameGateway(after, key) && KeepsShields(w, after, key)
  {
    SafeExactly(after);
    forall other | other != key
      ensures SameGateway(after, other)
    {
      Elsewhere(w, after, key, other);
      assert SameGateway(w, other);
    }
    forall k | GatewayChild(w, k)
      ensures Shielded(after, k) <==> (Alone(w, key, k) ==> Shields(after, key, k, w.children[k].routeLabel.value))
    {
      assert Shielded(w, k);
      ShieldedAfter(w, after, key, k);
    }
    if Inv(after) {
      forall k | Alone(w, key, k)
        ensures Shields(after, key, k, w.children[k].routeLabel.value)
      {
        assert Shielded(after, k);
      }
    }
  }

  /**
   From a state that a run meeting the hypotheses can reach, an edit never leads to an orphan exactly if
   it keeps the gateway namespace, or if the Route takes care of no object alone and no pass of it is still
   going to write to the namespace it leaves.
   */
  lemma EditHarmlessExactly(w: World, key: RouteKey, spec: Spec)
    requires Inv(w) && key in w.routes
    ensures Safe(Step(w, Edit(key, spec))) <==>
            || GatewayRef(spec).ns == GatewayNs(w.routes[key])
            || ((forall k :: !Alone(w, key, k)) && !(key in w.passes && PutsLeft(w.passes[key])))
  {
    var after := Step(w, Edit(key, spec));
    BaseUser(w, Edit(key, spec));
    assert SameElsewhere(w, after, key);
    SafeAfterExactly(w, after, key);
    assert SameGateway(w, key) && Guarded(w, key);
    assert key in w.passes ==> Stale(after, key);
    forall k | Alone(w, key, k)
      ensures Shields(after, key, k, w.children[k].routeLabel.value) <==>
              GatewayRef(spec).ns == GatewayNs(w.routes[key])
    {
    }
  }

  /**
   A list may fail exactly if the pass can no longer update its Route, or if the Route alone takes care of
   no object of the kind that is skipped.
   */
  lemma FailedListHarmlessExactly(w: World, key: RouteKey)
    requires Inv(w) && key in w.passes && w.passes[key].Cleaning?
    ensures Safe(Step(w, List(key, false))) <==>
            Stale(w, key) || forall k :: Alone(w, key, k) ==> k.kind in w.passes[key].todo[1..]
  {
    var after := Step(w, List(key, false));
    BaseList(w, key, false);
    assert SameElsewhere(w, after, key);
    SafeAfterExactly(w, after, key);
  }

  /**
   A delete may be refused exactly if the pass can no longer update its Route, or if the Route is not the only
   one to take care of the object, or comes to its kind again.
   */
  lemma RefusedDeleteHarmlessExactly(w: World, key: RouteKey, child: ChildKey)
    requires Inv(w) && key in w.passes && w.passes[key].Deleting? && child in w.passes[key].pending
    ensures Safe(Step(w, DeleteOne(key, child, Rejected))) <==>
            Stale(w, key) || !Alone(w, key, child) || child.kind in w.passes[key].todo
  {
    var after := Step(w, DeleteOne(key, child, Rejected));
    BaseDelete(w, key, child, Rejected);
    assert SameElsewhere(w, after, key);
    SafeAfterExactly(w, after, key);
  }
}
