/**
 Passes as runs of the protocol: the writes of a pass and the cleanup of a Route, specified as a
 whole elsewhere, are what the call-by-call protocol does when nobody comes in between.
 */
module PassRuns {
  import opened RouteApi
  import opened ChildNames
  import opened ChildPass
  import opened ChildWriter
  import opened Finalizer

  lemma {:induction false} AfterConcat(w: World, a: seq<Action>, b: seq<Action>)
    ensures After(w, a + b) == After(After(w, a), b)
  {
    if b == [] {
      assert a + b == a;
    } else {
      AfterConcat(w, a, b[..|b| - 1]);
      assert (a + b)[..|a + b| - 1] == a + b[..|b| - 1];
    }
  }

  /** Actions that are tame in whatever world: no edits, lists succeed, deletes take effect. */
  ghost predicate Mild(a: Action) {
    !a.Edit? && (a.List? ==> a.ok) && (a.DeleteOne? ==> a.outcome.Applied())
  }

  ghost predicate AllMild(actions: seq<Action>) {
    forall i :: 0 <= i < |actions| ==> Mild(actions[i])
  }

  lemma {:induction false} MildIsTame(w: World, actions: seq<Action>)
    requires AllMild(actions)
    ensures TameRun(w, actions)
  {
    if actions != [] {
      MildIsTame(w, actions[..|actions| - 1]);
    }
  }

  ghost predicate Effective(listOk: Kind -> bool, delete: ChildKey -> ApiOutcome) {
    (forall kind: Kind :: listOk(kind)) && (forall k: ChildKey :: delete(k).Applied())
  }

  lemma OneStep(w: World, a: Action)
    ensures After(w, [a]) == Step(w, a)
  {
    assert [a][..0] == [];
  }

  lemma SetPassTwice(w: World, key: RouteKey, p: Pass, children: Store, q: Pass)
    ensures SetPass(SetPass(w, key, p).(children := children), key, q) == SetPass(w.(children := children), key, q)
  {
    assert w.passes[key := p][key := q] == w.passes[key := q];
  }

  // ---------------------------------------------------------------- the writes of a pass

  lemma RunHead(owner: Owner, st: PassState, ops: seq<Op>, oracle: Oracle)
    requires ops != []
    ensures Run(owner, st, ops, oracle) == Run(owner, ChildPass.Exec(owner, st, ops[0], oracle), ops[1..], oracle)
  {
    assert ops == [ops[0]] + ops[1..];
    RunConcat(owner, st, [ops[0]], ops[1..], oracle);
    assert [ops[0]][..0] == [];
  }

  lemma DropStep(w: World, key: RouteKey, copy: Stored, slots: seq<Slot>, rest: seq<Op>, outcome: ApiOutcome)
    requires key in w.passes && w.passes[key] == Writing(copy, [Drop(slots)] + rest)
    ensures slots == [] ==> Step(w, Write(key, outcome)) == SetPass(w, key, Writing(copy, rest))
    ensures slots != [] ==>
              var gone := {SlotKey(OwnerOf(key, copy.spec), slots[0])};
              var children := if outcome.Applied() then w.children - gone else w.children;
              Step(w, Write(key, outcome)) ==
              SetPass(w.(children := children), key,
                      Writing(copy, if outcome.Done? then [Drop(slots[1..])] + rest else rest))
  {
    assert ([Drop(slots)] + rest)[1..] == rest;
  }

  lemma DropHead(owner: Owner, st: PassState, slots: seq<Slot>, oracle: Oracle)
    requires slots != []
    ensures var outcome := oracle(st.calls);
            var gone := if outcome.Applied() then st.children - {SlotKey(owner, slots[0])} else st.children;
            ExecDrop(owner, st, slots, oracle).children ==
            if outcome.Done?
            then ExecDrop(owner, st.(children := gone, calls := st.calls + 1), slots[1..], oracle).children
            else gone
  {
  }

  /** The deletes of one write, as steps of the protocol. */
  lemma {:induction false} DropIsARun(w: World, key: RouteKey, copy: Stored, slots: seq<Slot>, rest: seq<Op>,
                                      st: PassState, oracle: Oracle)
    returns (actions: seq<Action>)
    requires key in w.passes && w.passes[key] == Writing(copy, [Drop(slots)] + rest) && w.children == st.children
    ensures After(w, actions) ==
            SetPass(w.(children := ExecDrop(OwnerOf(key, copy.spec), st, slots, oracle).children), key,
                    Writing(copy, rest))
    ensures AllMild(actions)
    decreases |slots|
  {
    var owner, outcome := OwnerOf(key, copy.spec), oracle(st.calls);
    DropStep(w, key, copy, slots, rest, outcome);
    OneStep(w, Write(key, outcome));
    actions := [Write(key, outcome)];
    if slots != [] {
      DropHead(owner, st, slots, oracle);
      if outcome.Done? {
        var next := st.(children := st.children - {SlotKey(owner, slots[0])}, calls := st.calls + 1);
        var w1 := SetPass(w.(children := next.children), key, Writing(copy, [Drop(slots[1..])] + rest));
        var more := DropIsARun(w1, key, copy, slots[1..], rest, next, oracle);
        AfterConcat(w, actions, more);
        actions := actions + more;
        SetPassTwice(w.(children := next.children), key, w1.passes[key],
                     ExecDrop(owner, next, slots[1..], oracle).children, Writing(copy, rest));
      }
    }
  }

  /** The steps that carry out the first write of a pass. */
  lemma FirstWrite(w: World, key: RouteKey, copy: Stored, op: Op, rest: seq<Op>, st: PassState, oracle: Oracle)
    returns (actions: seq<Action>)
    requires key in w.passes && w.passes[key] == Writing(copy, [op] + rest) && w.children == st.children
    ensures After(w, actions) ==
            SetPass(w.(children := ChildPass.Exec(OwnerOf(key, copy.spec), st, op, oracle).children), key,
                    Writing(copy, rest))
    ensures AllMild(actions)
  {
    assert ([op] + rest)[1..] == rest;
    match op
    case Put(_, _) =>
      actions := [Write(key, if oracle(st.calls).Done? then oracle(st.calls + 1) else Rejected)];
      OneStep(w, actions[0]);
    case Invalid(_) =>
      actions := [Write(key, Done)];
      OneStep(w, actions[0]);
    case Drop(slots) =>
      actions := DropIsARun(w, key, copy, slots, rest, st, oracle);
  }

  /**
   A pass that nobody disturbs is a run of the protocol: its writes, taken call by call, change the
   store exactly as the specified pass does, and leave Routes and other passes alone.
   */
  lemma {:induction false} PassIsARun(w: World, key: RouteKey, copy: Stored, ops: seq<Op>, st: PassState,
                                      oracle: Oracle)
    returns (actions: seq<Action>)
    requires key in w.passes && w.passes[key] == Writing(copy, ops) && w.children == st.children
    ensures After(w, actions) ==
            SetPass(w.(children := Run(OwnerOf(key, copy.spec), st, ops, oracle).children), key, Writing(copy, []))
    ensures AllMild(actions)
    decreases |ops|
  {
    var owner := OwnerOf(key, copy.spec);
    if ops == [] {
      actions := [];
    } else {
      RunHead(owner, st, ops, oracle);
      assert ops == [ops[0]] + ops[1..];
      var next := ChildPass.Exec(owner, st, ops[0], oracle);
      var first := FirstWrite(w, key, copy, ops[0], ops[1..], st, oracle);
      var w1 := SetPass(w.(children := next.children), key, Writing(copy, ops[1..]));
      var more := PassIsARun(w1, key, copy, ops[1..], next, oracle);
      AfterConcat(w, first, more);
      actions := first + more;
      SetPassTwice(w.(children := next.children), key, Writing(copy, ops[1..]),
                   Run(owner, next, ops[1..], oracle).children, Writing(copy, []));
    }
  }

  // ---------------------------------------------------------------- the cleanup of a Route

  function Without(children: Store, items: set<ChildKey>, delete: ChildKey -> ApiOutcome): Store {
    map k | k in children && !(k in items && delete(k).Applied()) :: children[k]
  }

  lemma {:induction false} DeletesAreARun(w: World, key: RouteKey, copy: Stored, kind: Kind, pending: set<ChildKey>,
                                         todo: seq<Kind>, delete: ChildKey -> ApiOutcome)
    returns (actions: seq<Action>)
    requires key in w.passes && w.passes[key] == Deleting(copy, kind, pending, todo) && pending != {}
    ensures After(w, actions) ==
            SetPass(w.(children := Without(w.children, pending, delete)), key, NextKind(copy, todo))
    ensures (forall k: ChildKey :: delete(k).Applied()) ==> AllMild(actions)
    decreases |pending|
  {
    var child :| child in pending;
    var left := pending - {child};
    var gone := if delete(child).Applied() then w.children - {child} else w.children;
    var a := DeleteOne(key, child, delete(child));
    OneStep(w, a);
    actions := [a];
    assert Without(gone, left, delete) == Without(w.children, pending, delete);
    if left == {} {
      assert gone == Without(w.children, pending, delete);
    } else {
      var w1 := SetPass(w.(children := gone), key, Deleting(copy, kind, left, todo));
      var more := DeletesAreARun(w1, key, copy, kind, left, todo, delete);
      AfterConcat(w, actions, more);
      actions := actions + more;
      SetPassTwice(w.(children := gone), key, w1.passes[key], Without(gone, left, delete), NextKind(copy, todo));
    }
  }

  /** The objects of one kind that a cleanup lists, none of them if the list fails. */
  function ListedItems(children: Store, name: string, ns: string, kind: Kind, ok: bool): set<ChildKey> {
    if ok then set k | k in children && Listed(children, name, ns, kind, k) else {}
  }

  lemma KindIsARun(w: World, key: RouteKey, copy: Stored, todo: seq<Kind>, listOk: Kind -> bool,
                   delete: ChildKey -> ApiOutcome)
    returns (actions: seq<Action>)
    requires key in w.passes && w.passes[key] == Cleaning(copy, todo) && todo != []
    ensures var items := ListedItems(w.children, key.name, GatewayNs(copy), todo[0], listOk(todo[0]));
            After(w, actions) ==
              SetPass(w.(children := Without(w.children, items, delete)), key, NextKind(copy, todo[1..]))
    ensures Effective(listOk, delete) ==> AllMild(actions)
  {
    var items := ListedItems(w.children, key.name, GatewayNs(copy), todo[0], listOk(todo[0]));
    var a := List(key, listOk(todo[0]));
    OneStep(w, a);
    actions := [a];
    if items == {} {
      assert Without(w.children, items, delete) == w.children;
      assert Step(w, a) == SetPass(w, key, NextKind(copy, todo[1..]));
    } else {
      var w1 := SetPass(w, key, Deleting(copy, todo[0], items, todo[1..]));
      assert Step(w, a) == w1;
      var more := DeletesAreARun(w1, key, copy, todo[0], items, todo[1..], delete);
      AfterConcat(w, actions, more);
      actions := actions + more;
      SetPassTwice(w, key, w1.passes[key], Without(w.children, items, delete), NextKind(copy, todo[1..]));
    }
  }

  lemma TornNext(was: Store, name: string, ns: string, listOk: Kind -> bool, delete: ChildKey -> ApiOutcome,
                 swept: seq<Kind>, kind: Kind)
    requires kind !in swept
    ensures var children := Torn(was, name, ns, listOk, delete, swept);
            Without(children, ListedItems(children, name, ns, kind, listOk(kind)), delete) ==
            Torn(was, name, ns, listOk, delete, swept + [kind])
  {
  }

  lemma NextSwept(swept: seq<Kind>, todo: seq<Kind>)
    requires todo != [] && swept + todo == CLEANUP_KINDS
    ensures todo[0] !in swept && swept + [todo[0]] + todo[1..] == CLEANUP_KINDS
  {
    assert todo[0] == CLEANUP_KINDS[|swept|] && swept == CLEANUP_KINDS[..|swept|];
  }

  /** The rest of a cleanup, after the kinds `swept`. */
  lemma {:induction false} KindsAreARun(w: World, key: RouteKey, copy: Stored, was: Store, swept: seq<Kind>,
                                       todo: seq<Kind>, listOk: Kind -> bool, delete: ChildKey -> ApiOutcome)
    returns (actions: seq<Action>)
    requires key in w.passes && w.passes[key] == NextKind(copy, todo) && swept + todo == CLEANUP_KINDS
    requires w.children == Torn(was, key.name, GatewayNs(copy), listOk, delete, swept)
    ensures After(w, actions) ==
            SetPass(w.(children := Torn(was, key.name, GatewayNs(copy), listOk, delete, CLEANUP_KINDS)), key,
                    Releasing(copy))
    ensures Effective(listOk, delete) ==> AllMild(actions)
    decreases |todo|
  {
    if todo == [] {
      assert swept == CLEANUP_KINDS;
      actions := [];
    } else {
      NextSwept(swept, todo);
      TornNext(was, key.name, GatewayNs(copy), listOk, delete, swept, todo[0]);
      var children := Torn(was, key.name, GatewayNs(copy), listOk, delete, swept + [todo[0]]);
      var w1 := SetPass(w.(children := children), key, NextKind(copy, todo[1..]));
      var first := OneKind(w, key, copy, todo, children, listOk, delete);
      var more := KindsAreARun(w1, key, copy, was, swept + [todo[0]], todo[1..], listOk, delete);
      AfterConcat(w, first, more);
      actions := first + more;
      SetPassTwice(w.(children := children), key, w1.passes[key],
                   Torn(was, key.name, GatewayNs(copy), listOk, delete, CLEANUP_KINDS), Releasing(copy));
    }
  }

  lemma OneKind(w: World, key: RouteKey, copy: Stored, todo: seq<Kind>, children: Store, listOk: Kind -> bool,
                delete: ChildKey -> ApiOutcome)
    returns (actions: seq<Action>)
    requires todo != [] && key in w.passes && w.passes[key] == NextKind(copy, todo)
    requires children ==
             Without(w.children, ListedItems(w.children, key.name, GatewayNs(copy), todo[0], listOk(todo[0])), delete)
    ensures After(w, actions) == SetPass(w.(children := children), key, NextKind(copy, todo[1..]))
    ensures Effective(listOk, delete) ==> AllMild(actions)
  {
    actions := KindIsARun(w, key, copy, todo, listOk, delete);
  }

  /** The Route and its objects after an undisturbed deletion pass. */
  function Finalized(w: World, key: RouteKey, listOk: Kind -> bool, delete: ChildKey -> ApiOutcome,
                     outcome: ApiOutcome): World
    requires key in w.routes
  {
    var torn := w.(children := Teardown(w.children, key.name, GatewayNs(w.routes[key]), listOk, delete));
    if outcome.Applied() then StoreOrDrop(torn, key, w.routes[key].(held := false)) else torn
  }

  /**
   A deletion pass that nobody disturbs is a run of the protocol: start, list and delete kind by kind,
   take the finalizer off.
   */
  lemma FinalizeIsARun(w: World, key: RouteKey, listOk: Kind -> bool, delete: ChildKey -> ApiOutcome,
                       outcome: ApiOutcome)
    returns (actions: seq<Action>)
    requires key in w.routes && key !in w.passes && w.routes[key].deleting && w.routes[key].held
    ensures After(w, actions) == Finalized(w, key, listOk, delete, outcome)
    ensures Effective(listOk, delete) ==> AllMild(actions)
  {
    var copy := w.routes[key];
    OneStep(w, Start(key, false));
    var w1 := SetPass(w, key, Cleaning(copy, CLEANUP_KINDS));
    assert Step(w, Start(key, false)) == w1;
    TornIsTeardown(w.children, key.name, GatewayNs(copy), listOk, delete);
    assert [] + CLEANUP_KINDS == CLEANUP_KINDS;
    var clean := KindsAreARun(w1, key, copy, w.children, [], CLEANUP_KINDS, listOk, delete);
    var torn := w.(children := Teardown(w.children, key.name, GatewayNs(copy), listOk, delete));
    var w2 := SetPass(torn, key, Releasing(copy));
    SetPassTwice(w, key, w1.passes[key], torn.children, Releasing(copy));
    assert After(w1, clean) == w2;
    OneStep(w2, Release(key, outcome));
    ReleaseAlone(torn, key, copy, outcome);
    AfterConcat(w, [Start(key, false)], clean);
    AfterConcat(w, [Start(key, false)] + clean, [Release(key, outcome)]);
    actions := [Start(key, false)] + clean + [Release(key, outcome)];
  }

  lemma ReleaseAlone(torn: World, key: RouteKey, copy: Stored, outcome: ApiOutcome)
    requires key in torn.routes && torn.routes[key] == copy && key !in torn.passes
    ensures Step(SetPass(torn, key, Releasing(copy)), Release(key, outcome)) ==
            if outcome.Applied() then StoreOrDrop(torn, key, copy.(held := false)) else torn
  {
    assert torn.passes[key := Releasing(copy)] - {key} == torn.passes;
  }

  // ---------------------------------------------------------------- a whole pass over a live Route

  /** The Route as the pass works on it: with the finalizer, added first where it was missing. */
  function Held(w: World, key: RouteKey): World
    requires key in w.routes
  {
    if w.routes[key].held then w else Finalizer.Put(w, key, w.routes[key].(held := true))
  }

  /** The finalizer is there: the pass writes at once. */
  lemma StartHeld(w: World, key: RouteKey, rollback: bool)
    requires key in w.routes && key !in w.passes && !w.routes[key].deleting && w.routes[key].held
    ensures After(w, [Start(key, rollback)]) ==
            SetPass(w, key, Writing(w.routes[key], WritesOf(key, w.routes[key], rollback)))
  {
    OneStep(w, Start(key, rollback));
  }

  lemma StartPlain(w: World, key: RouteKey, rollback: bool)
    requires key in w.routes && key !in w.passes && !w.routes[key].deleting && !w.routes[key].held
    ensures After(w, [Start(key, rollback)]) == SetPass(w, key, Adding(w.routes[key]))
  {
    OneStep(w, Start(key, rollback));
  }

  /** The finalizer is missing: it is added first. */
  lemma AddPlain(w: World, key: RouteKey, rollback: bool)
    requires key in w.routes && key !in w.passes && !w.routes[key].deleting && !w.routes[key].held
    ensures var h := Held(w, key);
            After(SetPass(w, key, Adding(w.routes[key])), [AddFinalizer(key, rollback, Done)]) ==
            SetPass(h, key, Writing(h.routes[key], WritesOf(key, w.routes[key], rollback)))
  {
    var w1 := SetPass(w, key, Adding(w.routes[key]));
    var add := AddFinalizer(key, rollback, Done);
    OneStep(w1, add);
    var h := Held(w, key);
    SetPassTwice(h, key, Adding(w.routes[key]), h.children,
                 Writing(h.routes[key], WritesOf(key, w.routes[key], rollback)));
  }

  lemma WritesAndEnd(h: World, key: RouteKey, copy: Stored, ops: seq<Op>, calls: nat, oracle: Oracle)
    returns (actions: seq<Action>)
    requires key !in h.passes
    ensures After(SetPass(h, key, Writing(copy, ops)), actions) ==
            h.(children := Run(OwnerOf(key, copy.spec), Begin(h.children, calls), ops, oracle).children)
    ensures AllMild(actions)
  {
    var w1 := SetPass(h, key, Writing(copy, ops));
    var writes := PassIsARun(w1, key, copy, ops, Begin(h.children, calls), oracle);
    var end := Run(OwnerOf(key, copy.spec), Begin(h.children, calls), ops, oracle).children;
    var w2 := SetPass(h.(children := end), key, Writing(copy, []));
    SetPassTwice(h, key, w1.passes[key], end, Writing(copy, []));
    assert After(w1, writes) == w2;
    OneStep(w2, End(key));
    assert h.passes[key := Writing(copy, [])] - {key} == h.passes;
    AfterConcat(w1, writes, [End(key)]);
    actions := writes + [End(key)];
  }

  /**
   A pass over a live Route that nobody disturbs is a run of the protocol: start, add the finalizer if
   it is missing, write the children call by call, end.
   */
  lemma ServeIsARun(w: World, key: RouteKey, rollback: bool, calls: nat, oracle: Oracle)
    returns (actions: seq<Action>)
    requires key in w.routes && key !in w.passes && !w.routes[key].deleting
    ensures var spec := w.routes[key].spec;
            var canary := if rollback then None else spec.canary;
            After(w, actions) ==
            Held(w, key).(children :=
              Run(OwnerOf(key, spec), Begin(w.children, calls), PassOps(key, spec, canary), oracle).children)
    ensures AllMild(actions)
  {
    var h, ops := Held(w, key), WritesOf(key, w.routes[key], rollback);
    var writes := WritesAndEnd(h, key, h.routes[key], ops, calls, oracle);
    if w.routes[key].held {
      StartHeld(w, key, rollback);
      AfterConcat(w, [Start(key, rollback)], writes);
      actions := [Start(key, rollback)] + writes;
    } else {
      StartPlain(w, key, rollback);
      AddPlain(w, key, rollback);
      AfterConcat(w, [Start(key, rollback)], [AddFinalizer(key, rollback, Done)]);
      AfterConcat(w, [Start(key, rollback)] + [AddFinalizer(key, rollback, Done)], writes);
      actions := [Start(key, rollback)] + [AddFinalizer(key, rollback, Done)] + writes;
    }
  }
}
