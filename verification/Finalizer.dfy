/**
 The finalizer protocol, one API call at a time. Users create, edit and delete Routes between any
 two calls; passes of different Routes run side by side, passes of one Route one after the other;
 any pass may end early. Objects in a gateway namespace must not outlive the Routes they serve.
 */
module Finalizer {
  import opened RouteApi
  import opened ChildNames
  import opened ChildPass
  import opened ChildWriter

  /** A stored Route; `rv` is the resource version that guards updates. */
  datatype Stored = Stored(rv: nat, spec: Spec, deleting: bool, held: bool, foreign: bool)

  /** Where a pass stands. `copy` is the Route as it was last read or returned by the server. */
  datatype Pass =
    | Adding(copy: Stored)
    | Writing(copy: Stored, ops: seq<Op>)
    | Cleaning(copy: Stored, todo: seq<Kind>)
    | Deleting(copy: Stored, kind: Kind, pending: set<ChildKey>, todo: seq<Kind>)
    | Releasing(copy: Stored)

  datatype World = World(clock: nat, routes: map<RouteKey, Stored>, children: Store, passes: map<RouteKey, Pass>)

  const EMPTY_WORLD := World(0, map[], map[], map[])

  datatype Action =
    // users, and other controllers' finalizers
    | Create(key: RouteKey, spec: Spec)
    | Edit(key: RouteKey, spec: Spec)
    | Delete(key: RouteKey)
    | AddForeign(key: RouteKey)
    | RemoveForeign(key: RouteKey)
    // the controller
    | Start(key: RouteKey, rollback: bool)
    | AddFinalizer(key: RouteKey, rollback: bool, outcome: ApiOutcome)
    | Write(key: RouteKey, outcome: ApiOutcome)
    | List(key: RouteKey, ok: bool)
    | DeleteOne(key: RouteKey, child: ChildKey, outcome: ApiOutcome)
    | Release(key: RouteKey, outcome: ApiOutcome)
    | End(key: RouteKey)   // an error return, a closed gate, the last write, or a crash

  function GatewayNs(r: Stored): string {
    GatewayRef(r.spec).ns
  }

  // ---------------------------------------------------------------- steps

  function Put(w: World, key: RouteKey, r: Stored): World {
    w.(clock := w.clock + 1, routes := w.routes[key := r.(rv := w.clock)])
  }

  function EndPass(w: World, key: RouteKey): World {
    w.(passes := w.passes - {key})
  }

  function SetPass(w: World, key: RouteKey, p: Pass): World {
    w.(passes := w.passes[key := p])
  }

  function WritesOf(key: RouteKey, copy: Stored, rollback: bool): seq<Op> {
    PassOps(key, copy.spec, if rollback then None else copy.spec.canary)
  }

  /** The server stores a Route, or drops it once it is being deleted and nothing holds it. */
  function StoreOrDrop(w: World, key: RouteKey, r: Stored): World {
    if r.deleting && !r.held && !r.foreign then w.(clock := w.clock + 1, routes := w.routes - {key})
    else Put(w, key, r)
  }

  function StepUser(w: World, a: Action): World {
    match a
    case Create(key, spec) =>
      if key in w.routes then w else Put(w, key, Stored(0, spec, false, false, false))
    case Edit(key, spec) =>
      if key !in w.routes then w else Put(w, key, w.routes[key].(spec := spec))
    case Delete(key) =>
      if key !in w.routes then w else StoreOrDrop(w, key, w.routes[key].(deleting := true))
    case AddForeign(key) =>
      if key !in w.routes || w.routes[key].deleting then w else Put(w, key, w.routes[key].(foreign := true))
    case RemoveForeign(key) =>
      if key !in w.routes then w else StoreOrDrop(w, key, w.routes[key].(foreign := false))
    case _ => w
  }

  function StepStart(w: World, key: RouteKey, rollback: bool): World {
    if key in w.passes || key !in w.routes then w
    else
      var copy := w.routes[key];
      if copy.deleting then
        if copy.held then SetPass(w, key, Cleaning(copy, CLEANUP_KINDS)) else w
      else if copy.held then SetPass(w, key, Writing(copy, WritesOf(key, copy, rollback)))
      else SetPass(w, key, Adding(copy))
  }

  /** An update replaces the stored Route only if its resource version is still the one read. */
  predicate UpdateApplies(w: World, key: RouteKey, copy: Stored, outcome: ApiOutcome) {
    outcome.Applied() && key in w.routes && w.routes[key].rv == copy.rv
  }

  function StepAdd(w: World, key: RouteKey, rollback: bool, outcome: ApiOutcome): World {
    if key !in w.passes || !w.passes[key].Adding? then w
    else
      var copy := w.passes[key].copy;
      if !UpdateApplies(w, key, copy, outcome) then EndPass(w, key)
      else
        var updated := Put(w, key, copy.(held := true));
        if outcome.Done?
        then SetPass(updated, key, Writing(updated.routes[key], WritesOf(key, copy, rollback)))
        else EndPass(updated, key)
  }

  function StepWrite(w: World, key: RouteKey, outcome: ApiOutcome): World {
    if key !in w.passes || !w.passes[key].Writing? || w.passes[key].ops == [] then w
    else
      var Writing(copy, ops) := w.passes[key];
      var owner := OwnerOf(key, copy.spec);
      match ops[0]
      case Put(slot, body) =>
        var children := if outcome.Applied()
                        then w.children[SlotKey(owner, slot) := MakeChild(owner, slot, body)]
                        else w.children;
        SetPass(w.(children := children), key, Writing(copy, ops[1..]))
      case Invalid(_) => SetPass(w, key, Writing(copy, ops[1..]))
      case Drop(slots) =>
        if slots == [] then SetPass(w, key, Writing(copy, ops[1..]))
        else
          var children := if outcome.Applied() then w.children - {SlotKey(owner, slots[0])} else w.children;
          var rest := if outcome.Done? then [Drop(slots[1..])] + ops[1..] else ops[1..];
          SetPass(w.(children := children), key, Writing(copy, rest))
  }

  function NextKind(copy: Stored, todo: seq<Kind>): Pass {
    if todo == [] then Releasing(copy) else Cleaning(copy, todo)
  }

  function StepList(w: World, key: RouteKey, ok: bool): World {
    if key !in w.passes || !w.passes[key].Cleaning? || w.passes[key].todo == [] then w
    else
      var Cleaning(copy, todo) := w.passes[key];
      if ok then
        var pending := set k | k in w.children && Listed(w.children, key.name, GatewayNs(copy), todo[0], k);
        SetPass(w, key, if pending == {} then NextKind(copy, todo[1..])
                else Deleting(copy, todo[0], pending, todo[1..]))
      else SetPass(w, key, NextKind(copy, todo[1..]))
  }

  function StepDelete(w: World, key: RouteKey, child: ChildKey, outcome: ApiOutcome): World {
    if key !in w.passes || !w.passes[key].Deleting? || child !in w.passes[key].pending then w
    else
      var Deleting(copy, kind, pending, todo) := w.passes[key];
      var left := pending - {child};
      var children := if outcome.Applied() then w.children - {child} else w.children;
      SetPass(w.(children := children), key,
              if left == {} then NextKind(copy, todo) else Deleting(copy, kind, left, todo))
  }

  function StepRelease(w: World, key: RouteKey, outcome: ApiOutcome): World {
    if key !in w.passes || !w.passes[key].Releasing? then w
    else
      var copy := w.passes[key].copy;
      EndPass(if UpdateApplies(w, key, copy, outcome) then StoreOrDrop(w, key, copy.(held := false)) else w, key)
  }

  function Step(w: World, a: Action): World {
    match a
    case Start(key, rollback) => StepStart(w, key, rollback)
    case AddFinalizer(key, rollback, outcome) => StepAdd(w, key, rollback, outcome)
    case Write(key, outcome) => StepWrite(w, key, outcome)
    case List(key, ok) => StepList(w, key, ok)
    case DeleteOne(key, child, outcome) => StepDelete(w, key, child, outcome)
    case Release(key, outcome) => StepRelease(w, key, outcome)
    case End(key) => EndPass(w, key)
    case _ => StepUser(w, a)
  }

  function After(w: World, actions: seq<Action>): World {
    if actions == [] then w else Step(After(w, actions[..|actions| - 1]), actions[|actions| - 1])
  }

  // ---------------------------------------------------------------- safety

  /** A Route that answers for the objects labelled with its name in one gateway namespace. */
  ghost predicate Holder(w: World, r: RouteKey, name: string, ns: string) {
    r in w.routes && r.name == name && w.routes[r].held && GatewayNs(w.routes[r]) == ns
  }

  ghost predicate GatewayChild(w: World, k: ChildKey) {
    k in w.children && !Owned(k.kind) && w.children[k].routeLabel.Some?
  }

  /** No orphans: every labelled object in a gateway namespace has a stored Route holding its finalizer. */
  ghost predicate NoOrphan(w: World) {
    forall k :: GatewayChild(w, k) ==> exists r :: Holder(w, r, w.children[k].routeLabel.value, k.ns)
  }

  /** The hypotheses: gateway namespaces are never edited, and cleanup's list and delete calls take effect. */
  ghost predicate Tame(w: World, a: Action) {
    match a
    case Edit(key, spec) => key in w.routes ==> GatewayRef(spec).ns == GatewayNs(w.routes[key])
    case List(_, ok) => ok
    case DeleteOne(_, _, outcome) => outcome.Applied()
    case _ => true
  }

  ghost predicate TameRun(w: World, actions: seq<Action>) {
    actions != [] ==>
      TameRun(w, actions[..|actions| - 1]) &&
      Tame(After(w, actions[..|actions| - 1]), actions[|actions| - 1])
  }

  // ---------------------------------------------------------------- invariant, without hypotheses

  /** A pass that may write or clean up has its Route stored with the finalizer. */
  ghost predicate Guarded(w: World, key: RouteKey) {
    key in w.passes && !w.passes[key].Adding? ==>
      key in w.routes && w.routes[key].held && (!w.passes[key].Writing? ==> w.routes[key].deleting)
  }

  /** Resource versions tell states of a Route apart. */
  ghost predicate Versioned(w: World) {
    && (forall key :: key in w.routes ==> w.routes[key].rv < w.clock)
    && (forall key :: key in w.passes ==> w.passes[key].copy.rv < w.clock)
    && (forall key :: key in w.passes && key in w.routes && w.routes[key].rv == w.passes[key].copy.rv ==>
          w.routes[key] == w.passes[key].copy)
  }

  ghost predicate Base(w: World) {
    && Versioned(w)
    && (forall key :: Guarded(w, key))
    && (forall key :: key in w.passes && w.passes[key].Adding? ==> !w.passes[key].copy.deleting)
    && (forall key :: key in w.passes ==> Underway(w.passes[key]))
  }

  /** A cleanup has something left to list, or to delete. */
  ghost predicate Underway(p: Pass) {
    (p.Cleaning? ==> p.todo != []) && (p.Deleting? ==> p.pending != {})
  }

  /** A pass moves on to `p` and the children change to `children`; Routes stay as they are. */
  function Move(w: World, children: Store, key: RouteKey, p: Pass): World {
    World(w.clock, w.routes, children, w.passes[key := p])
  }

  lemma BaseMove(w: World, children: Store, key: RouteKey, p: Pass)
    requires Base(w)
    requires p.copy.rv < w.clock
    requires key in w.routes && w.routes[key].rv == p.copy.rv ==> w.routes[key] == p.copy
    requires if p.Adding? then !p.copy.deleting
             else key in w.routes && w.routes[key].held && (!p.Writing? ==> w.routes[key].deleting)
    requires Underway(p)
    ensures Base(Move(w, children, key, p))
  {
    var after := Move(w, children, key, p);
    forall other
      ensures Guarded(after, other)
    {
      assert Guarded(w, other);
    }
  }

  lemma BaseEnd(w: World, key: RouteKey)
    requires Base(w)
    ensures Base(EndPass(w, key))
  {
    forall other
      ensures Guarded(EndPass(w, key), other)
    {
      assert Guarded(w, other);
    }
  }

  /** A user action leaves the passes alone, and changes one Route only by giving it a new version. */
  lemma UserAction(w: World, a: Action)
    ensures var after := StepUser(w, a);
            && after.passes == w.passes && after.children == w.children && after.clock >= w.clock
            && (forall key :: Holds(w, key) ==> Holds(after, key))
            && (forall key :: key in after.routes ==>
                  || (key in w.routes && after.routes[key] == w.routes[key])
                  || (w.clock <= after.routes[key].rv < after.clock))
            && (forall key :: key in w.routes && key in after.routes && w.routes[key].deleting ==>
                after.routes[key].deleting)
  {
  }

  lemma BaseUser(w: World, a: Action)
    requires Base(w)
    ensures Base(StepUser(w, a))
  {
    UserAction(w, a);
    var after := StepUser(w, a);
    forall key
      ensures Guarded(after, key)
    {
      assert Guarded(w, key);
      if Holds(w, key) { assert Holds(after, key); }
    }
  }

  lemma BaseStart(w: World, key: RouteKey, rollback: bool)
    requires Base(w)
    ensures Base(StepStart(w, key, rollback))
  {
    if key !in w.passes && key in w.routes {
      var after := StepStart(w, key, rollback);
      if key in after.passes {
        BaseMove(w, w.children, key, after.passes[key]);
        assert after == Move(w, w.children, key, after.passes[key]);
      }
    }
  }

  /** The world right after the finalizer was stored, with the pass taken out of it. */
  lemma BaseStored(w: World, key: RouteKey, copy: Stored)
    requires Base(w)
    ensures Base(EndPass(Put(w, key, copy.(held := true)), key))
  {
    BaseEnd(w, key);
    BasePut(EndPass(w, key), key, copy.(held := true));
    assert EndPass(Put(w, key, copy.(held := true)), key) == Put(EndPass(w, key), key, copy.(held := true));
  }

  /** The pass goes on to write. */
  lemma BaseResume(ended: World, key: RouteKey, ops: seq<Op>)
    requires Base(ended) && key in ended.routes && ended.routes[key].held
    ensures Base(Move(ended, ended.children, key, Writing(ended.routes[key], ops)))
  {
    BaseMove(ended, ended.children, key, Writing(ended.routes[key], ops));
  }

  lemma BaseAdd(w: World, key: RouteKey, rollback: bool, outcome: ApiOutcome)
    requires Base(w)
    ensures Base(StepAdd(w, key, rollback, outcome))
  {
    if key in w.passes && w.passes[key].Adding? {
      var copy := w.passes[key].copy;
      if !UpdateApplies(w, key, copy, outcome) {
        BaseEnd(w, key);
      } else {
        BaseStored(w, key, copy);
        var updated := Put(w, key, copy.(held := true));
        var ended, ops := EndPass(updated, key), WritesOf(key, copy, rollback);
        if outcome.Done? {
          BaseResume(ended, key, ops);
          assert StepAdd(w, key, rollback, outcome) == Move(ended, w.children, key, Writing(updated.routes[key], ops));
        }
      }
    }
  }

  lemma BasePut(w: World, key: RouteKey, r: Stored)
    requires Base(w) && key !in w.passes
    ensures Base(Put(w, key, r))
  {
    forall other
      ensures Guarded(Put(w, key, r), other)
    {
      assert Guarded(w, other);
    }
  }

  /** A step inside a pass keeps its copy and its side of the finalizer. */
  lemma BaseWithin(w: World, after: World, key: RouteKey, p: Pass)
    requires Base(w) && key in w.passes && p.copy == w.passes[key].copy && after == Move(w, after.children, key, p)
    requires !p.Adding? && !w.passes[key].Adding? && (p.Writing? <==> w.passes[key].Writing?) && Underway(p)
    ensures Base(after)
  {
    assert Guarded(w, key);
    BaseMove(w, after.children, key, p);
  }

  lemma BaseWrite(w: World, key: RouteKey, outcome: ApiOutcome)
    requires Base(w)
    ensures Base(StepWrite(w, key, outcome))
  {
    var after := StepWrite(w, key, outcome);
    if after != w { BaseWithin(w, after, key, after.passes[key]); }
  }

  lemma BaseList(w: World, key: RouteKey, ok: bool)
    requires Base(w)
    ensures Base(StepList(w, key, ok))
  {
    var after := StepList(w, key, ok);
    if after != w { BaseWithin(w, after, key, after.passes[key]); }
  }

  lemma BaseDelete(w: World, key: RouteKey, child: ChildKey, outcome: ApiOutcome)
    requires Base(w)
    ensures Base(StepDelete(w, key, child, outcome))
  {
    var after := StepDelete(w, key, child, outcome);
    if after != w { BaseWithin(w, after, key, after.passes[key]); }
  }

  lemma BaseRelease(w: World, key: RouteKey, outcome: ApiOutcome)
    requires Base(w)
    ensures Base(StepRelease(w, key, outcome))
  {
    var after := StepRelease(w, key, outcome);
    forall other
      ensures Guarded(after, other)
    {
      assert Guarded(w, other);
    }
  }

  lemma BaseStep(w: World, a: Action)
    requires Base(w)
    ensures Base(Step(w, a))
  {
    match a
    case Start(key, rollback) => BaseStart(w, key, rollback);
    case AddFinalizer(key, rollback, outcome) => BaseAdd(w, key, rollback, outcome);
    case Write(key, outcome) => BaseWrite(w, key, outcome);
    case List(key, ok) => BaseList(w, key, ok);
    case DeleteOne(key, child, outcome) => BaseDelete(w, key, child, outcome);
    case Release(key, outcome) => BaseRelease(w, key, outcome);
    case End(key) => BaseEnd(w, key);
    case _ => BaseUser(w, a);
  }

  lemma {:induction false} BaseRun(w: World, actions: seq<Action>)
    requires Base(w)
    ensures Base(After(w, actions))
  {
    if actions != [] {
      BaseRun(w, actions[..|actions| - 1]);
      BaseStep(After(w, actions[..|actions| - 1]), actions[|actions| - 1]);
    }
  }

  /**
   In every run, whatever fails and whatever users do: a pass that is about to write children has
   its Route stored with the finalizer in place, and the finalizer is taken off only by a pass whose
   cleanup is over.
   */
  lemma FinalizerBracketsWrites(actions: seq<Action>, a: Action, key: RouteKey)
    ensures var w := After(EMPTY_WORLD, actions);
            && (key in w.passes && w.passes[key].Writing? ==> key in w.routes && w.routes[key].held)
            && (Holds(w, key) && !Holds(Step(w, a), key) ==>
                  a.Release? && a.key == key && key in w.passes && w.passes[key].Releasing? && w.routes[key].deleting)
  {
    BaseRun(EMPTY_WORLD, actions);
    var w := After(EMPTY_WORLD, actions);
    assert Guarded(w, key);
    if !a.Release? && Holds(w, key) {
      HeldUntilRelease(w, a, key);
    }
  }

  ghost predicate Holds(w: World, key: RouteKey) {
    key in w.routes && w.routes[key].held
  }

  lemma HeldUntilRelease(w: World, a: Action, key: RouteKey)
    requires !a.Release? && Holds(w, key)
    ensures Holds(Step(w, a), key)
  {
    match a
    case Start(other, rollback) => assert StepStart(w, other, rollback).routes == w.routes;
    case AddFinalizer(other, rollback, outcome) => assert Holds(StepAdd(w, other, rollback, outcome), key);
    case _ =>
  }

  /**
   A Route leaves the store in exactly three ways: deleted while nobody held it, let go by the last of the others
   that held it, or by the operator after the others.
   */
  lemma GoneExactly(w: World, a: Action, key: RouteKey)
    requires Base(w) && key in w.routes
    ensures var r := w.routes[key];
            key !in Step(w, a).routes <==>
              || (a.Delete? && a.key == key && !r.held && !r.foreign)
              || (a.RemoveForeign? && a.key == key && r.deleting && !r.held)
              || (a.Release? && a.key == key && key in w.passes && w.passes[key].Releasing? && !r.foreign
                  && a.outcome.Applied() && r.rv == w.passes[key].copy.rv)
  {
    assert Guarded(w, key);
    match a
    case AddFinalizer(other, rollback, outcome) => assert key in StepAdd(w, other, rollback, outcome).routes;
    case Write(other, outcome) => assert StepWrite(w, other, outcome).routes == w.routes;
    case List(other, ok) => assert StepList(w, other, ok).routes == w.routes;
    case DeleteOne(other, child, outcome) => assert StepDelete(w, other, child, outcome).routes == w.routes;
    case _ =>
  }

  // ---------------------------------------------------------------- invariant, under the hypotheses

  /** A pass that is cleaning up has already dealt with the key `k`. */
  ghost predicate SweptBy(p: Pass, k: ChildKey) {
    match p
    case Adding(_) => false
    case Writing(_, _) => false
    case Cleaning(_, todo) => k.kind !in todo
    case Deleting(_, kind, pending, todo) => k.kind !in todo && k !in pending
    case Releasing(_) => true
  }

  /** The Route has changed since the pass read it, so that the pass can no longer update it. */
  ghost predicate Stale(w: World, r: RouteKey) {
    r in w.passes && r in w.routes && w.routes[r].rv != w.passes[r].copy.rv
  }

  /** `r` answers for `k`, and will delete it, or notice that it cannot, before it takes its finalizer off. */
  ghost predicate Shields(w: World, r: RouteKey, k: ChildKey, name: string) {
    Holder(w, r, name, k.ns) && (r in w.passes && !Stale(w, r) ==> !SweptBy(w.passes[r], k))
  }

  ghost predicate Shielded(w: World, k: ChildKey) {
    GatewayChild(w, k) ==> exists r :: Shields(w, r, k, w.children[k].routeLabel.value)
  }

  ghost predicate GatewayPut(op: Op) {
    op.Put? && !Owned(KindOf(op.slot))
  }

  /** The pass is still going to write to its gateway namespace. */
  ghost predicate PutsLeft(p: Pass) {
    p.Writing? && exists op :: op in p.ops && GatewayPut(op)
  }

  /** A pass that is still going to write to a gateway namespace writes to the one its Route answers for. */
  ghost predicate SameGateway(w: World, key: RouteKey) {
    key in w.passes && key in w.routes && PutsLeft(w.passes[key]) ==>
      GatewayNs(w.routes[key]) == GatewayNs(w.passes[key].copy)
  }

  ghost predicate Inv(w: World) {
    && Base(w)
    && (forall key :: SameGateway(w, key))
    && (forall k :: Shielded(w, k))
  }

  /** An object the moving pass does not stop shielding, or begins to shield. */
  ghost predicate Accounted(w: World, children: Store, key: RouteKey, p: Pass, k: ChildKey)
    requires k in children && children[k].routeLabel.Some?
  {
    || Shields(Move(w, children, key, p), key, k, children[k].routeLabel.value)
    || (k in w.children && children[k] == w.children[k] && !Shields(w, key, k, children[k].routeLabel.value))
  }

  lemma InvMove(w: World, children: Store, key: RouteKey, p: Pass)
    requires Inv(w) && Base(Move(w, children, key, p)) && SameGateway(Move(w, children, key, p), key)
    requires forall k :: k in children && !Owned(k.kind) && children[k].routeLabel.Some? ==>
             Accounted(w, children, key, p, k)
    ensures Inv(Move(w, children, key, p))
  {
    var after := Move(w, children, key, p);
    forall other
      ensures SameGateway(after, other)
    {
      assert SameGateway(w, other);
    }
    forall k | GatewayChild(after, k)
      ensures exists r :: Shields(after, r, k, after.children[k].routeLabel.value)
    {
      assert Accounted(w, children, key, p, k);
      if !Shields(after, key, k, after.children[k].routeLabel.value) {
        assert Shielded(w, k);
        var r :| Shields(w, r, k, w.children[k].routeLabel.value);
        assert Shields(after, r, k, after.children[k].routeLabel.value);
      }
    }
  }

  /** A Route goes on answering for its gateway namespace, and a pass that was stale stays so. */
  ghost predicate StillHolds(w: World, after: World, r: RouteKey)
    requires Holds(w, r)
  {
    Holds(after, r) && GatewayNs(after.routes[r]) == GatewayNs(w.routes[r]) &&
    (r in after.passes && Stale(w, r) ==> Stale(after, r))
  }

  /** Only Routes change, and whoever held its finalizer for a gateway namespace still does. */
  lemma InvRoutes(w: World, after: World)
    requires Inv(w) && Base(after) && after.children == w.children
    requires forall r :: r in after.passes ==> r in w.passes && after.passes[r] == w.passes[r]
    requires forall r :: Holds(w, r) ==>
               StillHolds(w, after, r) ||
               (r in w.passes && w.passes[r].Releasing? && !Stale(w, r) && r !in after.passes)
    ensures Inv(after)
  {
    forall key
      ensures SameGateway(after, key)
    {
      assert SameGateway(w, key) && Guarded(w, key);
    }
    forall k | GatewayChild(after, k)
      ensures exists r :: Shields(after, r, k, after.children[k].routeLabel.value)
    {
      assert Shielded(w, k);
      var r :| Shields(w, r, k, w.children[k].routeLabel.value);
      assert Shields(after, r, k, after.children[k].routeLabel.value);
    }
  }

  /** A tame user action moves no Route that holds the finalizer to another gateway namespace. */
  lemma UserKeepsGateway(w: World, a: Action, r: RouteKey)
    requires Versioned(w) && Tame(w, a) && Holds(w, r)
    ensures StillHolds(w, StepUser(w, a), r)
  {
  }

  lemma InvUser(w: World, a: Action)
    requires Inv(w) && Tame(w, a)
    ensures Inv(StepUser(w, a))
  {
    BaseUser(w, a);
    UserAction(w, a);
    forall r | Holds(w, r)
      ensures StillHolds(w, StepUser(w, a), r)
    {
      UserKeepsGateway(w, a, r);
    }
    InvRoutes(w, StepUser(w, a));
  }

  lemma InvStart(w: World, key: RouteKey, rollback: bool)
    requires Inv(w)
    ensures Inv(StepStart(w, key, rollback))
  {
    if key !in w.passes && key in w.routes {
      BaseStart(w, key, rollback);
      var after := StepStart(w, key, rollback);
      if key in after.passes {
        forall k | GatewayChild(w, k)
          ensures Accounted(w, w.children, key, after.passes[key], k)
        {
          EveryKindCleaned(k.kind);
        }
        assert after == Move(w, w.children, key, after.passes[key]);
        InvMove(w, w.children, key, after.passes[key]);
      }
    }
  }

  lemma InvEnd(w: World, key: RouteKey)
    requires Inv(w)
    ensures Inv(EndPass(w, key))
  {
    BaseEnd(w, key);
    InvRoutes(w, EndPass(w, key));
  }

  lemma InvStored(w: World, key: RouteKey, copy: Stored)
    requires Inv(w) && key in w.passes && w.passes[key] == Adding(copy)
    requires key in w.routes && w.routes[key].rv == copy.rv
    ensures Inv(EndPass(Put(w, key, copy.(held := true)), key))
  {
    BaseStored(w, key, copy);
    InvRoutes(w, EndPass(Put(w, key, copy.(held := true)), key));
  }

  lemma InvResume(ended: World, key: RouteKey, ops: seq<Op>)
    requires Inv(ended) && key !in ended.passes && key in ended.routes && ended.routes[key].held
    ensures Inv(Move(ended, ended.children, key, Writing(ended.routes[key], ops)))
  {
    BaseResume(ended, key, ops);
    InvMove(ended, ended.children, key, Writing(ended.routes[key], ops));
  }

  lemma InvAdd(w: World, key: RouteKey, rollback: bool, outcome: ApiOutcome)
    requires Inv(w)
    ensures Inv(StepAdd(w, key, rollback, outcome))
  {
    if key in w.passes && w.passes[key].Adding? {
      var copy := w.passes[key].copy;
      if !UpdateApplies(w, key, copy, outcome) {
        InvEnd(w, key);
      } else {
        InvStored(w, key, copy);
        var updated := Put(w, key, copy.(held := true));
        var ended, ops := EndPass(updated, key), WritesOf(key, copy, rollback);
        if outcome.Done? {
          InvResume(ended, key, ops);
          assert StepAdd(w, key, rollback, outcome) == Move(ended, w.children, key, Writing(updated.routes[key], ops));
        }
      }
    }
  }

  /** A write stores an object of the pass's own Route, or deletes one; nothing else changes. */
  lemma WriteAccounted(w: World, key: RouteKey, outcome: ApiOutcome, k: ChildKey)
    requires Guarded(w, key) && SameGateway(w, key)
    requires key in w.passes && w.passes[key].Writing? && w.passes[key].ops != []
    requires k in StepWrite(w, key, outcome).children && !Owned(k.kind)
    requires StepWrite(w, key, outcome).children[k].routeLabel.Some?
    ensures var after := StepWrite(w, key, outcome); Accounted(w, after.children, key, after.passes[key], k)
  {
    var op := w.passes[key].ops[0];
    if GatewayPut(op) { assert PutsLeft(w.passes[key]); }
  }

  /** What is left after a write: the rest, or the rest behind the remaining deletes. */
  lemma WriteLeaves(w: World, key: RouteKey, outcome: ApiOutcome)
    requires key in w.passes && w.passes[key].Writing? && w.passes[key].ops != []
    ensures key in StepWrite(w, key, outcome).passes
    ensures var ops, p := w.passes[key].ops, StepWrite(w, key, outcome).passes[key];
            p.Writing? && p.copy == w.passes[key].copy &&
            (p.ops == ops[1..] || exists slots :: p.ops == [Drop(slots)] + ops[1..])
  {
  }

  /** A write leaves no more to write than there was. */
  lemma WritePutsLeft(w: World, key: RouteKey, outcome: ApiOutcome)
    requires key in w.passes && w.passes[key].Writing? && w.passes[key].ops != []
    requires key in StepWrite(w, key, outcome).passes && PutsLeft(StepWrite(w, key, outcome).passes[key])
    ensures PutsLeft(w.passes[key]) && StepWrite(w, key, outcome).passes[key].copy == w.passes[key].copy
  {
    WriteLeaves(w, key, outcome);
    var ops, left := w.passes[key].ops, StepWrite(w, key, outcome).passes[key].ops;
    var op :| op in left && GatewayPut(op);
    assert op in ops[1..];
    assert op in ops;
  }

  lemma InvWrite(w: World, key: RouteKey, outcome: ApiOutcome)
    requires Inv(w)
    ensures Inv(StepWrite(w, key, outcome))
  {
    BaseWrite(w, key, outcome);
    var after := StepWrite(w, key, outcome);
    if after != w {
      assert SameGateway(w, key) && Guarded(w, key);
      forall k | k in after.children && !Owned(k.kind) && after.children[k].routeLabel.Some?
        ensures Accounted(w, after.children, key, after.passes[key], k)
      {
        WriteAccounted(w, key, outcome, k);
      }
      if PutsLeft(after.passes[key]) { WritePutsLeft(w, key, outcome); }
      assert after == Move(w, after.children, key, after.passes[key]);
      InvMove(w, after.children, key, after.passes[key]);
    }
  }

  /** A list stops shielding nothing: what it newly counts as swept is not there, or not this Route's. */
  lemma ListAccounted(w: World, key: RouteKey, k: ChildKey)
    requires Base(w) && key in w.passes && w.passes[key].Cleaning? && GatewayChild(w, k)
    ensures Accounted(w, w.children, key, StepList(w, key, true).passes[key], k)
  {
    assert Underway(w.passes[key]) && Guarded(w, key);
    var Cleaning(copy, todo) := w.passes[key];
    var pending := set j | j in w.children && Listed(w.children, key.name, GatewayNs(copy), todo[0], j);
    if !Stale(w, key) && Holder(w, key, w.children[k].routeLabel.value, k.ns) && k.kind == todo[0] {
      assert k in pending;
    }
    assert todo == [todo[0]] + todo[1..];
    assert k.kind in todo <==> k.kind == todo[0] || k.kind in todo[1..];
  }

  lemma InvList(w: World, key: RouteKey)
    requires Inv(w)
    ensures Inv(StepList(w, key, true))
  {
    BaseList(w, key, true);
    var after := StepList(w, key, true);
    if after != w {
      forall k | GatewayChild(w, k)
        ensures Accounted(w, w.children, key, after.passes[key], k)
      {
        ListAccounted(w, key, k);
      }
      assert after == Move(w, w.children, key, after.passes[key]);
      InvMove(w, w.children, key, after.passes[key]);
    }
  }

  lemma InvDelete(w: World, key: RouteKey, child: ChildKey, outcome: ApiOutcome)
    requires Inv(w) && outcome.Applied()
    ensures Inv(StepDelete(w, key, child, outcome))
  {
    BaseDelete(w, key, child, outcome);
    var after := StepDelete(w, key, child, outcome);
    if after != w {
      assert SameGateway(w, key) && Guarded(w, key);
      assert after == Move(w, after.children, key, after.passes[key]);
      InvMove(w, after.children, key, after.passes[key]);
    }
  }

  lemma InvRelease(w: World, key: RouteKey, outcome: ApiOutcome)
    requires Inv(w)
    ensures Inv(StepRelease(w, key, outcome))
  {
    BaseRelease(w, key, outcome);
    assert SameGateway(w, key) && Guarded(w, key);
    InvRoutes(w, StepRelease(w, key, outcome));
  }

  lemma InvStep(w: World, a: Action)
    requires Inv(w) && Tame(w, a)
    ensures Inv(Step(w, a))
  {
    match a
    case Start(key, rollback) => InvStart(w, key, rollback);
    case AddFinalizer(key, rollback, outcome) => InvAdd(w, key, rollback, outcome);
    case Write(key, outcome) => InvWrite(w, key, outcome);
    case List(key, _) => InvList(w, key);
    case DeleteOne(key, child, outcome) => InvDelete(w, key, child, outcome);
    case Release(key, outcome) => InvRelease(w, key, outcome);
    case End(key) => InvEnd(w, key);
    case _ => InvUser(w, a);
  }

  lemma {:induction false} InvRun(w: World, actions: seq<Action>)
    requires Inv(w) && TameRun(w, actions)
    ensures Inv(After(w, actions))
  {
    if actions != [] {
      InvRun(w, actions[..|actions| - 1]);
      InvStep(After(w, actions[..|actions| - 1]), actions[|actions| - 1]);
    }
  }

  lemma InvHasNoOrphan(w: World)
    requires Inv(w)
    ensures NoOrphan(w)
  {
    forall k | GatewayChild(w, k)
      ensures exists r :: Holder(w, r, w.children[k].routeLabel.value, k.ns)
    {
      assert Shielded(w, k);
      var r :| Shields(w, r, k, w.children[k].routeLabel.value);
      assert Holder(w, r, w.children[k].routeLabel.value, k.ns);
    }
  }

  /** No orphan over every run that meets the hypotheses. */
  lemma NoOrphanInAnyRun(actions: seq<Action>)
    requires TameRun(EMPTY_WORLD, actions)
    ensures NoOrphan(After(EMPTY_WORLD, actions))
  {
    InvRun(EMPTY_WORLD, actions);
    InvHasNoOrphan(After(EMPTY_WORLD, actions));
  }
}
