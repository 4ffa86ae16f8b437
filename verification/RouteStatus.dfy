/** Status conditions: how they are set, and the statuses a pass may persist. */
module RouteStatus {
  import opened RouteApi

  // ---------------------------------------------------------------- setting one condition

  /** The first condition of a type, or the length of the list. */
  function Position(conditions: seq<Condition>, t: ConditionType): (i: nat)
    ensures i <= |conditions|
    ensures forall j :: 0 <= j < i ==> conditions[j].ctype != t
    ensures i < |conditions| ==> conditions[i].ctype == t
  {
    if conditions == [] || conditions[0].ctype == t then 0 else 1 + Position(conditions[1..], t)
  }

  function Find(conditions: seq<Condition>, t: ConditionType): Option<Condition> {
    var i := Position(conditions, t);
    if i < |conditions| then Some(conditions[i]) else None
  }

  function WithCondition(conditions: seq<Condition>, new_: Condition): seq<Condition> {
    var i := Position(conditions, new_.ctype);
    if i == |conditions| then conditions + [new_]
    else if conditions[i].status != new_.status || conditions[i].reason != new_.reason then conditions[i := new_]
    else conditions
  }

  /** The copy of a Route that a pass works on. */
  class RouteCopy {
    var route: Route

    constructor (r: Route)
      ensures route == r
    {
      route := r;
    }

    /** `setCondition`: update in place when status or reason changes, append when absent. */
    method SetCondition(t: ConditionType, status: ConditionStatus, reason: Reason, message: string, now: int)
      modifies this
      ensures route == old(route).(status := old(route).status.(conditions :=
                WithCondition(old(route).status.conditions,
                              Condition(t, status, reason, message, now, old(route).generation))))
    {
      var conditions := route.status.conditions;
      for i := 0 to |conditions|
        invariant route == old(route) && i <= Position(conditions, t)
      {
        if conditions[i].ctype == t {
          assert i == Position(conditions, t);
          if conditions[i].status != status || conditions[i].reason != reason {
            var changed := conditions[i].(status := status, reason := reason, message := message,
                                          lastTransition := now, observedGeneration := route.generation);
            route := route.(status := route.status.(conditions := conditions[i := changed]));
          }
          return;
        }
      }
      route := route.(status := route.status.(conditions :=
        conditions + [Condition(t, status, reason, message, now, route.generation)]));
    }
  }

  ghost predicate UniqueTypes(conditions: seq<Condition>) {
    forall i, j :: 0 <= i < j < |conditions| ==> conditions[i].ctype != conditions[j].ctype
  }

  lemma PositionUnique(conditions: seq<Condition>, i: nat)
    requires UniqueTypes(conditions) && i < |conditions|
    ensures Position(conditions, conditions[i].ctype) == i
  {
  }

  /**
   Setting a condition keeps types unique, leaves every other type alone, and afterwards finds the given
   status and reason; the transition time moves exactly when status or reason do.
   */
  lemma ConditionSet(conditions: seq<Condition>, c: Condition)
    requires UniqueTypes(conditions)
    ensures var after := WithCondition(conditions, c);
            && UniqueTypes(after)
            && (forall t :: t != c.ctype ==> Find(after, t) == Find(conditions, t))
            && Find(after, c.ctype).Some?
            && Find(after, c.ctype).value.status == c.status && Find(after, c.ctype).value.reason == c.reason
            && (Find(conditions, c.ctype).Some? ==>
                  var was := Find(conditions, c.ctype).value;
                  Find(after, c.ctype).value ==
                    if was.status == c.status && was.reason == c.reason then was else c)
  {
    var after := WithCondition(conditions, c);
    var i := Position(conditions, c.ctype);
    assert UniqueTypes(after);
    assert after[i].ctype == c.ctype;
    PositionUnique(after, i);
    forall t | t != c.ctype
      ensures Find(after, t) == Find(conditions, t)
    {
      var j := Position(conditions, t);
      if j < |conditions| {
        assert after[j] == conditions[j];
        PositionUnique(after, j);
      } else {
        assert forall m :: 0 <= m < |after| ==> after[m].ctype != t;
      }
    }
  }

  /**
   "A condition shows the message of the latest evaluation" is false: a new message is kept exactly when
   the condition is new, its status or reason changes, or the message was the same already.
   */
  lemma MessageShownExactly(conditions: seq<Condition>, c: Condition)
    requires UniqueTypes(conditions)
    ensures Find(WithCondition(conditions, c), c.ctype).Some?
    ensures var was := Find(conditions, c.ctype);
            Find(WithCondition(conditions, c), c.ctype).value.message == c.message <==>
            || was.None?
            || was.value.status != c.status || was.value.reason != c.reason
            || was.value.message == c.message
  {
    ConditionSet(conditions, c);
    PositionUniqueNew(conditions, c);
  }

  lemma PositionUniqueNew(conditions: seq<Condition>, c: Condition)
    requires UniqueTypes(conditions)
    ensures Find(conditions, c.ctype).None? ==> Find(WithCondition(conditions, c), c.ctype) == Some(c)
  {
    var i := Position(conditions, c.ctype);
    if i == |conditions| {
      assert (conditions + [c])[i] == c;
      assert UniqueTypes(conditions + [c]);
      PositionUnique(conditions + [c], i);
    }
  }

  /** What setting `c` makes of a condition: it stays if status and reason are what they were, and is `c` otherwise. */
  ghost predicate Becomes(before: Option<Condition>, after: Option<Condition>, c: Condition) {
    after == Some(if before.Some? && before.value.status == c.status && before.value.reason == c.reason
                  then before.value else c)
  }

  lemma ConditionBecomes(conditions: seq<Condition>, c: Condition)
    requires UniqueTypes(conditions)
    ensures UniqueTypes(WithCondition(conditions, c))
    ensures Becomes(Find(conditions, c.ctype), Find(WithCondition(conditions, c), c.ctype), c)
    ensures forall t :: t != c.ctype ==> Find(WithCondition(conditions, c), t) == Find(conditions, t)
  {
    ConditionSet(conditions, c);
    PositionUniqueNew(conditions, c);
  }

  /** Two missing Services, one after the other: the status still names the first. */
  lemma StaleMessage()
    ensures var first := Condition(Ready, IsFalse, BackendServiceMissing, "Waiting for backend Services: a", 1, 1);
            var second := Condition(Ready, IsFalse, BackendServiceMissing, "Waiting for backend Services: b", 2, 1);
            Find(WithCondition(WithCondition([], first), second), Ready) == Some(first)
  {
    var first := Condition(Ready, IsFalse, BackendServiceMissing, "Waiting for backend Services: a", 1, 1);
    assert WithCondition([], first) == [first];
  }

  // ---------------------------------------------------------------- the statuses of a pass

  /** How the evaluation that ends a pass judges the Route. */
  datatype Judgement =
    | Blocked(phase: Phase, reason: Reason, message: string)
    | Finished(failed: bool, count: nat, error: string)

  function SetStatus(st: Status, c: Condition): Status {
    st.(conditions := WithCondition(st.conditions, c))
  }

  function PhaseOf(j: Judgement): Phase {
    match j
    case Blocked(phase, _, _) => phase
    case Finished(failed, _, _) => if failed then Degraded else Active
  }

  function CountOf(j: Judgement): nat {
    if j.Blocked? then 0 else j.count
  }

  function SyncedOf(j: Judgement, now: int, generation: int): Condition {
    match j
    case Blocked(_, reason, message) => Condition(Synced, IsFalse, reason, message, now, generation)
    case Finished(true, _, error) => Condition(Synced, IsFalse, ReconcileError, error, now, generation)
    case Finished(false, _, _) => Condition(Synced, IsTrue, ReconcileSuccess, "All resources synced", now, generation)
  }

  function ReadyOf(j: Judgement, now: int, generation: int): Condition {
    match j
    case Blocked(_, reason, message) => Condition(Ready, IsFalse, reason, message, now, generation)
    case Finished(true, _, _) =>
      Condition(Ready, IsFalse, NotReady, "Some resources failed to reconcile", now, generation)
    case Finished(false, _, _) => Condition(Ready, IsTrue, Available, "All resources available", now, generation)
  }

  /** Phase, count, Synced and then Ready, as the evaluation says. */
  function Judged(st: Status, j: Judgement, now: int, generation: int): Status {
    SetStatus(SetStatus(st.(phase := PhaseOf(j), managedResources := CountOf(j)), SyncedOf(j, now, generation)),
              ReadyOf(j, now, generation))
  }

  ghost predicate Shows(st: Status, t: ConditionType, status: ConditionStatus, reason: Reason) {
    var c := Find(st.conditions, t);
    c.Some? && c.value.status == status && c.value.reason == reason
  }

  ghost predicate Tuple(st: Status, phase: Phase, status: ConditionStatus, ready: Reason, synced: Reason) {
    st.phase == phase && Shows(st, Ready, status, ready) && Shows(st, Synced, status, synced)
  }

  /** The five statuses that are ever persisted; Provisioning is none of them. */
  ghost predicate Persistable(st: Status) {
    || Tuple(st, Degraded, IsFalse, RouteConflict, RouteConflict)
    || Tuple(st, Pending, IsFalse, BackendServiceMissing, BackendServiceMissing)
    || Tuple(st, Degraded, IsFalse, BackendNoEndpoints, BackendNoEndpoints)
    || Tuple(st, Degraded, IsFalse, NotReady, ReconcileError)
    || Tuple(st, Active, IsTrue, Available, ReconcileSuccess)
  }

  ghost predicate Sound(st: Status) {
    UniqueTypes(st.conditions) && (Persistable(st) || st == NEW_STATUS)
  }

  /** A judgement as the controller makes them. */
  ghost predicate ProperJudgement(j: Judgement) {
    j.Blocked? ==>
      || (j.phase == Degraded && (j.reason == RouteConflict || j.reason == BackendNoEndpoints))
      || (j.phase == Pending && j.reason == BackendServiceMissing)
  }

  ghost predicate StatusTrue(st: Status, t: ConditionType) {
    Find(st.conditions, t).Some? && Find(st.conditions, t).value.status == IsTrue
  }

  /** Active, Ready=True and Synced=True come together or not at all. */
  lemma ActiveIffReadyIffSynced(st: Status)
    requires Persistable(st)
    ensures st.phase == Active <==> StatusTrue(st, Ready)
    ensures st.phase == Active <==> StatusTrue(st, Synced)
    ensures st.phase != Provisioning
  {
  }

  /** Every judgement, on whatever earlier conditions, yields one of the five statuses. */
  lemma JudgedIsPersistable(st: Status, j: Judgement, now: int, generation: int)
    requires UniqueTypes(st.conditions) && ProperJudgement(j)
    ensures var after := Judged(st, j, now, generation);
            && UniqueTypes(after.conditions) && Persistable(after)
            && Find(after.conditions, CertificateHealth) == Find(st.conditions, CertificateHealth)
            && after.managedResources == (if j.Blocked? then 0 else j.count)
            && (after.phase == Active <==> j.Finished? && !j.failed)
            && Find(after.conditions, Ready).Some?
            && Find(after.conditions, Ready).value.reason ==
                 (if j.Blocked? then j.reason else if j.failed then NotReady else Available)
  {
    JudgedConditions(st, j, now, generation);
  }

  /** What the conditions are afterwards. */
  lemma JudgedConditions(st: Status, j: Judgement, now: int, generation: int)
    requires UniqueTypes(st.conditions)
    ensures var after := Judged(st, j, now, generation);
            var synced, ready := SyncedOf(j, now, generation), ReadyOf(j, now, generation);
            && UniqueTypes(after.conditions)
            && Find(after.conditions, CertificateHealth) == Find(st.conditions, CertificateHealth)
            && Shows(after, Synced, synced.status, synced.reason)
            && Shows(after, Ready, ready.status, ready.reason)
  {
    var synced := SyncedOf(j, now, generation);
    ConditionSet(st.conditions, synced);
    ConditionSet(WithCondition(st.conditions, synced), ReadyOf(j, now, generation));
  }
}
