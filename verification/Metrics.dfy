/** The gauge tables: one-hot rows for phase and backend state, and the managed count. */
module Metrics {
  import opened RouteApi

  datatype HealthState = HealthyState | MissingServiceState | ZeroEndpointsState | ConflictState | UnknownState

  const PHASE_VALUES: seq<Phase> := [Pending, Provisioning, Active, Degraded]
  const BACKEND_STATES: seq<HealthState> :=
    [HealthyState, MissingServiceState, ZeroEndpointsState, ConflictState, UnknownState]

  /** A gauge vector labelled by Route and value. */
  type Table<V(==)> = map<(RouteKey, V), int>

  datatype Gauges = Gauges(phases: Table<Phase>, health: Table<HealthState>, managed: map<RouteKey, int>)

  const NO_GAUGES := Gauges(map[], map[], map[])

  // ---------------------------------------------------------------- one row

  function SetRow<V(==)>(m: Table<V>, key: RouteKey, current: V, values: seq<V>): Table<V> {
    if values == [] then m
    else
      var last := values[|values| - 1];
      SetRow(m, key, current, values[..|values| - 1])[(key, last) := if last == current then 1 else 0]
  }

  function ClearRow<V(==)>(m: Table<V>, key: RouteKey, values: seq<V>): Table<V> {
    if values == [] then m
    else ClearRow(m, key, values[..|values| - 1]) - {(key, values[|values| - 1])}
  }

  ghost predicate OneHot<V>(m: Table<V>, key: RouteKey, current: V, values: seq<V>) {
    forall v :: v in values ==> (key, v) in m && m[(key, v)] == if v == current then 1 else 0
  }

  ghost predicate NoRow<V>(m: Table<V>, key: RouteKey, values: seq<V>) {
    forall v :: v in values ==> (key, v) !in m
  }

  ghost predicate SameRow<V(!new)>(a: Table<V>, b: Table<V>, key: RouteKey) {
    forall v :: ((key, v) in a <==> (key, v) in b) && ((key, v) in a ==> a[(key, v)] == b[(key, v)])
  }

  lemma {:induction false} RowSet<V(!new)>(m: Table<V>, key: RouteKey, current: V, values: seq<V>)
    ensures OneHot(SetRow(m, key, current, values), key, current, values)
    ensures forall other :: other != key ==> SameRow(SetRow(m, key, current, values), m, other)
  {
    if values != [] {
      var init := values[..|values| - 1];
      RowSet(m, key, current, init);
      assert values == init + [values[|values| - 1]];
      forall other | other != key
        ensures SameRow(SetRow(m, key, current, values), m, other)
      {
        assert SameRow(SetRow(m, key, current, init), m, other);
        assert forall v :: (other, v) != (key, values[|values| - 1]);
      }
    }
  }

  lemma {:induction false} RowCleared<V(!new)>(m: Table<V>, key: RouteKey, values: seq<V>)
    ensures NoRow(ClearRow(m, key, values), key, values)
    ensures forall other :: other != key ==> SameRow(ClearRow(m, key, values), m, other)
  {
    if values != [] {
      var init := values[..|values| - 1];
      RowCleared(m, key, init);
      assert values == init + [values[|values| - 1]];
      forall other | other != key
        ensures SameRow(ClearRow(m, key, values), m, other)
      {
        assert SameRow(ClearRow(m, key, init), m, other);
        assert forall v :: (other, v) != (key, values[|values| - 1]);
      }
    }
  }

  // ---------------------------------------------------------------- all three tables

  /** The tables agree with one phase, backend state and count. */
  ghost predicate Rows(g: Gauges, key: RouteKey, phase: Phase, health: HealthState, count: int) {
    && OneHot(g.phases, key, phase, PHASE_VALUES)
    && OneHot(g.health, key, health, BACKEND_STATES)
    && key in g.managed && g.managed[key] == count
  }

  ghost predicate NoRows(g: Gauges, key: RouteKey) {
    NoRow(g.phases, key, PHASE_VALUES) && NoRow(g.health, key, BACKEND_STATES) && key !in g.managed
  }

  ghost predicate SameRows(a: Gauges, b: Gauges, key: RouteKey) {
    && SameRow(a.phases, b.phases, key)
    && SameRow(a.health, b.health, key)
    && (key in a.managed <==> key in b.managed)
    && (key in a.managed ==> a.managed[key] == b.managed[key])
  }

  /** Every phase but the empty one, and every backend state, has its gauge. */
  lemma ValuesComplete(p: Phase, h: HealthState)
    ensures p in PHASE_VALUES <==> p != NoPhase
    ensures h in BACKEND_STATES
  {
    assert PHASE_VALUES[0] == Pending && PHASE_VALUES[1] == Provisioning && PHASE_VALUES[2] == Active &&
      PHASE_VALUES[3] == Degraded;
    assert BACKEND_STATES[0] == HealthyState && BACKEND_STATES[1] == MissingServiceState;
    assert BACKEND_STATES[2] == ZeroEndpointsState && BACKEND_STATES[3] == ConflictState &&
      BACKEND_STATES[4] == UnknownState;
  }

  function SetGauges(g: Gauges, key: RouteKey, phase: Phase, health: HealthState, count: int): Gauges {
    Gauges(SetRow(g.phases, key, phase, PHASE_VALUES), SetRow(g.health, key, health, BACKEND_STATES),
           g.managed[key := count])
  }

  function ClearGauges(g: Gauges, key: RouteKey): Gauges {
    Gauges(ClearRow(g.phases, key, PHASE_VALUES), ClearRow(g.health, key, BACKEND_STATES), g.managed - {key})
  }

  /** Setting makes the rows of one Route one-hot; clearing removes them all; no other Route notices. */
  lemma GaugeUpdates(g: Gauges, key: RouteKey, phase: Phase, health: HealthState, count: int)
    ensures Rows(SetGauges(g, key, phase, health, count), key, phase, health, count)
    ensures NoRows(ClearGauges(g, key), key)
    ensures forall other :: other != key ==> SameRows(SetGauges(g, key, phase, health, count), g, other)
    ensures forall other :: other != key ==> SameRows(ClearGauges(g, key), g, other)
  {
    RowSet(g.phases, key, phase, PHASE_VALUES);
    RowSet(g.health, key, health, BACKEND_STATES);
    RowCleared(g.phases, key, PHASE_VALUES);
    RowCleared(g.health, key, BACKEND_STATES);
  }

  /** Equal rows read the same. */
  lemma SameRowsRead(a: Gauges, b: Gauges, key: RouteKey, phase: Phase, health: HealthState, count: int)
    requires SameRows(a, b, key)
    ensures NoRows(a, key) <==> NoRows(b, key)
    ensures Rows(a, key, phase, health, count) <==> Rows(b, key, phase, health, count)
  {
  }

  // ---------------------------------------------------------------- the tables

  class MetricTables {
    var routeStatusPhase: Table<Phase>
    var routeBackendHealth: Table<HealthState>
    var routeManagedResources: map<RouteKey, int>

    constructor ()
      ensures State() == NO_GAUGES
    {
      routeStatusPhase, routeBackendHealth, routeManagedResources := map[], map[], map[];
    }

    ghost function State(): Gauges
      reads this
    {
      Gauges(routeStatusPhase, routeBackendHealth, routeManagedResources)
    }

    method SetRoutePhaseMetric(key: RouteKey, current: Phase)
      modifies this`routeStatusPhase
      ensures routeStatusPhase == SetRow(old(routeStatusPhase), key, current, PHASE_VALUES)
    {
      for i := 0 to |PHASE_VALUES|
        invariant routeStatusPhase == SetRow(old(routeStatusPhase), key, current, PHASE_VALUES[..i])
      {
        var phase := PHASE_VALUES[i];
        assert PHASE_VALUES[..i + 1][..i] == PHASE_VALUES[..i];
        var value := 0;
        if phase == current {
          value := 1;
        }
        routeStatusPhase := routeStatusPhase[(key, phase) := value];
      }
      assert PHASE_VALUES[..|PHASE_VALUES|] == PHASE_VALUES;
    }

    method SetRouteBackendHealthState(key: RouteKey, state: HealthState)
      modifies this`routeBackendHealth
      ensures routeBackendHealth == SetRow(old(routeBackendHealth), key, state, BACKEND_STATES)
    {
      for i := 0 to |BACKEND_STATES|
        invariant routeBackendHealth == SetRow(old(routeBackendHealth), key, state, BACKEND_STATES[..i])
      {
        var s := BACKEND_STATES[i];
        assert BACKEND_STATES[..i + 1][..i] == BACKEND_STATES[..i];
        var value := 0;
        if s == state {
          value := 1;
        }
        routeBackendHealth := routeBackendHealth[(key, s) := value];
      }
      assert BACKEND_STATES[..|BACKEND_STATES|] == BACKEND_STATES;
    }

    method SetManagedResourcesMetric(key: RouteKey, count: int)
      modifies this`routeManagedResources
      ensures routeManagedResources == old(routeManagedResources)[key := count]
    {
      routeManagedResources := routeManagedResources[key := count];
    }

    method ClearRouteMetrics(key: RouteKey)
      modifies this
      ensures State() == ClearGauges(old(State()), key)
    {
      for i := 0 to |PHASE_VALUES|
        invariant routeStatusPhase == ClearRow(old(routeStatusPhase), key, PHASE_VALUES[..i])
        invariant routeBackendHealth == old(routeBackendHealth) && routeManagedResources == old(routeManagedResources)
      {
        assert PHASE_VALUES[..i + 1][..i] == PHASE_VALUES[..i];
        routeStatusPhase := routeStatusPhase - {(key, PHASE_VALUES[i])};
      }
      assert PHASE_VALUES[..|PHASE_VALUES|] == PHASE_VALUES;
      for i := 0 to |BACKEND_STATES|
        invariant routeStatusPhase == ClearRow(old(routeStatusPhase), key, PHASE_VALUES)
        invariant routeBackendHealth == ClearRow(old(routeBackendHealth), key, BACKEND_STATES[..i])
        invariant routeManagedResources == old(routeManagedResources)
      {
        assert BACKEND_STATES[..i + 1][..i] == BACKEND_STATES[..i];
        routeBackendHealth := routeBackendHealth - {(key, BACKEND_STATES[i])};
      }
      assert BACKEND_STATES[..|BACKEND_STATES|] == BACKEND_STATES;
      routeManagedResources := routeManagedResources - {key};
    }
  }
}
