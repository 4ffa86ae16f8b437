/**
 Canary rollback: consecutive failed probes are counted per Route; at the policy's threshold the
 canary is switched off until a deadline. The lock is given up around the probe, so evaluations of
 different Routes interleave; evaluations of one Route follow one another.
 */
module Canary {
  import opened Text
  import opened RouteApi

  // ---------------------------------------------------------------- keys, times and policies

  function KeyText(key: RouteKey): string {
    key.ns + "/" + key.name
  }

  lemma KeyTextInjective(a: RouteKey, b: RouteKey)
    requires Free(a.ns, '/') && Free(b.ns, '/')
    ensures KeyText(a) == KeyText(b) <==> a == b
  {
    if KeyText(a) == KeyText(b) {
      FirstSeparatorUnique(a.ns, a.name, b.ns, b.name, '/');
    }
  }

  const DEFAULT_PROBE_INTERVAL := 30 * SECOND
  const DEFAULT_COOLDOWN := 300 * SECOND

  function ProbeInterval(policy: RollbackPolicy): int {
    if policy.intervalSeconds.Some? then policy.intervalSeconds.value * SECOND else DEFAULT_PROBE_INTERVAL
  }

  function Cooldown(policy: RollbackPolicy): int {
    if policy.cooldownSeconds.Some? then policy.cooldownSeconds.value * SECOND else DEFAULT_COOLDOWN
  }

  datatype ProbeResult = ProbeFailed | Answered(status: int)

  predicate IsFiveXX(probe: ProbeResult) {
    probe.ProbeFailed? || probe.status >= 500
  }

  // ---------------------------------------------------------------- the two critical sections

  datatype CanaryState = CanaryState(counts: map<string, nat>, until: map<string, int>)

  const NO_CANARY_STATE := CanaryState(map[], map[])

  /** First section: a Route inside its cooldown is rolled back without a probe. */
  predicate InCooldown(s: CanaryState, key: string, now: int) {
    key in s.until && s.until[key] > now
  }

  function CountOf(s: CanaryState, key: string): nat {
    if key in s.counts then s.counts[key] else 0
  }

  /** Second section, after the probe; `now` is the time read before the first section. */
  function Record(s: CanaryState, key: string, now: int, policy: RollbackPolicy, probe: ProbeResult)
    : (CanaryState, bool)
  {
    var count := if IsFiveXX(probe) then CountOf(s, key) + 1 else 0;
    var triggered := count >= policy.threshold;
    var counts := s.counts[key := if triggered then 0 else count];
    var until := if triggered then s.until[key := now + Cooldown(policy)] else s.until;
    if key in until && until[key] > now
    then (CanaryState(counts, until), true)
    else (CanaryState(counts, until - {key}), false)
  }

  /** A whole evaluation: the new state, and whether the canary is rolled back. */
  function Evaluate(s: CanaryState, key: string, now: int, policy: RollbackPolicy, probe: ProbeResult)
    : (CanaryState, bool)
  {
    if InCooldown(s, key, now) then (s, true) else Record(s, key, now, policy, probe)
  }

  function ClearState(s: CanaryState, key: string): CanaryState {
    CanaryState(s.counts - {key}, s.until - {key})
  }

  class CanaryTracker {
    var canaryFailureCounts: map<string, nat>
    var canaryRollbackUntil: map<string, int>

    constructor ()
      ensures State() == NO_CANARY_STATE
    {
      canaryFailureCounts, canaryRollbackUntil := map[], map[];
    }

    ghost function State(): CanaryState
      reads this
    {
      CanaryState(canaryFailureCounts, canaryRollbackUntil)
    }

    method EvaluateCanaryRollback(key: string, policy: RollbackPolicy, now: int, probe: ProbeResult)
      returns (rollbackActive: bool, probeInterval: int)
      modifies this
      ensures (State(), rollbackActive) == Evaluate(old(State()), key, now, policy, probe)
      ensures probeInterval == ProbeInterval(policy)
    {
      probeInterval := DEFAULT_PROBE_INTERVAL;
      if policy.intervalSeconds.Some? {
        probeInterval := policy.intervalSeconds.value * SECOND;
      }
      var cooldown := DEFAULT_COOLDOWN;
      if policy.cooldownSeconds.Some? {
        cooldown := policy.cooldownSeconds.value * SECOND;
      }
      if key in canaryRollbackUntil && canaryRollbackUntil[key] > now {
        return true, probeInterval;
      }
      var isFiveXX := probe.ProbeFailed? || probe.status >= 500;
      var count: nat := if key in canaryFailureCounts then canaryFailureCounts[key] else 0;
      if isFiveXX {
        count := count + 1;
      } else {
        count := 0;
      }
      canaryFailureCounts := canaryFailureCounts[key := count];
      if count >= policy.threshold {
        canaryRollbackUntil := canaryRollbackUntil[key := now + cooldown];
        canaryFailureCounts := canaryFailureCounts[key := 0];
      }
      rollbackActive := false;
      if key in canaryRollbackUntil {
        if canaryRollbackUntil[key] > now {
          rollbackActive := true;
        } else {
          canaryRollbackUntil := canaryRollbackUntil - {key};
        }
      }
      assert old(canaryFailureCounts)[key := count][key := 0] == old(canaryFailureCounts)[key := 0];
      assert !rollbackActive ==> canaryRollbackUntil == canaryRollbackUntil - {key};
    }

    method ClearCanaryRuntimeState(key: string)
      modifies this
      ensures State() == ClearState(old(State()), key)
    {
      canaryFailureCounts := canaryFailureCounts - {key};
      canaryRollbackUntil := canaryRollbackUntil - {key};
    }
  }

  // ---------------------------------------------------------------- one Route alone

  datatype KeyState = KeyState(count: nat, until: Option<int>)

  const FRESH := KeyState(0, None)

  /** Stands for the result of an evaluation that makes no probe. */
  const NO_PROBE := Answered(0)

  ghost function View(s: CanaryState, key: string): KeyState {
    KeyState(CountOf(s, key), if key in s.until then Some(s.until[key]) else None)
  }

  datatype KeyEvent = Eval(now: int, policy: RollbackPolicy, probe: ProbeResult) | Clear

  /** What an observer of one Route's evaluations sees. */
  datatype Observation =
    | Skipped(now: int)
    | Succeeded(now: int)
    | Failed(now: int, threshold: int, cooldown: int, triggered: bool)
    | Cleared

  ghost predicate Waiting(k: KeyState, now: int) {
    k.until.Some? && k.until.value > now
  }

  ghost function KeyStep(k: KeyState, e: KeyEvent): KeyState {
    match e
    case Clear => FRESH
    case Eval(now, policy, probe) =>
      if Waiting(k, now) then k
      else
        var count := if IsFiveXX(probe) then k.count + 1 else 0;
        if count >= policy.threshold
        then KeyState(0, if Cooldown(policy) > 0 then Some(now + Cooldown(policy)) else None)
        else KeyState(count, None)
  }

  /** How long a rollback lasts, in nanoseconds: the policy's seconds, or five minutes. */
  ghost function Window(policy: RollbackPolicy): int {
    match policy.cooldownSeconds
    case Some(seconds) => seconds * 1_000_000_000
    case None => 300_000_000_000
  }

  /** What happened, told by the probe's result: no answer and every status from 500 on are failures. */
  ghost function Observe(k: KeyState, e: KeyEvent): Observation {
    match e
    case Clear => Cleared
    case Eval(now, policy, probe) =>
      if k.until.Some? && k.until.value > now then Skipped(now)
      else match probe
           case Answered(status) =>
             if status < 500 then Succeeded(now)
             else Failed(now, policy.threshold, Window(policy), k.count + 1 >= policy.threshold)
           case ProbeFailed => Failed(now, policy.threshold, Window(policy), k.count + 1 >= policy.threshold)
  }

  ghost function RunKey(events: seq<KeyEvent>): KeyState {
    if events == [] then FRESH else KeyStep(RunKey(events[..|events| - 1]), events[|events| - 1])
  }

  ghost function Log(events: seq<KeyEvent>): (log: seq<Observation>)
    ensures |log| == |events|
  {
    if events == [] then []
    else Log(events[..|events| - 1]) + [Observe(RunKey(events[..|events| - 1]), events[|events| - 1])]
  }

  lemma {:induction false} LogPrefix(events: seq<KeyEvent>, n: nat)
    requires n <= |events|
    ensures Log(events)[..n] == Log(events[..n])
  {
    if n == |events| {
      assert events[..n] == events && Log(events)[..n] == Log(events);
    } else {
      LogPrefix(events[..|events| - 1], n);
      assert events[..|events| - 1][..n] == events[..n];
    }
  }

  /** The schema: thresholds of at least 1, cooldowns of at least a second. */
  ghost predicate SchemaEvents(events: seq<KeyEvent>) {
    forall i :: 0 <= i < |events| && events[i].Eval? ==>
      events[i].policy.threshold >= 1 && Window(events[i].policy) > 0
  }

  ghost predicate TimeMovesOn(events: seq<KeyEvent>) {
    forall i, j :: 0 <= i < j < |events| && events[i].Eval? && events[j].Eval? ==> events[i].now <= events[j].now
  }

  // ---------------------------------------------------------------- history

  /** Failed probes since the last success, trigger or clear; cooldown does not count. */
  ghost function Trail(log: seq<Observation>): nat {
    if log == [] then 0
    else
      match log[|log| - 1]
      case Skipped(_) => Trail(log[..|log| - 1])
      case Succeeded(_) => 0
      case Failed(_, _, _, triggered) => if triggered then 0 else Trail(log[..|log| - 1]) + 1
      case Cleared => 0
  }

  /** The deadline set by the last trigger since the last clear. */
  ghost function Deadline(log: seq<Observation>): Option<int> {
    if log == [] then None
    else
      match log[|log| - 1]
      case Skipped(_) => Deadline(log[..|log| - 1])
      case Succeeded(_) => Deadline(log[..|log| - 1])
      case Failed(now, _, cooldown, triggered) => if triggered then Some(now + cooldown) else Deadline(log[..|log| - 1])
      case Cleared => None
  }

  lemma LogLast(events: seq<KeyEvent>)
    requires events != []
    ensures var n := |events| - 1;
            Log(events)[..n] == Log(events[..n]) && Log(events)[n] == Observe(RunKey(events[..n]), events[n])
  {
  }

  /**
   The counter refines the history: it is the length of the trailing run of failed probes; it stays
   below the current threshold after every probe; a Route with a deadline has count zero, and the
   deadline is the one its last trigger set.
   */
  lemma {:induction false} CounterRefinesHistory(events: seq<KeyEvent>)
    requires SchemaEvents(events)
    ensures var k, log := RunKey(events), Log(events);
            && k.count == Trail(log)
            && (k.until.Some? ==> k.count == 0 && k.until == Deadline(log))
            && (events != [] && events[|events| - 1].Eval? && !log[|log| - 1].Skipped? ==>
                  k.count < events[|events| - 1].policy.threshold)
  {
    if events != [] {
      CounterRefinesHistory(events[..|events| - 1]);
      LogLast(events);
    }
  }

  /** An evaluation that probes triggers exactly when its failure brings the trailing run to the threshold. */
  lemma TriggerExactly(events: seq<KeyEvent>, now: int, policy: RollbackPolicy, probe: ProbeResult)
    requires SchemaEvents(events) && policy.threshold >= 1 && Window(policy) > 0
    ensures var log, o := Log(events), Observe(RunKey(events), Eval(now, policy, probe));
            !o.Skipped? ==> ((o.Failed? && o.triggered) <==>
                              (probe.Answered? ==> probe.status >= 500) && Trail(log) + 1 >= policy.threshold)
  {
    CounterRefinesHistory(events);
  }

  /** The stored count never outgrows the 32-bit thresholds, whatever the run. */
  lemma {:induction false} CountBounded(events: seq<KeyEvent>)
    requires SchemaEvents(events)
    requires forall i :: 0 <= i < |events| && events[i].Eval? ==> events[i].policy.threshold < 0x8000_0000
    ensures RunKey(events).count < 0x7FFF_FFFF
  {
    if events != [] {
      CountBounded(events[..|events| - 1]);
    }
  }

  ghost function LatestTime(events: seq<KeyEvent>, default: int): int {
    if events == [] then default
    else if events[|events| - 1].Eval? then events[|events| - 1].now
    else LatestTime(events[..|events| - 1], default)
  }

  lemma {:induction false} LatestIsLatest(events: seq<KeyEvent>, now: int)
    requires forall i :: 0 <= i < |events| && events[i].Eval? ==> events[i].now <= now
    ensures LatestTime(events, now) <= now
  {
    if events != [] { LatestIsLatest(events[..|events| - 1], now); }
  }

  lemma {:induction false} ForgottenDeadlines(events: seq<KeyEvent>, default: int)
    requires SchemaEvents(events) && TimeMovesOn(events)
    ensures var d := Deadline(Log(events));
            RunKey(events).until.None? && d.Some? ==> d.value <= LatestTime(events, default)
  {
    if events != [] {
      var init := events[..|events| - 1];
      LogLast(events);
      ForgottenDeadlines(init, default);
      CounterRefinesHistory(init);
      if events[|events| - 1].Eval? {
        LatestAmong(init, default);
      }
    }
  }

  lemma {:induction false} LatestAmong(events: seq<KeyEvent>, default: int)
    ensures Deadline(Log(events)).Some? ==>
              exists i :: 0 <= i < |events| && events[i].Eval? && events[i].now == LatestTime(events, default)
  {
    if events != [] {
      LogLast(events);
      LatestAmong(events[..|events| - 1], default);
      if events[|events| - 1].Clear? {
        assert Deadline(Log(events)).None?;
      } else {
        assert events[|events| - 1].now == LatestTime(events, default);
      }
    }
  }

  lemma SkipsWhileWaiting(k: KeyState, now: int, policy: RollbackPolicy, probe: ProbeResult)
    ensures Observe(k, Eval(now, policy, probe)).Skipped? <==> Waiting(k, now)
    ensures Waiting(k, now) ==> KeyStep(k, Eval(now, policy, probe)) == k
  {
  }

  /**
   With time moving on, an evaluation is skipped, with neither probe nor change of state, exactly
   inside the window of the last trigger.
   */
  lemma SkippedExactly(events: seq<KeyEvent>, now: int, policy: RollbackPolicy, probe: ProbeResult)
    requires SchemaEvents(events) && TimeMovesOn(events)
    requires forall i :: 0 <= i < |events| && events[i].Eval? ==> events[i].now <= now
    ensures var e, d := Eval(now, policy, probe), Deadline(Log(events));
            && (Observe(RunKey(events), e).Skipped? <==> d.Some? && d.value > now)
            && (Observe(RunKey(events), e).Skipped? ==> KeyStep(RunKey(events), e) == RunKey(events))
  {
    CounterRefinesHistory(events);
    ForgottenDeadlines(events, now);
    LatestIsLatest(events, now);
    SkipsWhileWaiting(RunKey(events), now, policy, probe);
  }

  // ---------------------------------------------------------------- how often rollback can trigger

  ghost predicate IsTrigger(o: Observation) {
    o.Failed? && o.triggered
  }

  ghost function CountFailed(log: seq<Observation>): nat {
    if log == [] then 0 else CountFailed(log[..|log| - 1]) + if log[|log| - 1].Failed? then 1 else 0
  }

  /** Entries `i` and `j` are triggers with neither a trigger nor a clear between them. */
  ghost predicate Consecutive(log: seq<Observation>, i: nat, j: nat) {
    i < j < |log| && IsTrigger(log[i]) && IsTrigger(log[j]) &&
    forall m :: i < m < j ==> !IsTrigger(log[m]) && !log[m].Cleared?
  }

  lemma {:induction false} SinceTrigger(log: seq<Observation>, i: nat)
    requires i < |log| && IsTrigger(log[i])
    requires forall m :: i < m < |log| ==> !IsTrigger(log[m]) && !log[m].Cleared?
    ensures Deadline(log) == Some(log[i].now + log[i].cooldown)
    ensures Trail(log) <= CountFailed(log[i + 1..])
    decreases |log|
  {
    if i < |log| - 1 {
      var init := log[..|log| - 1];
      SinceTrigger(init, i);
      assert log[i + 1..][..|log| - i - 2] == init[i + 1..];
      assert log[i + 1..][|log| - i - 2] == log[|log| - 1];
    }
  }

  /** At a trigger the window of the trigger before is over, and the trailing run is long enough. */
  lemma AtTrigger(events: seq<KeyEvent>, j: nat)
    requires SchemaEvents(events) && TimeMovesOn(events)
    requires j < |events| && IsTrigger(Log(events)[j])
    ensures var before, o := Log(events)[..j], Log(events)[j];
            && Trail(before) + 1 >= o.threshold
            && (Deadline(before).Some? ==> Deadline(before).value <= o.now)
  {
    var past, e := events[..j], events[j];
    LogPrefix(events, j);
    LogPrefix(events, j + 1);
    assert events[..j + 1][..j] == past;
    LogLast(events[..j + 1]);
    assert Log(events)[j] == Log(events)[..j + 1][j] == Observe(RunKey(past), e);
    SkippedExactly(past, e.now, e.policy, e.probe);
    TriggerExactly(past, e.now, e.policy, e.probe);
  }

  /**
   Rate bound: between consecutive triggers of one Route lie its whole cooldown, and at least as many
   failed probes as the threshold in force at the second trigger.
   */
  lemma RateBound(events: seq<KeyEvent>, i: nat, j: nat)
    requires SchemaEvents(events) && TimeMovesOn(events) && Consecutive(Log(events), i, j)
    ensures var log := Log(events);
            && log[j].now >= log[i].now + log[i].cooldown
            && CountFailed(log[i + 1..j + 1]) >= log[j].threshold
  {
    var log := Log(events);
    AtTrigger(events, j);
    SinceTrigger(log[..j], i);
    assert log[i + 1..j + 1][..j - i - 1] == log[..j][i + 1..];
    assert log[i + 1..j + 1][j - i - 1] == log[j];
  }

  // ---------------------------------------------------------------- interleaved evaluations

  datatype InFlight = Probing(now: int, policy: RollbackPolicy)

  /** The shared maps, and the evaluations that are between their two sections. */
  datatype Shared = Shared(state: CanaryState, pending: map<string, InFlight>)

  datatype SharedEvent =
    | BeginEval(key: string, now: int, policy: RollbackPolicy)
    | FinishEval(key: string, probe: ProbeResult)
    | ClearKey(key: string)

  /** Evaluations and clears of one key never overlap: such an event waits, that is, does nothing. */
  ghost function SharedStep(g: Shared, e: SharedEvent): Shared {
    match e
    case BeginEval(key, now, policy) =>
      if key in g.pending || InCooldown(g.state, key, now) then g
      else g.(pending := g.pending[key := Probing(now, policy)])
    case FinishEval(key, probe) =>
      if key !in g.pending then g
      else Shared(Record(g.state, key, g.pending[key].now, g.pending[key].policy, probe).0, g.pending - {key})
    case ClearKey(key) =>
      if key in g.pending then g else g.(state := ClearState(g.state, key))
  }

  ghost function RunShared(events: seq<SharedEvent>): Shared {
    if events == [] then Shared(NO_CANARY_STATE, map[])
    else SharedStep(RunShared(events[..|events| - 1]), events[|events| - 1])
  }

  /** The serial events of one key: an evaluation counts when it is skipped or when it finishes. */
  ghost function Serial(events: seq<SharedEvent>, key: string): seq<KeyEvent> {
    if events == [] then []
    else
      var init, e := events[..|events| - 1], events[|events| - 1];
      var g := RunShared(init);
      Serial(init, key) + (
        if e.key != key then []
        else match e
             case BeginEval(_, now, policy) =>
               if key !in g.pending && InCooldown(g.state, key, now) then [Eval(now, policy, NO_PROBE)] else []
             case FinishEval(_, probe) =>
               if key in g.pending then [Eval(g.pending[key].now, g.pending[key].policy, probe)] else []
             case ClearKey(_) => if key in g.pending then [] else [Clear])
  }

  lemma RecordIsKeyStep(s: CanaryState, key: string, now: int, policy: RollbackPolicy, probe: ProbeResult)
    requires policy.threshold >= 1 && !InCooldown(s, key, now)
    ensures View(Record(s, key, now, policy, probe).0, key) == KeyStep(View(s, key), Eval(now, policy, probe))
    ensures Record(s, key, now, policy, probe).1 <==>
            (probe.Answered? ==> probe.status >= 500) && CountOf(s, key) + 1 >= policy.threshold && Window(policy) > 0
    ensures forall other :: other != key ==> View(Record(s, key, now, policy, probe).0, other) == View(s, other)
  {
  }

  ghost predicate SchemaShared(events: seq<SharedEvent>) {
    forall i :: 0 <= i < |events| && events[i].BeginEval? ==> events[i].policy.threshold >= 1
  }

  /**
   Serialisability: in any interleaving of critical sections each key's count and deadline are those
   of a serial run of that key alone; other keys never show.
   */
  lemma {:induction false} ProjectsToSerialRun(events: seq<SharedEvent>, key: string)
    requires SchemaShared(events)
    ensures var g, k := RunShared(events), RunKey(Serial(events, key));
            && View(g.state, key) == k
            && (key in g.pending ==> g.pending[key].policy.threshold >= 1 && !Waiting(k, g.pending[key].now))
  {
    if events != [] {
      var init, e := events[..|events| - 1], events[|events| - 1];
      ProjectsToSerialRun(init, key);
      ProjectsToSerialRun(init, e.key);
      var g, before := RunShared(init), Serial(init, key);
      if e.FinishEval? && e.key in g.pending {
        RecordIsKeyStep(g.state, e.key, g.pending[e.key].now, g.pending[e.key].policy, e.probe);
      }
      var tail := Serial(events, key)[|before|..];
      assert Serial(events, key) == before + tail;
      if tail != [] {
        assert |tail| == 1 && (before + tail)[..|before|] == before;
        assert RunKey(before + tail) == KeyStep(RunKey(before), tail[0]);
      } else {
        assert before + tail == before;
      }
    }
  }

  /** What a finishing evaluation reports is what the serial evaluation reports. */
  lemma FinishReportsSerialResult(events: seq<SharedEvent>, key: string, probe: ProbeResult)
    requires SchemaShared(events) && key in RunShared(events).pending
    ensures var p, k := RunShared(events).pending[key], RunKey(Serial(events, key));
            var o := Observe(k, Eval(p.now, p.policy, probe));
            Record(RunShared(events).state, key, p.now, p.policy, probe).1 <==>
            IsTrigger(o) && Window(p.policy) > 0
  {
    ProjectsToSerialRun(events, key);
    var g := RunShared(events);
    RecordIsKeyStep(g.state, key, g.pending[key].now, g.pending[key].policy, probe);
  }
}
