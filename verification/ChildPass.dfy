/**
 One pass over the children of a Route: the list of writes the pass attempts, what each write
 does to the store when API calls may fail, and what the whole pass leaves behind.
 */
module ChildPass {
  import opened RouteApi
  import opened ChildNames
  import opened Translation

  /**
   A stored object: the Route name in the operator's labels (none on objects of other origin), its
   owner reference, and its contents.
   */
  datatype Child = Child(routeLabel: Option<string>, owner: Option<RouteKey>, body: Body)
  type Store = map<ChildKey, Child>

  /** Whose pass it is, and the gateway namespace it writes to. */
  datatype Owner = Owner(key: RouteKey, gatewayNs: string)

  datatype Op =
    | Put(slot: Slot, body: Body)
    | Invalid(slot: Slot)        // the spec cannot be rendered; no API call is made
    | Drop(slots: seq<Slot>)     // deletes in order, giving up at the first error

  function SlotKey(owner: Owner, slot: Slot): ChildKey {
    KeyOf(owner.key, owner.gatewayNs, slot)
  }

  function MakeChild(owner: Owner, slot: Slot, body: Body): Child {
    Child(Some(owner.key.name), if Owned(KindOf(slot)) then Some(owner.key) else None, body)
  }

  function OwnerOf(key: RouteKey, spec: Spec): Owner {
    Owner(key, GatewayRef(spec).ns)
  }

  // ---------------------------------------------------------------- the writes of a pass

  predicate RedirectsOn(spec: Spec) {
    spec.sslRedirect.None? || spec.sslRedirect.value
  }

  predicate OtherVirtualServiceReason(spec: Spec) {
    spec.timeout != "" || spec.cors.Some? || spec.retries.Some?
  }

  predicate NeedsVirtualService(spec: Spec, canary: Option<Canary>) {
    OtherVirtualServiceReason(spec) || canary.Some?
  }

  function PutOrInvalid(slot: Slot, body: Option<Body>): Op {
    if body.Some? then Put(slot, body.value) else Invalid(slot)
  }

  function RuleOps(spec: Spec, canary: Option<Canary>): seq<Op> {
    seq(|spec.rules|, i requires 0 <= i < |spec.rules| => Put(RuleRoute(i), RuleBody(spec, spec.rules[i], canary)))
  }

  function RedirectOps(spec: Spec): seq<Op> {
    var hosts := UniqueHosts(spec.rules);
    if RedirectsOn(spec)
    then seq(|hosts|, i requires 0 <= i < |hosts| => Put(RedirectRoute(i), RedirectBody(spec, hosts[i])))
    else []
  }

  function VirtualOps(ns: string, spec: Spec, canary: Option<Canary>): seq<Op> {
    if NeedsVirtualService(spec, canary) then [Put(Virtual, VirtualServiceBody(ns, spec, canary))] else []
  }

  function TlsOps(ns: string, spec: Spec, canary: Option<Canary>): seq<Op> {
    TlsOpsFor(ns, HttpsBackends(spec.rules, canary))
  }

  function TlsOpsFor(ns: string, backends: seq<Backend>): seq<Op> {
    seq(|backends|, i requires 0 <= i < |backends| => Put(TlsRule(i), DestinationRuleBody(ns, backends[i])))
  }

  function BodySizeOps(spec: Spec): seq<Op> {
    if spec.maxBodySize == "" then []
    else seq(|spec.rules|, i requires 0 <= i < |spec.rules| =>
             PutOrInvalid(BodySize(i), BodyLimitBody(spec, spec.rules[i])))
  }

  function AuthOps(spec: Spec): seq<Op> {
    match spec.auth
    case Some(auth) => [Put(Jwt, RequestAuthenticationBody(spec, auth)), Put(Authz, AuthorizationPolicyBody(spec))]
    case None => [Drop([Jwt, Authz])]
  }

  function RateLimitOps(routeName: string, spec: Spec): seq<Op> {
    match spec.rateLimit
    case Some(limit) => [PutOrInvalid(RateLimiter, TokenBucketBody(routeName, spec, limit))]
    case None => [Drop([RateLimiter])]
  }

  /** The seven stages of a pass, in the order in which it runs them. */
  function Stages(key: RouteKey, spec: Spec, canary: Option<Canary>): (stages: seq<seq<Op>>)
    ensures |stages| == STAGES
  {
    [RuleOps(spec, canary), RedirectOps(spec), VirtualOps(key.ns, spec, canary), TlsOps(key.ns, spec, canary),
     BodySizeOps(spec), AuthOps(spec), RateLimitOps(key.name, spec)]
  }

  const STAGES: nat := 7

  function Flatten(stages: seq<seq<Op>>): seq<Op> {
    if stages == [] then [] else Flatten(stages[..|stages| - 1]) + stages[|stages| - 1]
  }

  function PassOps(key: RouteKey, spec: Spec, canary: Option<Canary>): seq<Op> {
    Flatten(Stages(key, spec, canary))
  }

  lemma {:induction false} InFlatten(stages: seq<seq<Op>>, op: Op)
    ensures op in Flatten(stages) <==> exists i :: 0 <= i < |stages| && op in stages[i]
  {
    if stages != [] {
      var init := stages[..|stages| - 1];
      InFlatten(init, op);
      if i :| 0 <= i < |stages| && op in stages[i] {
        if i < |init| { assert op in init[i]; }
      }
    }
  }

  // ---------------------------------------------------------------- running them

  datatype PassState = PassState(children: Store, calls: nat, written: seq<ChildKey>, failed: bool)

  type Oracle = nat -> ApiOutcome

  const CALM: Oracle := n => Done

  function Begin(children: Store, calls: nat): PassState {
    PassState(children, calls, [], false)
  }

  /** Get, then Create or Update: two calls, either of which may fail. */
  function ExecPut(owner: Owner, st: PassState, slot: Slot, body: Body, oracle: Oracle): PassState {
    if !oracle(st.calls).Done? then st.(calls := st.calls + 1, failed := true)
    else
      var k, outcome := SlotKey(owner, slot), oracle(st.calls + 1);
      PassState(
        if outcome.Applied() then st.children[k := MakeChild(owner, slot, body)] else st.children,
        st.calls + 2,
        if outcome.Done? then st.written + [k] else st.written,
        st.failed || !outcome.Done?)
  }

  function ExecDrop(owner: Owner, st: PassState, slots: seq<Slot>, oracle: Oracle): PassState
    decreases |slots|
  {
    if slots == [] then st
    else
      var outcome := oracle(st.calls);
      var next := st.(children := if outcome.Applied() then st.children - {SlotKey(owner, slots[0])} else st.children,
                      calls := st.calls + 1);
      if outcome.Done? then ExecDrop(owner, next, slots[1..], oracle) else next.(failed := true)
  }

  function Exec(owner: Owner, st: PassState, op: Op, oracle: Oracle): PassState {
    match op
    case Put(slot, body) => ExecPut(owner, st, slot, body, oracle)
    case Invalid(_) => st.(failed := true)
    case Drop(slots) => ExecDrop(owner, st, slots, oracle)
  }

  function Run(owner: Owner, st: PassState, ops: seq<Op>, oracle: Oracle): PassState {
    if ops == [] then st
    else Exec(owner, Run(owner, st, ops[..|ops| - 1], oracle), ops[|ops| - 1], oracle)
  }

  lemma RunAppend(owner: Owner, st: PassState, ops: seq<Op>, op: Op, oracle: Oracle)
    ensures Run(owner, st, ops + [op], oracle) == Exec(owner, Run(owner, st, ops, oracle), op, oracle)
  {
    assert (ops + [op])[..|ops|] == ops;
  }
}
