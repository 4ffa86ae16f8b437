/** The Route resource: spec, status and metadata, as the controller and the webhook read it. */
module RouteApi {

  datatype Option<+T> = None | Some(value: T)

  /** How one API call ended. A lost reply is a call that took effect and yet reported an error. */
  datatype ApiOutcome = Done | Rejected | LostReply
  {
    predicate Applied() { Done? || LostReply? }
  }

  /** What a read returned. */
  datatype Lookup<+T> = Found(value: T) | NotFound | ReadError

  /** Times and durations are nanoseconds, as in Go. */
  const SECOND := 1_000_000_000

  datatype RouteKey = RouteKey(ns: string, name: string)

  // ---------------------------------------------------------------- spec

  datatype Backend = Backend(serviceName: string, servicePort: int, protocol: string)

  datatype HeaderOps = HeaderOps(setTo: map<string, string>, add: map<string, string>, remove: seq<string>)
  datatype Headers = Headers(request: Option<HeaderOps>, response: Option<HeaderOps>)

  datatype Rule = Rule(host: string, path: string, backend: Backend, headers: Option<Headers>)

  datatype RollbackPolicy =
    RollbackPolicy(threshold: int, probePath: string, intervalSeconds: Option<int>, cooldownSeconds: Option<int>)
  datatype Canary = Canary(backend: Backend, weight: int, rollback: Option<RollbackPolicy>)

  datatype Gateway = Gateway(name: string, ns: string)
  datatype Cors = Cors(origins: seq<string>, methods: seq<string>, headers: seq<string>, maxAge: string)
  datatype Retries = Retries(attempts: int, perTryTimeout: string, retryOn: string)
  datatype Auth = Auth(issuer: string, jwksUri: string, audiences: seq<string>, forwardOriginalToken: Option<bool>)
  datatype RateLimit = RateLimit(requestsPerUnit: int, unit: string, burst: Option<int>)

  datatype Spec = Spec(
    rules: seq<Rule>,
    sslRedirect: Option<bool>,
    timeout: string,
    maxBodySize: string,
    cors: Option<Cors>,
    gateway: Option<Gateway>,
    retries: Option<Retries>,
    auth: Option<Auth>,
    rateLimit: Option<RateLimit>,
    canary: Option<Canary>)

  // ---------------------------------------------------------------- status

  datatype Phase = NoPhase | Pending | Provisioning | Active | Degraded

  datatype ConditionType = Ready | Synced | CertificateHealth
  datatype ConditionStatus = IsTrue | IsFalse | IsUnknown

  datatype Reason =
    | RouteConflict | BackendServiceMissing | BackendNoEndpoints
    | NotReady | ReconcileError | ReconcileSuccess | Available
    | GatewayNotFound | CertificateCheckFailed | CertificateSecretMissing | CertificateParseError
    | CertificateNotConfigured | CertificateExpired | CertificateExpiring | CertificateHealthy

  datatype Condition = Condition(
    ctype: ConditionType, status: ConditionStatus, reason: Reason, message: string,
    lastTransition: int, observedGeneration: int)

  datatype Status = Status(phase: Phase, conditions: seq<Condition>, managedResources: nat)

  const NEW_STATUS := Status(NoPhase, [], 0)

  // ---------------------------------------------------------------- the resource

  /** `held` is the operator's finalizer; `foreign` stands for anybody else's finalizers. */
  datatype Route = Route(
    key: RouteKey, created: int, generation: int,
    deleting: bool, held: bool, foreign: bool,
    spec: Spec, status: Status)

  const DEFAULT_GATEWAY_NAME := "istio-gateway"
  const DEFAULT_GATEWAY_NAMESPACE := "istio-system"

  /** The Gateway a spec refers to, with the defaults of the controller filled in. */
  function GatewayRef(spec: Spec): (gw: Gateway)
    ensures gw.name != "" && gw.ns != ""
  {
    match spec.gateway
    case None => Gateway(DEFAULT_GATEWAY_NAME, DEFAULT_GATEWAY_NAMESPACE)
    case Some(g) =>
      Gateway(if g.name != "" then g.name else DEFAULT_GATEWAY_NAME,
              if g.ns != "" then g.ns else DEFAULT_GATEWAY_NAMESPACE)
  }

  /** The Gateway that a spec names, as the API documents it: `istio-gateway` in `istio-system` where it is silent. */
  ghost function GatewayNamed(spec: Spec): Gateway {
    var asked := if spec.gateway.None? then Gateway("", "") else spec.gateway.value;
    Gateway(if asked.name == "" then "istio-gateway" else asked.name,
            if asked.ns == "" then "istio-system" else asked.ns)
  }

  function NormalizePath(path: string): (p: string)
    ensures p != ""
  {
    if path == "" then "/" else path
  }
}
