# Verified model of the Route operator

The Route operator turns one `Route` resource into HTTPRoutes, a VirtualService, DestinationRules,
EnvoyFilters and authentication objects, some of them in another namespace, and keeps the Route's
status, its Prometheus gauges and the canary rollback state in step with them. An admission webhook
and a runtime guard keep two Routes from claiming the same gateway, host and path.

This project models the controller, the webhook and the gauge tables, and proves what they promise
over every input, every pattern of failing API calls and every run.

`dafny verify dfyconfig.toml` checks all of it.

## How the model is built

- `RouteApi`, `Text`, `Lists`: the resource, strings with Go's order and `%d`, duplicate-free lists.
- `ChildNames`, `HeaderTranslation`, `Translation`, `Authorization`, `Routing`: names and contents of the
  generated objects, and what those contents mean for a request.
- `ChildPass` specifies the writes of one pass and what each does to the store when calls fail;
  `ChildWriter.ApiServer` performs them, loop by loop, on a mutable store. `Convergence`, `ExactCount`,
  `StaleChildren` and `StoredObjects` are about the specification; the last says field by field what a served
  Route has in the store.
- `Canary`, `Conflicts`, `Admission`, `Hostnames`, `Certificates`, `BackendHealth`, `RouteStatus`,
  `Metrics`: one component each, methods with the source's loops beside their specification.
- `Reconcile.Pass` specifies a whole pass over Routes, children, canary state and gauges;
  `Reconcile.RouteReconciler` carries it out. `Outcomes` and `Verdicts` say what it leaves and what it tells;
  `ReconcileRuns`, `ProcessTables`, `CanaryRuns`, `ConflictOutcomes` and `Isolation` are about its runs; `Witnesses` has runs that show promises failing.
- `Finalizer` is the finalizer protocol one API call at a time, with users and other passes between
  any two calls; `PassRuns` shows that the passes specified as a whole are runs of it;
  `SafeStates` shows from which states an orphan can still come about, `FinalizerLimits` which steps make one.

An API call ends `Done`, `Rejected`, or with a `LostReply`: it took effect but reported an error. A
pass gets its environment (reads, clock, probe result, the outcome of every call) as a value, so a
statement for all environments covers every failure. What a function computes is stated on the fields of the
spec, the environment and the store, in numbers and literal names, so that the statement does not depend on the
function. Times and durations are integer nanoseconds;
message texts are parameters.

## Findings

Where a natural reading of the code is false the model keeps the code, gives a concrete witness or
the exact condition, and proves the rest.

- A rollback leaves the VirtualService with the canary split unless the spec has a timeout, CORS or
  retries, because the rollback pass then does not write it (`Convergence.RollbackInStore`).
- Objects of dropped rules, hosts and features other than authentication and rate limiting are never
  deleted (`StaleChildren.StaleChildrenExactly`); the HTTPRoute of a dropped rule goes on serving its
  host whatever later passes do (`StaleChildren.DroppedRuleStays`).
- The count of managed resources is the number of the Route's objects after a success exactly if nothing
  was stale before, and after a block exactly if there are no objects: a blocked Route reports zero while
  its objects stay (`Outcomes.CountTellsExactly`, `Witnesses.BlockedButServed`).
- Cleanup selects by a label that has the Route's name without its namespace. Deleting a Route takes away
  the gateway objects, authentication included, of an Active namesake in another namespace that uses the
  same gateway namespace (`Isolation.DeletionTakesExactly`, `Witnesses.NamesakeDeletion`).
- Taking the finalizer off is an update and passes the webhook. It is refused when the Gateway is
  gone or no longer admits the hosts, or when a live Route has meanwhile claimed an identity of the
  one being deleted, which then stays for as long as the rival does
  (`Admission.ReleaseAdmittedExactly`, `Admission.StuckWhileRivalStays`, `Admission.RivalsReachable`).
- If the reply to that update is lost, gauges and canary state of the Route stay in the process,
  because a pass that finds no Route clears nothing (`ProcessTables.LeftoverExactly`,
  `ProcessTables.LeftoverStays`).
- If the reply to a status update is lost, the gauges go on showing the status before, say Active, while
  the store says otherwise (`ProcessTables.MirrorKeptExactly`, `Witnesses.StaleGauges`).
- Objects outlive their Route after an edit of the gateway namespace, after a cleanup whose list calls
  failed and after one whose delete was refused, since cleanup swallows errors. The edit does it between two
  passes, and also during one that has not written yet, because the pass goes on with the Route it has read
  (`FinalizerLimits.OrphanRuns`, four runs; in the two with an edit every call succeeds). Which single steps
  orphan an object is `FinalizerLimits.StepOrphansExactly`. Seen over all continuations an edit is harmless
  exactly if it keeps the gateway namespace, or the Route takes care of nothing alone and no pass of it has
  gateway writes left (`SafeStates.EditHarmlessExactly`; `SafeStates.FailedListHarmlessExactly` and
  `SafeStates.RefusedDeleteHarmlessExactly` are the same for the other two).
- What a Route leaves in a gateway namespace its gateway has been edited away from no later pass over it
  deletes, not even the one that deletes the Route (`Isolation.LeftBehindStays`).
- A condition keeps its old message when only the message changes
  (`RouteStatus.MessageShownExactly`, `RouteStatus.StaleMessage`).
- A contested identity may be served by nobody (`Conflicts.ContestedWithoutWinner`).
- The HTTPRoutes of a Route `x-redirect` and the redirects of a Route `x` in the same namespace have
  the same names (`ChildNames.SharedKeyExactly`).
- The AuthorizationPolicy admits requests that the VirtualService does not serve, unless no rule host is a
  wildcard and each rule's pattern, its star taken off, lies under a rule path for the same host
  (`Authorization.PolicyExactly`); a path ending in a star makes it too wide alone, and not beside a rule
  that covers it (`Authorization.StarAloneAndCovered`). The policy denies `/app` for a rule path `/app/`,
  which the HTTPRoute serves, unless another rule that covers the host admits it: it covers the HTTPRoutes
  exactly if every rule path is the root, or has no trailing slash, or is so admitted without it
  (`Authorization.PolicyCoversExactly`, `Authorization.SlashAloneAndCovered`).
- HTTPRoute and VirtualService read every path but the root differently
  (`Authorization.PrefixesAgreeOnlyAtRoot`). The VirtualService takes the first entry that matches, the
  HTTPRoutes the longest path, so one request can reach two backends. Exactly which lists of rules are routed
  alike is `Routing.RoutedAlikeExactly`; without trailing slashes a rule for `/` beside a rule of that host with
  another backend never is, in whatever order (`Routing.RootAndOtherDiffer`).

## Model

| member | source | states |
|---|---|---|
| Reconcile.RouteReconciler.Reconcile | internal/controller/route_controller.go:89-364 | On mutable Routes, children, canary maps and gauges a pass does exactly what `Pass` says, for every environment: each branch, each early return, the outcome label, requeue delay and error |
| Reconcile.RouteReconciler.FinalizeRoute | internal/controller/route_controller.go:106-125 | Cleanup, finalizer update, then canary state and gauges cleared only if the update was acknowledged |
| Reconcile.RouteReconciler.ReconcileLive | internal/controller/route_controller.go:136-208 | Certificate condition first, then conflicts, then backend health; read errors return without touching status |
| Reconcile.RouteReconciler.ServeRoute | internal/controller/route_controller.go:205-325 | Effective canary, the children pass, and its count and error carried to the status |
| Reconcile.RouteReconciler.SettleRoute | internal/controller/route_controller.go:324-364 | The final status, its update, and the gauges only after it was acknowledged |
| Outcomes.OutcomeMeans | internal/controller/route_controller.go:150-364 | Success means: exactly the target in the store, Active, the closed-form count, gauges to match, and another run after the policy's probe interval in seconds, 30 s by default, none without a policy or with an interval that is not positive. A block means: children unchanged, zero counted, another run after 15 s. Anything else is an error without delay |
| Outcomes.SuccessStores | internal/controller/route_controller.go:219-325 | After a success the store has every object below under its literal name, with label, owner and contents as the fields of the spec ask |
| StoredObjects.RuleObjects | internal/controller/route_controller.go:603-668 | Each rule's HTTPRoute: the Gateway named, host, path, exactly the header edits the rule asks for, and every backend's share, the canary's weight in percent |
| StoredObjects.RedirectObjects | internal/controller/route_controller.go:670-705 | Unless the spec says no, each host has a 301 redirect to https, and no slot redirects anything else |
| StoredObjects.VirtualObject | internal/controller/route_controller.go:707-796 | The VirtualService, whenever timeout, CORS, retries or a canary ask for it: hosts, Gateway, and per rule match, timeout, CORS, retries, header edits and shares |
| StoredObjects.TlsObjects | internal/controller/route_controller.go:1272-1295 | The DestinationRules are for exactly the HTTPS backends, canary included, by cluster name and port |
| StoredObjects.LimitObjects | internal/controller/route_controller.go:1297-1344 | Each rule's host gets the size the spec's numeral denotes |
| StoredObjects.AuthObjects | internal/controller/route_controller.go:1055-1134 | With authentication: issuer, keys, audiences, and tokens handed on unless the spec says no; a stored policy that admits all that is asked for, and no more exactly if every rule is covered. Without: neither object |
| StoredObjects.BucketObject | internal/controller/route_controller.go:1149-1270 | Tokens per second, minute or hour and burst as the spec says; without a rate limit no filter |
| StoredObjects.PassAttributes | internal/controller/route_controller.go:1346-1426 | Whatever fails, passes keep what stands under the Route's names labelled, and owned exactly in its own namespace |
| Outcomes.DeletionLeavesNothing | internal/controller/route_controller.go:106-125 | A deletion whose calls take effect, with its own objects collected by owner, leaves nothing under any of the Route's names |
| Verdicts.FindingIsTold | internal/controller/route_controller.go:150-364 | A conflict, else a missing Service, else an idle one, else what became of the children: phase, count, all three conditions with reason, text, time and generation, gauges and label, as far as the status update took effect or was acknowledged |
| Verdicts.EarlyReturns | internal/controller/route_controller.go:95-152 | A pass that gives up at a read or at the finalizer has done nothing else, with the label of that place |
| Verdicts.UnreadableReturns | internal/controller/route_controller.go:182-185 | So has one whose backends cannot be read |
| Outcomes.ActiveExactly | internal/controller/route_controller.go:150-344 | With no failing call a live Route becomes Active if and only if no earlier live Route claims an identity of its, all backends are ready and the spec can be rendered |
| Outcomes.QuietOnlyWhenDone | internal/controller/route_controller.go:89-364 | A pass returns neither error nor requeue only when the Route is gone, let go, or Active with its children in place |
| Outcomes.UnfailedIsSynchronised | internal/controller/route_controller.go:219-325 | Whatever the calls did, a children pass without error reached the target, with the exact count |
| Outcomes.CountTellsExactly | internal/controller/route_controller.go:154-325 | When the stored count is the number of the Route's objects: after a block if and only if there are none, after success if and only if none was stale |
| Outcomes.BlockHidesObjects | internal/controller/route_controller.go:154-203 | A Route that was Active and is then blocked counts none while its objects are all there |
| Outcomes.BlockedExactly | internal/controller/route_controller.go:150-203 | With all reads succeeding a pass ends in a conflict, or in a backend block, in exactly the stated cases |
| Outcomes.CanaryOffExactly | internal/controller/route_controller.go:205-217 | A pass serves without the canary exactly before the deadline, or when the probe, unanswered or answered with 500 or more, just failed for the threshold-th time in a row |
| Outcomes.ProbeMovesState | internal/controller/route_controller.go:831-902 | What each probe result does: an answer below 500 ends the run, anything else extends it, and at the threshold sets the deadline the policy's seconds ahead, or 300 |
| Outcomes.DeletionMeans | internal/controller/route_controller.go:106-125 | A deletion pass takes away exactly the labelled gateway objects it could list and delete; finalizer, Route, canary state and gauges go exactly as the finalizer update went |
| ReconcileRuns.StatusesAreSound | internal/controller/route_controller.go:154-205 | In every run each stored status is new or one of five tuples, types unique, Active iff Ready iff Synced, Provisioning never stored |
| ReconcileRuns.TransitionTimes | internal/controller/route_controller.go:1438-1460 | In every run a stored condition changes only in a pass over its Route, and then status or reason changes and the transition time is the pass's |
| ReconcileRuns.GaugesAreOneHot | internal/controller/metrics.go:65-97 | In every run the gauge rows of each Route are absent or one-hot in both tables, with a count |
| ProcessTables.GaugesShowLastAcknowledged | internal/controller/metrics.go:65-97 | In every run, whatever is lost, a Route's gauges show the last status whose write was acknowledged since the process last forgot the Route, and nothing if there is none |
| ProcessTables.MirrorKeptExactly | internal/controller/route_controller.go:342-350 | Exactly when a pass keeps the gauges equal to the stored status: no gauges, no lost reply, or an unchanged row |
| ProcessTables.GaugesMirrorStatus | internal/controller/route_controller.go:348-350 | In every run without lost replies a Route's gauges are absent or repeat its stored phase, backend state and count; a Route that is gone has none |
| ProcessTables.LeftoverExactly | internal/controller/route_controller.go:107-125 | The deletion pass leaves gauges or canary state of a gone Route exactly when the finalizer update took effect, nobody else holds the Route, and its reply was lost |
| ProcessTables.LeftoverStays | internal/controller/route_controller.go:97-104 | Such leftovers survive every run without a restart or a Route of that name |
| ConflictOutcomes.PassVerdict | internal/controller/route_controller.go:150-173 | A pass that reads what it needs marks the Route as conflicting if and only if an earlier live Route claims one of its identities |
| ConflictOutcomes.ConflictOutcome | internal/controller/route_controller.go:150-173 | After any passes in any order, a covered live Route is marked exactly if it was conflicted at the start |
| ConflictOutcomes.OrderIndependentConflicts | internal/controller/route_controller.go:551-587 | Two sequences of passes that cover a Route agree on whether it is blocked by a conflict |
| ConflictOutcomes.ActiveRoutesDisjoint | internal/controller/route_controller.go:551-587 | No two covered live Routes in phase Active share an identity |
| Isolation.UnrelatedExactly | internal/controller/route_controller.go:641-679 | Two Routes can never write one object exactly if same-named ones have different gateway namespaces and, within a namespace, neither name is the other's with `-redirect` |
| Isolation.ChildrenStay | internal/controller/route_controller.go:1346-1419 | Objects written for a Route stay as they are through any run whose passes are over Routes that are unrelated by name and current gateway namespace, whatever fails |
| Isolation.ActiveStaysServed | internal/controller/route_controller.go:219-364 | A Route that a pass made Active keeps all its desired objects through such a run |
| Isolation.LeftBehindStays | internal/controller/route_controller.go:1381-1416 | An object in a gateway namespace stays as it is through any run in which no Route of its name has its gateway there when it is reconciled: passes over a Route whose gateway was edited, its deletion included, never delete what it left |
| Isolation.DeletionTakesExactly | internal/controller/route_controller.go:1381-1426 | Exactly when deleting one Route takes away an object written for another: a gateway object, one name, one gateway namespace, list and delete in effect |
| Witnesses.NamesakeDeletion | internal/controller/route_controller.go:1381-1426 | A reachable world in which an untouched Active Route has lost its RequestAuthentication to the deletion of a namesake |
| Witnesses.StaleGauges | internal/controller/route_controller.go:342-350 | A reachable world in which the store says Pending and the gauges say Active |
| Witnesses.BlockedButServed | internal/controller/route_controller.go:177-203 | A reachable world in which the status counts nothing while the Route's objects are there |
| Finalizer.FinalizerBracketsWrites | internal/controller/route_controller.go:106-134 | In every interleaving a pass that writes children has its Route stored with the finalizer, and only a pass whose cleanup is over takes it off |
| Finalizer.GoneExactly | internal/controller/route_controller.go:106-119 | Exactly which steps take a Route out of the store: a delete that nobody holds up, the last foreign finalizer, or the operator's after the others |
| Finalizer.NoOrphanInAnyRun | internal/controller/route_controller.go:1366-1419 | No labelled object in a gateway namespace without a stored, finalizer-holding Route of that name and gateway namespace, over every run that never edits gateway namespaces and whose cleanup calls take effect |
| SafeStates.SafeExactly | internal/controller/route_controller.go:106-134 | The invariant behind it is the weakest: a state with sound passes is one from which no run that meets the hypotheses ever has an orphan if and only if the invariant holds; otherwise a run to an orphan is constructed |
| SafeStates.EditHarmlessExactly | internal/controller/route_controller.go:1381-1387 | After an edit no continuation that meets the hypotheses ever has an orphan exactly if the gateway namespace is kept, or the Route takes care of no object alone and no pass of it has gateway writes left |
| SafeStates.FailedListHarmlessExactly | internal/controller/route_controller.go:1388-1416 | The same of a list that fails: exactly if the pass can no longer update its Route, or the Route takes care alone of no object of the kind that is skipped |
| SafeStates.RefusedDeleteHarmlessExactly | internal/controller/route_controller.go:1388-1416 | The same of a delete that is refused: exactly if the pass can no longer update its Route, or the Route is not alone with the object or comes to its kind again |
| FinalizerLimits.StepOrphansExactly | internal/controller/route_controller.go:106-325 | Exactly which steps of the protocol orphan an object at once: an edit away from objects the Route alone answers for, a write to a gateway namespace nobody of that name answers for, a release with such objects left; every other step never does |
| FinalizerLimits.OrphanRuns | internal/controller/route_controller.go:1366-1419 | Four concrete runs end with an orphan: the gateway edited between passes, the gateway edited during one, the lists failing, the delete refused |
| PassRuns.ServeIsARun | internal/controller/route_controller.go:127-325 | An undisturbed pass over a live Route is a run of the call-by-call protocol with the specified result |
| PassRuns.FinalizeIsARun | internal/controller/route_controller.go:106-119 | So is an undisturbed deletion pass: list and delete kind by kind, then the finalizer update |
| ChildWriter.ApiServer.CreateOrUpdate | internal/controller/route_controller.go:1346-1378 | Get, then create or update: the store, the calls used and the result, for every outcome of the two calls |
| ChildWriter.ApiServer.DeleteInOrder | internal/controller/route_controller.go:1136-1147 | Deletes in order, stopping at the first error |
| ChildWriter.ApiServer.PutTlsRules | internal/controller/route_controller.go:256-275 | The nested loop over rules and backends equals one indexed write per HTTPS backend; the index advances past failures |
| ChildWriter.ApiServer.ReconcileChildren | internal/controller/route_controller.go:219-322 | The seven stages as performed equal the specified pass, and the count is the number of writes that succeeded |
| ChildWriter.ApiServer.CleanupOwnedResources | internal/controller/route_controller.go:1381-1419 | The list-and-delete loops equal `Teardown`, with failed lists skipped and failed deletes passed over |
| Convergence.Convergence | internal/controller/route_controller.go:219-322 | After any number of passes with any failures one failure-free pass yields the original store, disabled keys removed, desired objects overlaid |
| Convergence.Idempotent | internal/controller/route_controller.go:219-322 | A second failure-free pass changes nothing |
| Convergence.OrderIndependent | internal/controller/route_controller.go:219-322 | Any list with the same writes, in any order and repeated, has the same result |
| Convergence.PassFrame | internal/controller/route_controller.go:1346-1378 | Whatever fails, keys that are neither managed nor disabled are untouched |
| Convergence.EachWriteStands | internal/controller/route_controller.go:219-325 | An error of one write never stops another: each object is stored or kept, and counted, as its own two calls went |
| Convergence.DeletesStop | internal/controller/route_controller.go:1136-1147 | Deletes of a switched-off feature are made in order and end with the first that is not acknowledged |
| Convergence.WritesInOrder | internal/controller/route_controller.go:219-322 | A pass goes from the HTTPRoutes to the rate limit, and through each family in order |
| Convergence.HealsDrift | internal/controller/route_controller.go:1346-1378 | Arbitrary damage to managed and disabled keys is undone |
| StaleChildren.TouchedExactly | internal/controller/route_controller.go:219-322 | What a pass desires and what it deletes, object by object, read off the spec |
| StaleChildren.StaleChildrenExactly | internal/controller/route_controller.go:219-322 | An object the spec does not ask for is left exactly if one was there that the pass does not delete either, judged by the spec |
| StaleChildren.DroppedRuleStays | internal/controller/route_controller.go:224-231 | After rules are dropped their HTTPRoutes keep their contents whatever the next pass does |
| Convergence.RollbackInStore | internal/controller/route_controller.go:246-254 | After rollback every HTTPRoute is stable, and the VirtualService is stable if and only if the spec has a timeout, CORS or retries |
| ExactCount.ExactCount | internal/controller/route_controller.go:220-325 | The count is the number of distinct keys written; without error these are all desired keys and their number is the closed form |
| ExactCount.CalmPassSucceedsExactly | internal/controller/route_controller.go:1297-1304 | Without API failures the pass reports an error exactly when the body size or the rate limit unit cannot be rendered |
| ChildNames.SlotKeysInjective | internal/controller/route_controller.go:641-679 | Within one Route no two objects share a key, decimal suffixes and all name families included |
| ChildNames.SharedKeyExactly | internal/controller/route_controller.go:1277-1308 | Exactly when two Routes write one object |
| Canary.CanaryTracker.EvaluateCanaryRollback | internal/controller/route_controller.go:831-902 | Both critical sections on the mutable maps equal `Evaluate` |
| Canary.CanaryTracker.ClearCanaryRuntimeState | internal/controller/route_controller.go:940-950 | Both entries of the key are removed and nothing else |
| Canary.CounterRefinesHistory | internal/controller/route_controller.go:864-891 | In every history of probe results the count is the trailing run of failures (no answer, or 500 and more), below the current threshold after a probe, zero under a deadline, and the deadline is the last trigger's, the cooldown in seconds |
| Canary.TriggerExactly | internal/controller/route_controller.go:864-879 | Rollback triggers exactly when the run of failures reaches the threshold |
| Canary.SkippedExactly | internal/controller/route_controller.go:856-861 | With time moving on an evaluation neither probes nor changes state exactly inside the last trigger's window |
| Canary.RateBound | internal/controller/route_controller.go:847-891 | Between consecutive triggers lie the whole cooldown and at least a threshold of failed probes |
| CanaryRuns.CanaryIsSerial | internal/controller/route_controller.go:205-217 | In every run of the controller a Route's canary state is that of the one-Route machine over its evaluations, deletions and restarts |
| CanaryRuns.CounterInRuns | internal/controller/route_controller.go:864-891 | So in every run the count is the trailing run of failed probes and the deadline the last trigger's |
| CanaryRuns.RateInRuns | internal/controller/route_controller.go:847-891 | And in every run with a clock that moves on rollbacks keep their distance |
| CanaryRuns.GoneIsFresh | internal/controller/route_controller.go:106-125 | In every run without a lost finalizer reply a Route that is gone has no canary state |
| Canary.CountBounded | api/v1alpha1/route_types.go:183-185 | The count never outgrows the 32-bit threshold |
| Canary.ProjectsToSerialRun | internal/controller/route_controller.go:847-891 | Every interleaving of the two critical sections across keys is, key by key, a serial run of that key |
| Canary.FinishReportsSerialResult | internal/controller/route_controller.go:882-902 | A finishing evaluation reports what the serial one reports |
| Canary.KeyTextInjective | internal/controller/route_controller.go:936-938 | The map key tells Routes apart when namespaces have no slash |
| Conflicts.EvaluateRouteConflicts | internal/controller/route_controller.go:551-587 | The nested loops give the lines for exactly the earlier live Routes and shared identities, each once, sorted |
| Conflicts.PrecedesTransitive | internal/controller/route_controller.go:541-549 | Precedence is transitive |
| Conflicts.PrecedesTotal | internal/controller/route_controller.go:541-549 | On different keys exactly one of two Routes precedes the other |
| Conflicts.PrecedesExactly | internal/controller/route_controller.go:541-549 | The order is creation time, then namespace, then name, the strings by their first difference |
| Conflicts.CommonClaimExactly | internal/controller/route_controller.go:514-539 | Two Routes share an identity exactly if they name one Gateway and two of their rules ask for the same host and path, an empty path being the root |
| Conflicts.OneSideBlocked | internal/controller/route_controller.go:565-578 | Of two live Routes with a common identity exactly one blocks the other: the one that comes first in that order |
| Conflicts.TiesBroken | internal/controller/route_controller.go:541-549 | Created in the same second `a/x` blocks `b/x`, and `a/x` blocks `a/y` |
| Conflicts.ConflictTextTells | internal/controller/route_controller.go:566-578 | A line tells the other Route and the identity |
| Conflicts.AtMostOneWinner | internal/controller/route_controller.go:551-587 | Each identity has at most one unblocked live claimant |
| Conflicts.ChainToWinner | internal/controller/route_controller.go:551-587 | From every live Route a chain of reported conflicts ends at an unblocked one |
| Conflicts.EarliestExists | internal/controller/route_controller.go:541-587 | Every claimed identity has an earliest live claimant |
| Conflicts.WinnerExactly | internal/controller/route_controller.go:551-587 | An identity has a winner exactly if its earliest claimant is not blocked on another identity |
| Conflicts.ContestedWithoutWinner | internal/controller/route_controller.go:551-587 | Three Routes where a claimed identity has none |
| Conflicts.GuardSilentExactly | internal/controller/route_controller.go:551-587 | The guard is silent on all live Routes exactly when their claims are pairwise disjoint |
| Admission.AdmittedObject.Default | api/v1alpha1/route_webhook.go:37-48 | Field-by-field defaulting equals `Defaulted` |
| Admission.IdentitiesAgree | api/v1alpha1/route_webhook.go:168-190 | Webhook and controller compute the same identities, defaulting moves none and is idempotent |
| Admission.ValidateRouteConflicts | api/v1alpha1/route_webhook.go:115-152 | One error per other live Route with a common identity, in order |
| Admission.AdmissionKeepsExclusive | api/v1alpha1/route_webhook.go:115-152 | After every serialised request sequence claims of live Routes are disjoint and the runtime guard is silent |
| Admission.CreatedExactly | api/v1alpha1/route_webhook.go:37-76 | A Route is created exactly if its Gateway is there and takes the hosts and no other live Route claims the same, and is stored with the Gateway filled in |
| Admission.EditedExactly | api/v1alpha1/route_webhook.go:50-76 | So is an edit, judged by the new spec |
| Admission.ReleaseAdmittedExactly | api/v1alpha1/route_webhook.go:56-76 | The finalizer-removing update is admitted exactly when the Gateway takes the hosts and no live Route claims an identity |
| Admission.StuckWhileRivalStays | api/v1alpha1/route_webhook.go:56-76 | While a rival stays no run of requests lets the deleted Route go |
| Admission.RivalsReachable | api/v1alpha1/route_webhook.go:130-135 | Such rivals are reachable from an empty server |
| Hostnames.PatternMatchIsLabelMatch | api/v1alpha1/route_webhook.go:218-230 | The string suffix test is the proper-suffix test on dot-separated labels |
| Hostnames.GatewayHostPatterns | api/v1alpha1/route_webhook.go:192-207 | Nothing if a listener is unrestricted, else the hostnames at first occurrence |
| Hostnames.ValidateGatewayHostnames | api/v1alpha1/route_webhook.go:78-113 | The check over deduplicated patterns decides by listeners and labels, and reports every bad rule |
| Hostnames.HostCheckExactly | api/v1alpha1/route_webhook.go:78-113 | Acceptance if and only if the Gateway is there and has no listeners, or one without a hostname, or takes every rule host; otherwise which of these fails, and all offending rules in order |
| Certificates.EvaluateGatewayCertificate | internal/controller/route_controller.go:443-505 | The loops equal the check stated over the list of monitored secrets: first bad one, else earliest expiry |
| Certificates.MonitoredExactly | internal/controller/route_controller.go:443-505 | Monitored are exactly the Secrets that HTTPS listeners refer to, with the Gateway's namespace as default |
| Certificates.ExpiryExactly | internal/controller/route_controller.go:443-505 | Over everything monitored: healthy, expiring, expired and not configured, each if and only if, with 30 days as a number; and the missing Gateway |
| Certificates.FirstUnreadDecides | internal/controller/route_controller.go:463-497 | The first reference, listener by listener, whose Secret is missing, unreadable or unparsable decides the verdict |
| Certificates.SeverityMonotone | internal/controller/helpers.go:56-67 | With fixed inputs an expiry verdict never improves with time, and the others ignore it |
| BackendHealth.EvaluateBackendHealth | internal/controller/route_controller.go:392-432 | Fails exactly on a read error of a referenced Service, else classifies each Service once |
| BackendHealth.UnreadableExactly | internal/controller/route_controller.go:392-432 | The evaluation fails exactly if a Service referred to, canary included, or its endpoints cannot be read |
| BackendHealth.ClassificationExact | internal/controller/route_controller.go:373-432 | Two duplicate-free lists: exactly the Services that are not there, and exactly those there without a ready endpoint |
| BackendHealth.ClassifiedInOrder | internal/controller/route_controller.go:396-431 | Both in the order of first reference |
| RouteStatus.RouteCopy.SetCondition | internal/controller/route_controller.go:1438-1460 | The in-place loop equals `WithCondition` |
| RouteStatus.ConditionSet | internal/controller/route_controller.go:1438-1460 | Types stay unique, other types are untouched, the whole condition is kept or replaced as status and reason say |
| RouteStatus.MessageShownExactly | internal/controller/route_controller.go:1440-1450 | Exactly when a new message is shown |
| RouteStatus.JudgedIsPersistable | internal/controller/route_controller.go:154-205 | Every evaluation yields one of the five tuples and keeps the certificate condition |
| Metrics.MetricTables.SetRoutePhaseMetric | internal/controller/metrics.go:65-73 | The loop sets the whole row |
| Metrics.MetricTables.SetRouteBackendHealthState | internal/controller/metrics.go:75-83 | The loop sets the whole row |
| Metrics.MetricTables.ClearRouteMetrics | internal/controller/metrics.go:89-97 | The loops remove the rows of one Route |
| Metrics.GaugeUpdates | internal/controller/metrics.go:65-97 | Set rows are one-hot, cleared rows are absent, no other Route's rows move |
| Translation.UniqueHostsFromRules | internal/controller/route_controller.go:1462-1472 | The hosts of the rules, each once, at first occurrence |
| Translation.BuildEntries | internal/controller/route_controller.go:710-758 | The loop yields the specified VirtualService entries |
| Translation.TrafficSharesAgree | internal/controller/route_controller.go:603-829 | HTTPRoute and VirtualService entry of a rule carry its host and path and give every backend, by its cluster name, the share the spec asks for |
| Translation.WeightsAreComplete | api/v1alpha1/route_types.go:170-174 | Both weights positive with sum 100; without a canary all traffic to the rule's backend |
| Translation.StableOnly | internal/controller/route_controller.go:603-829 | Without a canary the rule's own backend gets all traffic and nothing else any, in HTTPRoute and VirtualService |
| Authorization.AuthorizationCovers | internal/controller/route_controller.go:1104-1134 | Every request some VirtualService entry matches is admitted by some policy rule |
| Authorization.AuthorizationExact | internal/controller/route_controller.go:1104-1134 | With literal hosts and no path ending in a star exactly those requests |
| Authorization.PolicyExactly | internal/controller/route_controller.go:1104-1134 | The whole policy admits exactly what the VirtualService serves if and only if no rule host is a wildcard and every rule's pattern, its star taken off, lies under a rule path for the same host |
| Authorization.SingleRuleExactly | internal/controller/route_controller.go:1123-1134 | For one rule alone that is: no wildcard host and no path ending in a star |
| Authorization.StarAloneAndCovered | internal/controller/route_controller.go:1123-1134 | A starred path alone makes the policy too wide, the same path beside a rule for `/` does not |
| Authorization.PolicyCoversExactly | internal/controller/route_controller.go:1104-1134 | The whole policy admits every request the HTTPRoutes of the rules serve if and only if each rule path is the root, or has no trailing slash, or is admitted without it by the pattern of some rule that covers the host |
| Authorization.SingleRuleCoversExactly | internal/controller/route_controller.go:1123-1134 | For one rule alone that is: the path is the root or has no trailing slash |
| Authorization.SlashAloneAndCovered | internal/controller/route_controller.go:1123-1134 | `/app/` alone is not covered, beside a rule for `/` it is |
| Authorization.PrefixesAgreeOnlyAtRoot | internal/controller/route_controller.go:712-722 | HTTPRoute and VirtualService serve the same paths only for the root |
| Routing.RoutedAlikeExactly | internal/controller/route_controller.go:603-758 | First matching entry of the VirtualService against longest matching HTTPRoute: every request both serve goes to the same backends in the same shares if and only if any two rules that meet at the end of a path, or just past one, have the same backend |
| Routing.PlainRoutedAlikeExactly | internal/controller/route_controller.go:603-758 | Without trailing slashes: if and only if every rule has the backend of all rules that enclose its path and of the first rule whose path is a prefix of its own |
| Routing.RootAndOtherDiffer | internal/controller/route_controller.go:603-758 | Without trailing slashes, beside a rule for `/` a rule of the same host with another backend makes the outputs differ, in any order |
| Translation.ParseUintRoundTrip | internal/controller/route_controller.go:1301-1304 | A decimal size reads back unchanged, up to 32 bits and no further |
| HeaderTranslation.HeaderEditsAgree | internal/controller/route_controller.go:952-1053 | The sorted filter lists and the Istio maps both make exactly the edits on request and response that the rule asks for |
| HeaderTranslation.FiltersSettled | internal/controller/route_controller.go:952-1051 | At most one filter for the request, then at most one for the response, with entries sorted by name |
| Text.SplitConcat | api/v1alpha1/route_webhook.go:218-230 | Splitting at a dot commutes with joining at one, which the label reading of hostnames needs |
| Text.LessExactly | internal/controller/route_controller.go:541-549 | Go's string order is decided at the first difference, a proper prefix first |
| Text.DecimalStart | internal/controller/route_controller.go:603-668 | Indices are written without leading zeros |

## Left out

- Kubernetes client, caches, manager, leader election, RBAC, events and logs: plumbing. Reads are fresh; each pass sees the store as it is.
- The HTTP probe and its URL: the probe result is a parameter.
- PEM and X.509 parsing: a secret has an expiry or cannot be parsed.
- Translation.BuildEntries: timeouts, CORS ages and retry timeouts are carried as the text they are given in, also where the source drops one that `time.ParseDuration` cannot parse.
- One clock reading per pass, where the source reads the time at each use.
- Envoy filter patches and workload selectors beyond the values they are built from.
- `cleanup_error` as an outcome: the source's cleanup never returns an error.
- Garbage collection by owner reference beyond the one step in `Outcomes.DeletionLeavesNothing`, and convergence of same-named Routes that share a gateway namespace: the code does not provide the second.
- User actions in the middle of a pass are modelled in `Finalizer`, where status is left out; in `ReconcileRuns` passes are atomic.
- Finalizer.NoOrphanInAnyRun: assumes that gateway namespaces are not edited and cleanup calls take effect, because the code fails without either, as FinalizerLimits.OrphanRuns shows. Users who take the operator's finalizer off themselves, who relabel children, or who create objects with its labels are not among the actions; the same holds for `SafeStates` and `FinalizerLimits`.
- Routing.RoutedAlikeExactly: takes a character that occurs in no rule path, which every Route that fits the API server leaves; of HTTPRoutes with equal host and path it lets either be taken; other Routes' objects for the same host are not compared.
- Authorization.PolicyCoversExactly and `Routing`: a request's host is compared with the host of an HTTPRoute as text; what the Gateway makes of a wildcard rule host is not modelled.
- Authorization.AuthorizationExact: a special case of Authorization.PolicyExactly, which has the exact condition.
- ProcessTables.GaugesMirrorStatus: assumes that no reply is lost, because the claim fails without, as Witnesses.StaleGauges shows; ProcessTables.GaugesShowLastAcknowledged holds of every run.
- Canary.ProjectsToSerialRun: evaluations of one Route never overlap, which the work queue guarantees.
- Canary.CounterRefinesHistory: assumes the schema's minimum threshold and a positive cooldown.
- Canary.RateBound, SkippedExactly and TriggerExactly: the same schema bounds; the first two also assume that time does not run backwards.
- Outcomes.CanaryOffExactly and Outcomes.ProbeMovesState: assume a threshold of at least 1 and a positive cooldown, which the schema ensures.
- Translation.WeightsAreComplete: assumes a canary weight of 1 to 99, which the schema ensures.
- Authorization.AuthorizationCovers: assumes, as PolicyExactly, PolicyCoversExactly and `Routing` do, rule paths that are empty or start with a slash.
- Convergence.OrderIndependent: is about failure-free passes; which writes a failing pass performs depends on the order.
- CanaryRuns.CanaryIsSerial: assumes the schema's policies and namespaces without a slash, as the map key needs.
