# AutoSRE: a model of the control loop

AutoSRE watches a Kubernetes cluster. Its Go agent groups signals into incidents (correlator), decides
what may be done about them (policy engine with a rate limiter), edits manifests in a GitOps repository
(remediation actions on a git writer), asks people where the policy says so (approval registry), and
watches whether the incident comes back (verifier); an orchestrator runs one pipeline per closed incident
on a bounded pool. A learner counts the outcomes.

This project models that loop and proves what it guarantees over all inputs, all interleavings and all
runs, including crashes and restarts. Where a promise turns out not to hold, there is the input or the run
that breaks it, and the exact condition under which it holds.

| file | models |
|---|---|
| `Contracts.dfy`, `Text.dfy`, `EventLog.dfy` | shared values, Go string functions, sorted time logs |
| `Store.dfy` | the SQLite tables, with exactly the columns that each upsert overwrites |
| `CircuitBreaker.dfy`, `RateLimit.dfy` | the limiter, and its interleavings, crashes, restarts and database failures |
| `Policy.dfy` | the gates, their meet and its monotonicity |
| `Pipeline.dfy`, `Orchestrator.dfy`, `PoolRuns.dfy`, `Authorisation.dfy`, `Fate.dfy` | one pipeline as a program counter, what it does for which answers, the pool of them, which contains the limiter, runs that attain its bounds, and the pool together with the approval registry |
| `Correlator.dfy`, `CorrelatorRuns.dfy`, `Dedup.dfy`, `Severity.dfy`, `Hydration.dfy` | incidents with write-through and restarts over all runs, their dedup and severity, and failed loads |
| `Verifier.dfy`, `Recovery.dfy`, `Persistence.dfy`, `Targets.dfy` | the recovery check, and its composition with the correlator, for recurrences and for failures that go on |
| `Manifest.dfy`, `GitWriter.dfy`, `EditRuns.dfy` | paths into YAML trees as a lens, edits as transactions, and sequences of edits |
| `Quantity.dfy`, `Remediator.dfy`, `Rollback.dfy` | the actions, and when Apply then Rollback is the identity |
| `Registry.dfy`, `ApprovalRuns.dfy` | the approval registry, and its interleavings |
| `AuditLog.dfy`, `Learner.dfy` | paging through a growing log, counting outcomes |

Code that updates state is a class whose methods are proved against a specification function of the old
state; the state machines and the laws use the same functions. A step of a state machine is one locked
section, one SQL statement, one channel operation or one atomic load. Times are integer milliseconds that
never decrease; fresh IDs, the clock, the answers of collaborators and the failures of files and git are
parameters that may take any value.

Where the code and what is written about it disagree, the model follows the code:

- `agent/internal/orchestrator/orchestrator.go:6` says that the kill switch halts all Apply calls
  immediately. Up to cap(sem) calls still happen, and can (`KillSwitchBoundsApplies`,
  `KillSwitchBoundIsAttained`), which is what `docs/OPERATOR_RUNBOOK.md:90` says.
- `agent/internal/orchestrator/orchestrator.go:203` says that InFlightCount counts running pipelines; it
  counts held IDs, which are more exactly if some task waits or has freed its slot only
  (`InFlightCountIs`), and which the slots do not bound (`HeldIdsAreUnbounded`).
- `agent/internal/policy/circuitbreaker.go:11` says that the limiter trips when the count exceeds the
  maximum; it trips at the maximum, and concurrent checks can still exceed it (`BoundIsAttained`).
- `USAGE_GUIDE.md:509` says that auto-with-approval asks before acting; beside `AutoIffEveryGatePasses`,
  which treats both levels alike, `AutoWithApprovalDecidesLikeFullAuto` shows that no policy can tell them
  apart.
- `agent/internal/contracts/contracts.go:54` says that an incident's severity is the highest among its
  signals; reopening replaces the signals and keeps the severity, and the signal that reopens does not raise
  it (`SeverityIsHighestIff`).
- `agent/internal/notifier/composite.go:26` says that approval requests survive restarts; their rows do,
  and nothing ever reads or removes them (`CrashedRequestsStay`).
- `agent/internal/gitwriter/gitwriter.go:261` says that the original file is restored if the commit fails;
  a failed first write is not restored (`FailedCommitRestoresIff`), and what was staged or committed stays and
  travels with later edits (`FailedCommitIsTakenAlong`, `FailedPushArrivesIff`).
- `agent/internal/gitwriter/manifest.go:97` says that SetField edits one field; it reads the first document
  and writes it back alone, so a manifest of several documents loses the others (`OtherDocumentsKeptIff`).
- `agent/internal/gitwriter/manifest.go:140` says that splitting a path keeps array selectors intact; a dot in
  the name of a container splits the selector too (`ActionFieldsAre`).
- `agent/internal/verifier/verifier.go:43` says that a verification is RECOVERED only if no matching signals
  appear; signals that dedup drops do not appear, and a failure that goes on is sure to be noticed only under
  a condition on the windows (`PersistenceNoticedIff`).

## Model

| member | source | states |
|---|---|---|
| RateLimits.WindowHoldsAtMostBound | agent/internal/policy/circuitbreaker.go:33-75 | for every interleaving of W concurrent decisions, refused inserts, crashes, restarts and failed loads, a window holds at most max + W - 1 AUTO decisions beside those of the same window that a restart forgot while they counted (their event never reached the table, or the load failed); closed windows before the first restart, when nothing is forgotten, half-open ones after |
| RateLimits.BoundIsAttained | agent/internal/policy/circuitbreaker.go:48-64 | the bound max + W - 1 is exact: some run reaches it within one millisecond |
| RateLimits.ConfiguredMaxIffOneWorker | agent/internal/policy/circuitbreaker.go:11-12 | the configured maximum per window holds in all runs of a process exactly when there is one worker |
| RateLimits.SequentialSpacing | agent/internal/policy/circuitbreaker.go:33-75 | with one worker, more than max AUTO decisions that no restart has forgotten span at least the window, whatever was forgotten before, between or after them, and strictly more than the window without a restart, refused inserts or not |
| RateLimits.HalfOpenWindowIsAttained | agent/internal/store/sqlite.go:229-248 | the difference between the two is real: after a restart the strict query drops what eviction keeps, and max + 1 decisions lie exactly one window apart |
| RateLimits.NextKeepsInv | agent/internal/policy/circuitbreaker.go:48-75 | every atomic step keeps the invariant: decisions in the window that are not forgotten and permissions handed out stay together below max + W, the slice accounts for all of the former, and the table for all that were saved |
| CircuitBreakers.EvictedIsWindow | agent/internal/policy/circuitbreaker.go:66-75 | on a sorted slice, eviction keeps exactly the timestamps inside the closed window |
| CircuitBreakers.EvictedKeepsCount | agent/internal/policy/circuitbreaker.go:66-75 | on any slice, sorted or not, eviction loses no timestamp inside the window |
| CircuitBreakers.CircuitBreaker.constructor | agent/internal/policy/circuitbreaker.go:21-31 | out-of-range settings become 5 decisions and 5 minutes, so limit and window are positive |
| CircuitBreakers.CircuitBreaker.Hydrate | agent/internal/policy/circuitbreaker.go:33-44 | the loaded events are appended; a failed load leaves the limiter as it was |
| CircuitBreakers.CircuitBreaker.Evict | agent/internal/policy/circuitbreaker.go:66-75 | the index loop removes exactly the longest prefix older than the cutoff |
| CircuitBreakers.CircuitBreaker.Tripped | agent/internal/policy/circuitbreaker.go:46-53 | fires exactly when at least max decisions lie in the closed window ending now, and records nothing |
| CircuitBreakers.CircuitBreaker.Count | agent/internal/policy/circuitbreaker.go:77-83 | the number of decisions in the closed window ending now |
| CircuitBreakers.CircuitBreaker.Record | agent/internal/policy/circuitbreaker.go:55-64 | appends the decision, keeps the slice sorted and persists exactly one event |
| Stores.Store.RecordCBEvent | agent/internal/store/sqlite.go:221-227 | the log of events only grows |
| Stores.Store.LoadCBEvents | agent/internal/store/sqlite.go:229-248 | the rows strictly after the given time, in order |
| Stores.EventsSinceCounts | agent/internal/store/sqlite.go:229-248 | the loaded list is sorted and misses no row above any later limit |
| Policies.Engine.Evaluate | agent/internal/policy/engine.go:80-203 | the verdict is the meet of all gates taken independently, early returns included; the limiter is consulted only when every other gate passes, and a decision is recorded and persisted exactly when it is AUTO |
| Policies.Engine.JudgeStaticGates | agent/internal/policy/engine.go:87-163 | the gates before the limiter, with their early returns, compute the meet of those gates; an early return is always a BLOCK |
| Policies.Engine.ResolveAutonomy | agent/internal/policy/engine.go:205-232 | the most restrictive of the default level and the overrides that apply |
| Policies.EffectiveAutonomyIsLowest | agent/internal/policy/engine.go:205-232 | that level is one of those that apply, and none of them is more restrictive |
| Policies.Engine.CheckActionAllowList | agent/internal/policy/engine.go:251-286 | lowers the verdict to BLOCK exactly if the failure mode has no rule that lists the action |
| Policies.Engine.CheckBlastRadius | agent/internal/policy/engine.go:288-329 | asks for approval beyond a positive limit or for an unknown action; a limit of zero limits nothing |
| Policies.Engine.CheckProtectedNamespace | agent/internal/policy/engine.go:331-346 | asks for approval exactly in protected namespaces |
| Policies.Decision.Downgrade | agent/internal/policy/engine.go:348-356 | a downgrade is a meet: it never raises the verdict |
| Policies.MeetAllIsMinimum | agent/internal/policy/engine.go:68-70 | the verdict is the minimum of the gates and is attained by one of them |
| Policies.AutoIffEveryGatePasses | agent/internal/policy/engine.go:80-203 | AUTO exactly when, in the terms of the proposal and the configuration, confidence, every level that applies, allow-list, blast radius, namespace and limiter permit it |
| Policies.BlockIff | agent/internal/policy/engine.go:80-203 | BLOCK exactly for a confidence out of range, an action that no rule lists, or "observe" among the levels that apply and no unknown level beside it; nothing but AUTO, REQUIRE_APPROVAL and BLOCK is ever decided |
| Policies.WithinBlastRadiusIff | agent/internal/policy/engine.go:290-328 | only the three known actions have a blast radius, bounded in both directions for replicas, and from above for memory, where a limit is set |
| Policies.StricterPolicyNeverMorePermissive | agent/internal/policy/engine.go:80-203 | for validated configs, a clause-by-clause stricter policy, a tripped limiter or a lower in-range confidence never gives a more permissive verdict |
| Policies.RankOrdersVerdictsExcept | agent/internal/policy/engine.go:234-249 | why validation matters: rank and verdict of two autonomy levels disagree exactly when an unknown level replaces "observe" |
| Policies.DefaultPolicyFailsClosed | agent/internal/policy/config.go:81-99 | the built-in policy is valid and blocks every proposal |
| Policies.AutoWithApprovalDecidesLikeFullAuto | agent/internal/policy/engine.go:117-137 | writing full-auto for auto-with-approval, in the default and in every override, changes the verdict on no proposal |
| Pipelines.WholePipeline | agent/internal/orchestrator/pipeline.go:29-265 | for all answers of all collaborators, the effects of one pipeline are a complete word of the audit grammar under one trace ID, with at most one Apply, at most one message, and one outcome record exactly if diagnosis succeeded, saying truthfully whether Apply succeeded |
| Pipelines.StepKeepsInv | agent/internal/orchestrator/pipeline.go:29-265 | every step of every run stays inside the grammar, which is a separate automaton |
| Pipelines.ApplyIsAuthorised | agent/internal/orchestrator/pipeline.go:100-204 | in any accepted trail, a call of Apply comes after a successful dry run and after AUTO or an APPROVED answer |
| Pipelines.EffectsHappenAtMostOnce | agent/internal/orchestrator/pipeline.go:29-265 | Apply, a message to people and the outcome record each happen at most once |
| Pipelines.TrailIsTruthful | agent/internal/orchestrator/pipeline.go:91-98 | verdict, applied flag and verification of the record are those in the audit trail |
| Pipelines.FinishedPipelineReports | agent/internal/orchestrator/pipeline.go:37-45 | a finished pipeline ends with exactly one truthful record if its diagnosis succeeded, and has none otherwise |
| Pipelines.StepDescends | agent/internal/orchestrator/pipeline.go:29-265 | every pipeline finishes |
| Fates.ApplyIff | agent/internal/orchestrator/pipeline.go:29-265 | for all answers: Apply is called exactly for a diagnosed incident that is AUTO and not tripped, or approved, and passes both kill checks, build and dry run while applying is enabled |
| Fates.VerificationIff | agent/internal/orchestrator/pipeline.go:194-246 | verification follows exactly a successful Apply and one skipped because applying is disabled, and its outcome is logged |
| Fates.MessageIff | agent/internal/orchestrator/pipeline.go:100-262 | people are called exactly if Apply failed or the verifier asks for it, and notified exactly if policy or person refused, or the verifier does not ask |
| Fates.RecordIs | agent/internal/orchestrator/pipeline.go:37-98 | verdict, applied flag and verification of the one record are those of the answers, with AUTO lowered if the limiter trips |
| Pipelines.Orchestrator.RunPipeline | agent/internal/orchestrator/pipeline.go:29-265 | the straight-line code with its deferred report has exactly the effects of the program counter, in order |
| Pipelines.Orchestrator.Decide | agent/internal/orchestrator/pipeline.go:78-154 | the decision stage and its refusals |
| Pipelines.Orchestrator.Ask | agent/internal/orchestrator/pipeline.go:113-144 | only an APPROVED answer lets the pipeline go on; an error or any other answer does not |
| Pipelines.Orchestrator.Rehearse | agent/internal/orchestrator/pipeline.go:156-192 | kill check, build and dry run; any failure ends the pipeline |
| Pipelines.Orchestrator.ApplyGated | agent/internal/orchestrator/pipeline.go:194-226 | Apply only if enabled and, at the re-check, not killed; verification follows a successful or a skipped Apply |
| Pipelines.Orchestrator.ApplyNow | agent/internal/orchestrator/pipeline.go:204-225 | a failed Apply is escalated and not verified |
| Pipelines.Orchestrator.VerifyAndTell | agent/internal/orchestrator/pipeline.go:228-262 | escalates or notifies, one of the two |
| Pools.PoolIsSafe | agent/internal/orchestrator/orchestrator.go:163-190 | in every interleaving executing pipelines never exceed the slots and never share an incident; held IDs are exactly those of waiting, executing and slot-freed tasks; when all are gone, semaphore and registry are empty |
| Pools.KillSwitchBoundsApplies | agent/internal/orchestrator/pipeline.go:159-204 | once the switch is engaged and stays so, at most cap(sem) further Apply calls happen, by distinct pipelines that had already passed the last re-check |
| PoolRuns.KillSwitchBoundIsAttained | agent/internal/orchestrator/pipeline.go:156-204 | that bound is exact: in some run from the start, cap(sem) pipelines apply while the switch is engaged |
| PoolRuns.KillSwitchIsNotImmediate | agent/internal/orchestrator/orchestrator.go:6 | in some run from the start, an Apply comes right after the switch was engaged |
| Pools.LateApply | agent/internal/orchestrator/pipeline.go:198-204 | from any state, a pipeline past its re-check applies although the switch is engaged in between |
| Pools.ApplyPassedItsChecks | agent/internal/orchestrator/pipeline.go:156-204 | in every run, each Apply belongs to a task that found the kill switch off, then applying enabled, then the kill switch off again, in this order |
| Pools.AutoDecisionsAreBounded | agent/internal/orchestrator/orchestrator.go:163-182 | the pool is the limiter's worker pool: the bound of WindowHoldsAtMostBound holds with W = cap(sem) for whole runs of the orchestrator |
| Pools.AdvanceIsLimiterStep | agent/internal/policy/engine.go:165-186 | a step of a pipeline is a step of the limiter or leaves it alone |
| Pools.EveryTrailIsLawful | agent/internal/orchestrator/pipeline.go:29-265 | every pipeline of every interleaving keeps the audit grammar, authorisation and at-most-once effects while flags are toggled |
| Authorisations.ApplyIsBacked | agent/internal/orchestrator/pipeline.go:78-204 | orchestrator, limiter and approval registry together, in every interleaving and through crashes: whenever a task calls Apply, the limiter's history holds an AUTO decision of that very task, or the very request of that task has been resolved successfully with APPROVED |
| Authorisations.AppliesAreCovered | agent/internal/orchestrator/pipeline.go:78-204 | over a whole run there are no more Apply calls than AUTO decisions and successful APPROVED resolutions together: each backs at most one Apply |
| Authorisations.NextKeepsInv | agent/internal/orchestrator/pipeline.go:113-154 | every step keeps that cleared tasks are backed and that requests and decisions belong to one task each |
| Authorisations.NextProjects | agent/internal/orchestrator/orchestrator.go:163-190 | the composition adds no behaviour to the pool or to the registry |
| Authorisations.ApprovalIsResolved | agent/internal/notifier/slack.go:113-160 | an answer that approves has been resolved so under the ID of the asking task |
| Pools.InFlightCountIs | agent/internal/orchestrator/orchestrator.go:203-204 | in every run the number of held IDs is that of waiting, executing and slot-freed tasks, and so that of running pipelines exactly if no task waits or has freed its slot but not its ID |
| PoolRuns.HeldIdsAreUnbounded | agent/internal/orchestrator/orchestrator.go:173-179 | the slots do not bound the held IDs: some reachable state uses no slot and holds any number of IDs |
| Pools.NextKeepsInv | agent/internal/orchestrator/orchestrator.go:163-190 | every step of every goroutine, of the environment and of a crash keeps the pool invariant |
| Pools.InFlightRegistry.TryAcquire | agent/internal/orchestrator/orchestrator.go:215-223 | succeeds exactly if the ID was not held, and then it is |
| Pools.InFlightRegistry.Release | agent/internal/orchestrator/orchestrator.go:225-229 | the ID is no longer held |
| Pools.InFlightRegistry.Count | agent/internal/orchestrator/orchestrator.go:231-235 | the number of held IDs |
| CorrelatorRuns.TableAgreesWithMemory | agent/internal/correlator/correlator.go:163-291 | in every run, with restarts whose load succeeds or finds nothing open, the table has at most one open row per key, each entry agrees with its row on everything but OpenedAt and dedup state, and the open rows are exactly those of open entries |
| CorrelatorRuns.EveryRestartRebuilds | agent/internal/correlator/correlator.go:161-183 | every restart brings back exactly the open incidents, with the row's opening time and no dedup state |
| CorrelatorRuns.RestartRebuildsOpenIncidents | agent/internal/correlator/correlator.go:161-183 | the same for one restart and every order of records: no record overwrites another |
| Hydrations.FailedLoadIsHarmlessIff | agent/internal/correlator/correlator.go:161-183 | after a failed load in any world of any run, every continuation keeps one open row per key exactly if no incident was open at that moment |
| Hydrations.NextSignalSplits | agent/internal/correlator/correlator.go:167-171 | otherwise the next signal of an open incident gives its key a second open row |
| Hydrations.FailedLoadSplitsRun | agent/internal/correlator/correlator.go:167-171 | the run from an empty table in which that happens |
| CorrelatorRuns.OneOpenRowPerKey | agent/internal/store/sqlite.go:71-99 | two open rows with one key are one row |
| CorrelatorRuns.TableOnlyGrows | agent/internal/store/sqlite.go:71-99 | along any run no row disappears, changes its key or its opening time, or lowers its severity |
| CorrelatorRuns.EventsFollowLifecycle | agent/internal/correlator/correlator.go:187-291 | per incident and process life, attempted events are a prefix of (Opened Updated* Closed)* that ends where the entry stands, and the channel carries an ordered selection of them |
| CorrelatorRuns.TimesAreOrdered | agent/internal/correlator/correlator.go:220-289 | OpenedAt <= UpdatedAt <= ResolvedAt <= now, with a whole resolve window before ResolvedAt |
| CorrelatorRuns.SeverityIsHighestUntilReopened | agent/internal/correlator/correlator.go:245-248 | until its first reopening, an incident's severity is the highest among its signals |
| Severities.SeverityNames | agent/internal/correlator/correlator.go:370-380 | so it is "critical" exactly if some signal is, else "warning" exactly if some signal is |
| Severities.ProcessedSeverity | agent/internal/correlator/correlator.go:187-263 | an accepted signal makes an open incident "critical", or from less than that "warning", or leaves its severity alone |
| Severities.SeverityIsGraded | agent/internal/correlator/correlator.go:220-248 | in every run an incident's severity ranks as the higher of its rank at the last opening and the highest rank among the signals after the opening one |
| Severities.SeverityIsHighestIff | agent/internal/contracts/contracts.go:54 | so it is the highest among the signals exactly if the opening signal ranks as the incident did when it was opened, or a later signal ranks at least as high as both |
| Severities.ReopeningRun | agent/internal/correlator/correlator.go:220-231 | for any two signals of one key, the run that opens with the first, closes and reopens with the second; it ends with the highest severity exactly if they rank alike |
| CorrelatorRuns.ReopenedSeverityIsHighestIff | agent/internal/correlator/correlator.go:220-231 | right after a reopening, the severity is the highest exactly if the new signal ranks as the old severity did |
| CorrelatorRuns.NextKeepsInv | agent/internal/correlator/correlator.go:185-291 | every step of every run keeps all of the above, that a row holds signals of its own key only, and that the table only grows |
| Correlators.Correlator.Process | agent/internal/correlator/correlator.go:187-263 | one signal opens, reopens, extends or is dropped; map, row and event change together as the transition function says |
| Correlators.Correlator.ResolveStale | agent/internal/correlator/correlator.go:268-291 | closes exactly the stale open entries, in the order of the map walk |
| Correlators.ResolvedAllCloses | agent/internal/correlator/correlator.go:274-290 | whatever the order, exactly the stale open entries are closed, and no entry changes otherwise |
| Correlators.Correlator.HydrateFromStore | agent/internal/correlator/correlator.go:163-183 | loads the open rows; a failed load changes nothing |
| Correlators.Correlator.ListIncidents | agent/internal/correlator/correlator.go:295-307 | every incident, open or closed, exactly once |
| Correlators.Correlator.Emit | agent/internal/correlator/correlator.go:405-414 | the event is dropped exactly when the buffer is full |
| Correlators.Correlator.Write | agent/internal/correlator/correlator.go:392-403 | an entry, its row and its event change together |
| Stores.Store.UpsertIncident | agent/internal/store/sqlite.go:71-99 | a new incident is inserted; an existing row keeps its key and its opening time |
| Stores.Store.LoadOpenIncidents | agent/internal/store/sqlite.go:101-132 | exactly the open rows, each once |
| DedupWindows.DedupHoldsIff | agent/internal/correlator/correlator.go:220-243 | accepted signals with one key and reason are at least a dedup window apart in every run exactly if the resolve window is at least the dedup window |
| DedupWindows.RunKeepsSpacing | agent/internal/correlator/correlator.go:220-243 | that spacing, through every close and reopen |
| DedupWindows.DroppedIff | agent/internal/correlator/correlator.go:220-243 | in every run a signal is dropped exactly if its incident is open and this process accepted a signal with the same key and reason within the dedup window and since the incident was opened or reopened; then nothing changes |
| DedupWindows.EarlyReopen | agent/internal/correlator/correlator.go:220-231 | the run that breaks it when the resolve window is shorter, with two signals, each processed when it is received |
| DedupWindows.AcceptanceRateIsBounded | agent/internal/correlator/correlator.go:233-243 | at most T / DedupWindow + 1 signals per key and reason are accepted in any span T |
| DedupWindows.KeysSeparateResources | agent/internal/correlator/correlator.go:352-360 | two signals meet in one incident exactly if they are about one resource in one namespace ("" and "cluster" being the same) |
| Targets.AffectedResourcesNameKey | agent/internal/correlator/correlator.go:250-253 | in every run the list of affected resources is exactly the correlation key, or for cluster-scoped resources at most the key and the bare name |
| Targets.AffectedResourcesAreLabels | agent/internal/correlator/correlator.go:250-253 | in every run they are exactly the labels of the incident's signals until it is first reopened, and afterwards include those of all signals but the opening one |
| Targets.TargetIsKey | agent/internal/verifier/verifier.go:166-173 | for incidents of namespaced resources, the verifier's target labels exactly the signals that the correlator puts into that incident |
| Targets.LabelsSplitKeyIff | agent/internal/correlator/correlator.go:362-368 | signals of one incident have different labels exactly if one has no namespace and the other a namespace called "cluster" |
| Verifiers.Verifier.constructor | agent/internal/verifier/verifier.go:21-37 | out-of-range settings are replaced by no delay, five minutes, fifteen seconds and no tolerance |
| Verifiers.Verifier.Verify | agent/internal/verifier/verifier.go:47-140 | the polling loop judges the turns that come as the reference function does; a context done during the grace delay is INCONCLUSIVE, and only RECOVERED needs no escalation |
| Verifiers.OnlyQuietWindowsRecover | agent/internal/verifier/verifier.go:42-44 | only RECOVERED needs no escalation, and it takes a poll at or after the end of the window with no more signals than the threshold |
| Verifiers.FailsTowardEscalation | agent/internal/verifier/verifier.go:42-166 | for all arguments of Verify: RECOVERED takes a grace delay that was waited for and a poll at or after the end of the window with no more signals than the threshold; FAILED takes more at a poll; every other end is INCONCLUSIVE, and only RECOVERED needs no escalation |
| Verifiers.FirstTurnDecides | agent/internal/verifier/verifier.go:83-140 | the verification ends at the first turn at which the context is done, the threshold is passed or the window is over, in this order, given all signals up to then |
| Verifiers.EveryPollCounts | agent/internal/verifier/verifier.go:91-137 | a RECOVERED result contains every signal ID of every poll up to the deciding one, and each poll was within the threshold |
| Verifiers.MergeSignals | agent/internal/verifier/verifier.go:175-187 | the loop yields the merge |
| Verifiers.MergeIds | agent/internal/verifier/verifier.go:175-187 | merging loses no ID and invents no signal |
| Verifiers.RecentSignalsFor | agent/internal/verifier/source.go:47-58 | the nested loops yield the matching signals in order |
| Verifiers.RecentSignalsMember | agent/internal/verifier/source.go:45-58 | a poll sees exactly the matching signals that incidents still hold |
| Recoveries.NoRecurrenceEscapes | agent/internal/verifier/verifier.go:83-94 | correlator and verifier together: if polls are less than a resolve window apart, every poll has observed every recurrence accepted before it, even one that a reopening has thrown away |
| Recoveries.RecurrenceForcesFailure | agent/internal/verifier/verifier.go:83-140 | the result of Verify over the polls of a run contains every recurrence accepted before the deciding poll; it is RECOVERED only if these are within the threshold and FAILED if they are more, so with threshold 0 a single accepted recurrence forces FAILED |
| Recoveries.PollsMissNothingIff | agent/internal/verifier/verifier.go:79-94 | with polls at most a gap apart, no recurrence escapes in any run in which signals are processed after they were received exactly if the gap is shorter than the resolve window |
| Recoveries.RecurrenceEscapes | agent/internal/correlator/correlator.go:220-231 | the run in which one escapes when it is not: both signals are processed in the millisecond in which they are received |
| Recoveries.NotReopened | agent/internal/correlator/correlator.go:220-231 | a recurrence accepted since the last poll cannot have been dropped by a reopening yet |
| Persistences.PersistenceNoticedIff | agent/internal/verifier/verifier.go:83-140 | a failure that goes on, its signals at most a period apart and thinned out by dedup, is found FAILED by every verification that its polls decide exactly if the verification window is longer than (threshold + 1) * (dedup window - 1 ms + period) |
| Persistences.PersistenceForcesFailure | agent/internal/verifier/verifier.go:96-117 | one direction: whatever else arrives, closes or reopens meanwhile |
| Persistences.PersistenceGoesUnnoticed | agent/internal/verifier/verifier.go:119-133 | the other: otherwise there is a run in which a failure that never stopped is called RECOVERED; its polls are those of a regular ticker if the window is a multiple of the poll interval |
| Persistences.EnoughAccepted | agent/internal/correlator/correlator.go:233-248 | after n such spacings at least n signals with IDs of their own have been accepted, through closing and reopening |
| Persistences.ArriveKeepsPace | agent/internal/correlator/correlator.go:187-248 | a signal of the failure is dropped only within a dedup window of the last accepted one |
| Persistences.DefaultsNoticeIff | agent/internal/config/config.go:225-250 | with the default settings: exactly the failures that show at least every four minutes |
| Manifests.SetGetIff | agent/internal/gitwriter/manifest.go:76-132 | set-get: the value set is the value read, exactly unless the path rewrites the name by which it selects its own item |
| Manifests.GetSetIff | agent/internal/gitwriter/manifest.go:76-132 | get-set: writing back what was read restores the tree, exactly unless an integer tag sits on text that does not scan as an integer |
| Manifests.SetSetIff | agent/internal/gitwriter/manifest.go:117-125 | set-set: the second write hides the first, exactly unless the first cost an integer tag that the second would have kept |
| Manifests.SetChangesOnlyItsLeaf | agent/internal/gitwriter/manifest.go:97-132 | setting one scalar leaves every path leading where it led and every other value as it was |
| Manifests.PathsUnmoved | agent/internal/gitwriter/manifest.go:155-218 | the same for paths to any node, not just to scalars |
| Manifests.SelfSelected | agent/internal/gitwriter/manifest.go:162-181 | a path that ends in its own selector's name is not found again unless the name stays |
| Manifests.SplitPathInvertsJoin | agent/internal/gitwriter/manifest.go:140-153 | splitPath inverts joining with dots exactly for parts that are non-empty, trimmed and dot-free |
| Manifests.ParseSelectorIff | agent/internal/gitwriter/manifest.go:220-240 | a path part is a selector exactly if it is key[name=value], where the last bracket may be missing |
| Manifests.FindValueIff | agent/internal/gitwriter/manifest.go:194-204 | a key is found exactly if it is at a key position, and the first such position counts |
| Manifests.FindItemIff | agent/internal/gitwriter/manifest.go:206-218 | the first item of that name is found, and one is found if there is one |
| Manifests.EnterErrors | agent/internal/gitwriter/manifest.go:155-192 | which error a path part gives, exactly |
| Manifests.TagAfterSet | agent/internal/gitwriter/manifest.go:117-125 | the scalar that was set has the new value, and its old tag unless that was integer and the value does not scan |
| Manifests.ScanTakesApart | agent/internal/gitwriter/manifest.go:120-124 | text that scans as an integer starts with white space, a sign and digits that fit 64 bits |
| Manifests.ReadIntScans | agent/internal/gitwriter/manifest.go:120-124 | and every such text scans |
| Manifests.SplitFieldPath | agent/internal/gitwriter/manifest.go:144-153 | the loop yields the split path |
| Manifests.ParseInvertsSelector | agent/internal/gitwriter/manifest.go:220-240 | parsing inverts building key[name=value] for every key without a bracket and every value |
| Manifests.SetShape | agent/internal/gitwriter/manifest.go:111-132 | where a successful set writes, and that it reports the value it replaced |
| GitWriters.Writer.EditField | agent/internal/gitwriter/gitwriter.go:202-259 | finding, planning, dry run, no-op and commit as the edit function says, for every fault |
| GitWriters.Writer.CommitEdit | agent/internal/gitwriter/gitwriter.go:261-322 | write, open, worktree, add, commit and push, with the restoring write after each later failure |
| GitWriters.FailedEditRestoresIff | agent/internal/gitwriter/gitwriter.go:202-322 | an edit that ends in an error or as a dry run or no-op leaves all files byte-identical exactly if nothing was to be written, or neither the first nor the restoring write spoiled the manifest; if nothing was to be written, nothing at all changes |
| GitWriters.FailedCommitRestoresIff | agent/internal/gitwriter/gitwriter.go:277-280 | the same for commit(): a failed first write is not restored |
| GitWriters.SuccessfulEditWritesTree | agent/internal/gitwriter/gitwriter.go:223-258 | success writes exactly the tree that SetField makes, touches no other file, commits that text together with everything that was staged before, and leaves the remote with all commits |
| GitWriters.FailedPushKeepsCommit | agent/internal/gitwriter/gitwriter.go:314-319 | a failed push has restored the file but keeps the local commit |
| GitWriters.OtherDocumentsKeptIff | agent/internal/gitwriter/manifest.go:99-132 | a successful edit keeps the other documents of a multi-document manifest exactly if there are none |
| EditRuns.FailedPushArrivesIff | agent/internal/gitwriter/gitwriter.go:314-319 | over any sequence of edits, an edit whose push failed is on the remote later exactly if some later edit was pushed, although it was reported as failed and its file was put back |
| EditRuns.FailedCommitIsTakenAlong | agent/internal/gitwriter/gitwriter.go:294-312 | an edit that failed at the commit reaches the remote with the next edit that succeeds, whichever manifest that is about, unless its path has been staged anew |
| EditRuns.CommitTakesLastStaged | agent/internal/gitwriter/gitwriter.go:294-312 | every commit holds for every path the last text staged for it, whether or not that edit was reported as failed |
| EditRuns.IndexIsLastStaged | agent/internal/gitwriter/gitwriter.go:294-297 | no failure takes back what was staged |
| EditRuns.CommitsStay | agent/internal/gitwriter/gitwriter.go:299-319 | no later edit loses or rewrites a commit, and the remote never has more than there are |
| GitWriters.Writer.Find | agent/internal/gitwriter/manifest.go:15-50 | the first matching file of the walk, which is of the kind, namespace and name asked for, or none if there is none |
| GitWriters.FindManifest | agent/internal/gitwriter/manifest.go:52-67 | what is found is a match of the walk |
| GitWriters.FindsFirst | agent/internal/gitwriter/manifest.go:15-67 | what is found is the first file whose kind reads as asked up to case, and whose namespace and name read as asked; nothing is found exactly if there is no such file |
| GitWriters.EditReports | agent/internal/gitwriter/gitwriter.go:202-259 | what an edit reports in every case: which error, or file, old and new value and the three flags |
| GitWriters.FirstFailureIsReported | agent/internal/gitwriter/gitwriter.go:263-322 | the error of commit() is that of the first step that failed, and a push fails only with a remote |
| GitWriters.CurrentValueIs | agent/internal/gitwriter/gitwriter.go:124-136 | the current value is what the path reads in the manifest found, and its error the path's error |
| GitWriters.Writer.GetCurrentValue | agent/internal/gitwriter/gitwriter.go:124-136 | the field in the manifest as it is |
| GitWriters.Writer.GetPreviousValue | agent/internal/gitwriter/gitwriter.go:138-198 | the field in the last but one commit of the manifest |
| GitWriters.Writer.SecondVersion | agent/internal/gitwriter/gitwriter.go:168-190 | the walk over the file's commits stops at the second newest |
| Remediators.ScaleDeployment.Apply | agent/internal/remediator/scale.go:62-80 | edits once and remembers the result; a second call changes nothing |
| Remediators.ScaleDeployment.Rollback | agent/internal/remediator/scale.go:82-101 | refuses without Apply, does nothing after a no-op, fails on an unparsable old value, otherwise scales to the parsed one |
| Remediators.PatchHPA.constructor | agent/internal/remediator/patch_hpa.go:31-49 | a minimum that is not positive becomes the default |
| Remediators.PatchHPA.Apply | agent/internal/remediator/patch_hpa.go:71-89 | edits once and remembers the result |
| Remediators.PatchHPA.Rollback | agent/internal/remediator/patch_hpa.go:91-110 | as for scaling, through the constructor's default |
| Remediators.BumpMemoryLimit.Apply | agent/internal/remediator/bump_memory.go:85-103 | reads, bumps and edits once; a failure on the way changes nothing |
| Remediators.BumpMemoryLimit.Rollback | agent/internal/remediator/bump_memory.go:105-126 | writes the remembered text itself |
| Remediators.RollbackDeployment.Apply | agent/internal/remediator/rollback.go:82-100 | sets the known good image, or the previous one in the history |
| Remediators.RollbackDeployment.Rollback | agent/internal/remediator/rollback.go:102-120 | re-applies the replaced image; an empty one falls back to the history |
| Rollbacks.ApplyThenWriteBack | agent/internal/gitwriter/gitwriter.go:202-259 | the general law: after an edit below spec, writing a value back succeeds on the same manifest, restores every other field and file, and restores the tree exactly if the value came back and no integer tag was lost |
| Rollbacks.ScaleRollbackIff | agent/internal/remediator/scale.go:62-101 | Apply then Rollback restores the whole tree exactly if the old count was a canonical decimal |
| Rollbacks.HpaRollbackIff | agent/internal/remediator/patch_hpa.go:71-110 | likewise exactly if the old minimum was canonical and positive |
| Rollbacks.MemoryRollbackRestores | agent/internal/remediator/bump_memory.go:85-126 | the field is restored whatever it held, the tree exactly unless an integer tag was lost |
| Rollbacks.QuantityRollbackRestores | agent/internal/remediator/bump_memory.go:85-126 | the tree is restored for every number with a known suffix |
| Rollbacks.ImageRollbackRestores | agent/internal/remediator/rollback.go:82-120 | Rollback asks for the old image exactly if that was not empty or git agrees that the last different version had it so; then the field is restored, and the tree exactly unless an integer tag was lost |
| Rollbacks.PreviousIsLastCommitted | agent/internal/gitwriter/gitwriter.go:138-198 | after an edit, the previous value is that of the last commit before it that left the file with another text than the edit |
| Rollbacks.PreviousIsOld | agent/internal/gitwriter/gitwriter.go:138-198 | so for a file in step with its history it is the one the edit replaced |
| Rollbacks.StillMatches | agent/internal/gitwriter/manifest.go:52-67 | an edit below spec leaves the manifest matching the resources it matched |
| Rollbacks.ActionFieldsBelowSpec | agent/internal/remediator/bump_memory.go:51-53 | the four actions write below spec and never to a name, whatever the container is called |
| Rollbacks.ActionFieldsAre | agent/internal/remediator/bump_memory.go:51-53 | the fields are spec.replicas, spec.minReplicas, and memory limit and image of the named container; the latter two exactly unless that name contains a dot |
| Rollbacks.ApplyWrites | agent/internal/remediator/scale.go:62-80 | an action that went through has set its field, in the first manifest of its kind, namespace and name, to its value, and changed nothing else |
| Remediators.BackToInteger | agent/internal/remediator/scale.go:82-101 | a rollback of a count needs an integer and writes that integer again, or two for an autoscaler if it is not positive |
| Remediators.AppliedIsEdited | agent/internal/remediator/scale.go:62-80 | an action leaves the repository as its edit does, failed or not, and remembers a result exactly if it succeeded |
| Quantities.BumpQuantity | agent/internal/gitwriter/quantity.go:33-64 | the error order and the result of the reference function |
| Quantities.FindSuffix | agent/internal/gitwriter/quantity.go:42-48 | the first known suffix that the text ends in |
| Quantities.SuffixIsUnique | agent/internal/gitwriter/quantity.go:10-24 | no text ends in two known suffixes, so their order is immaterial |
| Quantities.BumpRoundsUp | agent/internal/gitwriter/quantity.go:33-64 | for every accepted text, fractions included, the result is the least whole number not below value * factor, under the same suffix |
| Quantities.DecimalDenotes | agent/internal/gitwriter/quantity.go:33-66 | digits with a point among them denote the number of all digits divided by ten for each that follows the point |
| Quantities.SignDenotes | agent/internal/gitwriter/quantity.go:33-66 | a sign in front of a number is a sign |
| Quantities.BumpErrors | agent/internal/gitwriter/quantity.go:33-66 | which text or factor is refused, with which error, in which order |
| Quantities.SuffixesDenote | agent/internal/gitwriter/quantity.go:68-87 | the eight suffixes, and how many bytes each stands for |
| Quantities.SuffixedBytes | agent/internal/gitwriter/quantity.go:68-87 | a text before a suffix denotes bytes exactly if it denotes a number, and then the product cut off toward zero |
| Quantities.TruncateIsTowardZero | agent/internal/gitwriter/quantity.go:78 | the conversion to whole bytes cuts off toward zero |
| Quantities.BumpedText | agent/internal/gitwriter/quantity.go:50-63 | the suffix is kept and the number rounded up |
| Quantities.BumpIsTight | agent/internal/gitwriter/quantity.go:26-86 | the output parses back, and its bytes lie in [old * factor, old * factor + one unit) |
| Quantities.BumpIsMonotoneIff | agent/internal/gitwriter/quantity.go:10-64 | less memory in units of u, bumped by no larger a factor, never becomes more than memory in units of v, for all numbers and factors, exactly if v is a multiple of u |
| Quantities.BumpIsMonotone | agent/internal/gitwriter/quantity.go:33-64 | in particular under one suffix |
| Quantities.BumpIsNotMonotoneAcrossUnits | agent/internal/gitwriter/quantity.go:33-64 | but not from Mi to Gi: 1025Mi and 1Gi, bumped by 1.1 |
| Quantities.BumpsCompound | agent/internal/gitwriter/quantity.go:33-64 | k bumps give at least old * factor^k under the same suffix |
| Quantities.ParsedText | agent/internal/gitwriter/quantity.go:66-86 | ParseQuantityBytes inverts writing a number with a suffix |
| Text.ItoaAtoiIff | agent/internal/remediator/scale.go:90-94 | printing a parsed integer gives back its text exactly if that is canonical |
| Text.AtoiDenotes | agent/internal/remediator/scale.go:91-95 | digits with at most one sign are the only texts that parse, and they do unless the number does not fit 64 bits |
| Text.LatinSpaces | agent/internal/gitwriter/manifest.go:147 | what is trimmed off the parts of a path, in Latin-1 |
| Text.LowerEqualIff | agent/internal/gitwriter/manifest.go:61 | lower-casing identifies exactly the texts that differ in case only |
| ApprovalRuns.ResolvedAtMostOnce | agent/internal/notifier/registry.go:73-95 | in every interleaving, with crashes, at most one resolve per request returns true |
| ApprovalRuns.ApprovedOnlyIfResolved | agent/internal/notifier/slack.go:113-157 | RequestApproval answers APPROVED, or anything that is not the system's own DENIED or TIMEOUT, only if a successful resolve of that ID delivered exactly this result before |
| ApprovalRuns.OnlyPostedRequestsAreAnswered | agent/internal/notifier/slack.go:124-157 | an answer other than the DENIED of a failed or cancelled request, a timeout included, is only given to a request that was posted and waited |
| ApprovalRuns.ReturnedLeavesNothing | agent/internal/notifier/registry.go:97-106 | once RequestApproval has returned, its ID is in neither map nor table, then and ever after |
| ApprovalRuns.ChannelIsNeverFull | agent/internal/notifier/registry.go:89-93 | the channel is empty whenever its sender sends: the drop branch is unreachable |
| ApprovalRuns.HeardIffReceived | agent/internal/notifier/slack.go:139-156 | over all runs, a successful resolution is the requester's answer exactly if it was taken out of the channel; if it is still there, the answer is the system's DENIED or TIMEOUT |
| ApprovalRuns.ApprovalMayGoUnheard | agent/internal/notifier/slack.go:139-156 | and both happen: from any moment of the wait, a resolve may succeed with APPROVED and the requester still report a timeout |
| ApprovalRuns.LostRowsStay | agent/internal/notifier/composite.go:26-30 | no step of any continuation removes the row of a lost request |
| ApprovalRuns.CrashedRequestsStay | agent/internal/notifier/composite.go:26-30 | a request that had not returned when the process died stays lost, and its row stays in the table for good |
| ApprovalRuns.ResolveUninterrupted | agent/internal/notifier/registry.go:75-95 | the atomic steps of one resolve compose to the contract of Registry.Resolve |
| ApprovalRuns.NextKeepsInv | agent/internal/notifier/registry.go:45-106 | every atomic step keeps the invariant: one taker per request, filled channels and answers justified by the log |
| Registries.Registry.Register | agent/internal/notifier/registry.go:42-71 | a fresh empty channel under the ID in the map, and the record in the table |
| Registries.Registry.Resolve | agent/internal/notifier/registry.go:73-95 | true exactly if the ID was pending; then it is gone from map and table and the result is in its channel |
| Registries.Registry.Remove | agent/internal/notifier/registry.go:97-106 | gone from map and table, whether it was there or not |
| Registries.Registry.IsExpired | agent/internal/notifier/registry.go:108-117 | unknown or past its deadline |
| Registries.Registry.List | agent/internal/notifier/registry.go:119-136 | exactly the pending requests that have not expired, each once |
| Registries.SlackNotifier.constructor | agent/internal/notifier/slack.go:72-88 | a timeout that is not positive becomes 30 minutes |
| Registries.SlackNotifier.RequestApproval | agent/internal/notifier/slack.go:113-157 | fails closed on missing credentials, failed post, timeout and cancellation; registry and table end as they began |
| Registries.SlackNotifier.HandleInteraction | agent/internal/notifier/slack.go:220-256 | a foreign, unknown or late button changes nothing; only "approve", in any case, approves |
| Registries.BlockNamesRequest | agent/internal/notifier/slack.go:218-227 | the button "approval_" + id is about the request id, and no other button is |
| Registries.IgnoredIff | agent/internal/notifier/slack.go:218-239 | a button is ignored unless it names a pending request in time |
| Registries.ApprovesIff | agent/internal/notifier/slack.go:240-247 | only "approve" approves, in upper, lower or mixed case |
| Registries.Channel.TrySend | agent/internal/notifier/registry.go:89-93 | the non-blocking send into one place |
| Stores.Store.UpsertApproval | agent/internal/store/sqlite.go:134-150 | a new record is inserted; an existing one keeps incident and request time |
| Stores.Store.DeleteApproval | agent/internal/store/sqlite.go:152-155 | the row is gone |
| AuditLogs.PagesAreTheLog | agent/internal/audit/memory_sink.go:24-43 | pages of size L at 0, L, 2L, ... up to the first short one concatenate to the filtered log as it is at the end, whatever is recorded between two pages |
| AuditLogs.PagesSkipIff | agent/internal/audit/memory_sink.go:24-43 | matches are skipped exactly if a client reads on after a short page and finds something |
| AuditLogs.PagesNeverRepeat | agent/internal/audit/memory_sink.go:24-43 | no match is returned by two pages |
| AuditLogs.MemorySink.Query | agent/internal/audit/memory_sink.go:24-43 | the loop with its skip counter and limit returns the page; every event in it is wanted, and without limit and offset every wanted event is in it |
| AuditLogs.AllMatchesWanted | agent/internal/audit/audit.go:70-90 | the matches are exactly the events whose given texts are equal and whose time lies in the closed interval |
| AuditLogs.MemorySink.Record | agent/internal/audit/memory_sink.go:15-21 | appends |
| AuditLogs.MatchingGrows | agent/internal/audit/audit.go:90-92 | a log that grows adds matches only at the end |
| Learners.ComputeStats | learner/learner/aggregator.py:15-51 | the pass over the outcomes computes, per key, independently defined counts |
| Learners.UpperIsIff | learner/learner/aggregator.py:27-33 | an outcome counts for a name exactly if it is that name in whatever case |
| Learners.OrderDoesNotMatter | learner/learner/aggregator.py:15-51 | the statistics depend on the multiset of outcomes only |
| Learners.AttemptsSumToTotal | learner/learner/aggregator.py:22-26 | attempts over all keys sum to the number of outcomes |
| Learners.ResultsWithinAttempts | learner/learner/aggregator.py:26-33 | recovered + failed + inconclusive <= attempts, with equality exactly if every outcome of the key has a known result |
| Learners.KeysSeparateIff | learner/learner/aggregator.py:23 | two failure modes never share a key exactly if neither, followed by a slash, starts the other |

## Left out

- Pools: any number of goroutines may wait for a slot; the run loop of the agent lets only one wait at a time, so the model has more interleavings, not fewer.
- Pools: one pool at a time over one limiter; the web API asking the limiter for its status is the Count step.
- Pools: a worker count that is not positive becomes 5 at construction; the model takes any positive number of slots.
- CorrelatorRuns.TableAgreesWithMemory: speaks of runs in which a load fails only while nothing is open; FailedLoadIsHarmlessIff shows that any other failed load can break it.
- CorrelatorRuns: writes to the table succeed, and the correlator always has a store; reads of the clock just before the lock are taken inside it; row times are not truncated to milliseconds, since all times are milliseconds.
- CorrelatorRuns: closing the event channel at shutdown is not modelled, and CorrelationWindow is never read by the code.
- Contracts.Signal: source, kind, message, labels and raw payload, which no decision depends on.
- Correlators.Correlator.ListIncidents: that the slices are copies is not stated, for values have no aliases.
- Recoveries.NoRecurrenceEscapes: within one process life; a crash ends the verifier too.
- Persistences.PersistenceNoticedIff: signals of the failure are processed in the millisecond in which they are received, and the sweep that closes stale incidents may come at any time or be late; the polls are at most the given gap apart.
- Authorisations: the notifier is the Slack one; without credentials, or with a notifier that fails, the answer is DENIED or an error.
- Verifiers.Verifier.Verify: the turns of the select statement are an input; a slow poll that makes the ticker drop ticks is a longer distance between turns.
- Manifests: trees are values, so aliases and anchors lead nowhere (an alias is neither mapping nor scalar, as in the code) and comments, styles and line numbers are not part of a node.
- Manifests.ParseInvertsSelector: a selector is built with its closing bracket; the code also accepts one without.
- GitWriters: YAML text is a parameter, a pair of functions; that the one or two trees written by an edit and its undoing parse back from their text is a hypothesis of the lemmas that need it (ParsesBack, EditsParse), and the directory walk is a list of files that can be read.
- GitWriters.FindManifest: EqualFold is ASCII only; a null where a string is expected does not match, although the decoder takes it as empty.
- EditRuns: an add that fails stages nothing; that git may refuse a commit that changes nothing is one of the commit failures; files, index and remote change through the writer only.
- GitWriters.Writer.EditField: edits are sequential; two at a time can lose one, and nothing in the code prevents it.
- GitWriters.Writer.GetPreviousValue: the history is a line of commits, each a tree of whole files.
- GitWriters.OtherDocumentsKeptIff: that the text of a tree is one document (IsSingle) is a hypothesis about the YAML library.
- Quantities: numbers are reals, so float rounding, int64 overflow of a bumped value, and exponents, hexadecimal, underscores, infinities and NaN in quantities are not modelled.
- Quantities.BumpIsTight: for whole numbers with a suffix, within 64 bits; for fractions see BumpRoundsUp, whose result is such a number.
- Rollbacks.MemoryRollbackRestores: Rollback meets no faults, and nobody edits the manifest between Apply and Rollback.
- Rollbacks.ScaleRollbackIff: as before; a count that does not parse makes Rollback fail and is covered by the class.
- Policies.Engine.Evaluate: Reason and MatchedRules are text for people; confidence and factors are reals, so NaN is not modelled.
- Policies.DefaultPolicyFailsClosed: reading and parsing the policy file is not modelled.
- Pipelines: buildProposal and the action builder; the pipeline model takes any proposal and any built action, so the blast radius that was judged is not tied to what is applied.
- Pipelines.Orchestrator.RunPipeline: audit sink and learner failures, which the code swallows, and the texts of messages.
- ApprovalRuns: writes to the table succeed and a store is configured; the timer may fire at any moment of the wait, so the bounds hold for every timeout.
- Registries.SlackNotifier.HandleInteraction: request signatures, parsing of the payload and the HTTP answers; lower case is ASCII only.
- Registries.SlackNotifier.RequestApproval: retries of the post, message texts and replaced credentials; one outcome of the post is a parameter.
- AuditLogs.MemorySink.Query: Details of events, and All(), which returns the list itself; the file sink, which ignores Offset.
- Learners.ComputeStats: the rounded success rate and the time stamp of the answer; upper case is modelled for the characters whose upper case is one ASCII letter, which is all that the three names can come from.
- Kubernetes watches, Loki, PagerDuty, the LLM diagnosis, the web UI, the command line, configuration loading, roles and encryption of settings.
- RightSizeMemory and RightSizeCPU: their Rollback restores one of the two fields they write.
