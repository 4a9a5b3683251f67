# WorkloadGuard: a verified model of the check cycle

WorkloadGuard is a macOS daemon that watches the process table. On a timer, and whenever the load average is high,
it takes a snapshot of the system, evaluates the configured policies on it, and runs the actions of those that
trigger: log, notify, sample, or terminate the processes with SIGTERM, a grace period and SIGKILL.

This project models that cycle from the raw kernel answers to the signals sent, as one stack of modules, and proves
what each layer promises to the next and what holds over whole runs.

| module | models |
|---|---|
| `Sysctl` | decoding and scaling of the kernel's byte answers |
| `Collector` | the snapshot builder: four collectors under one mutex, the two indices, parent resolution |
| `Config` | policies and their validation |
| `Cedar`, `Convert` | a small Cedar evaluator on syntax trees; the compilation of policies to Cedar |
| `Engine` | policy evaluation: filters, guards, authorization, priorities |
| `Host` | the operating system: a clock, signals, waits, commands, and the trace of what was done |
| `Executor` | actions, two-phase termination, signals on request |
| `RunLog`, `Daemon` | every run of the daemon; the daemon's own methods |
| `Publication` | concurrent checks and API readers, step by step, in every interleaving |
| `Diagnostics`, `ParentTally` | parent chains, and the tally of parents |
| `Alerts`, `Api`, `AppleScript` | the alert log, API handlers, notification quoting |
| `Lists` | lemmas about sequences |

**How the pieces fit.** A `World` is one complete behaviour of the environment: how much time passes, how each signal
is answered, whether a wait is cancelled, whether a command succeeds, which processes are alive. Nothing is assumed
about it, so a statement for all worlds covers every behaviour. `Host` performs the operations against a world and
records a trace. `RunLog.IsRun` is the transition relation of the daemon, one log entry per decision processed, on a
clock that never goes back. The methods of class `Daemon` keep the invariant that their fields, their metrics and
the host's trace are exactly those of such a run, and that the decisions processed are those of the published
checks, each a possible evaluation of its snapshot. The theorems about all runs therefore hold of every daemon, and
reach from a signal in the trace back to the process list that justified it.

**Conventions.** Code that changes state step by step (collection, evaluation, termination, the daemon, the alert log,
the handlers) is written as methods and classes and proved against specification functions; compilation, decoding
and quoting are functions. Durations and times are nanoseconds. Loads are exact reals instead of 64-bit floats.
`int64(x)` truncates toward zero and saturates outside the range, as it does on arm64; Go leaves that case to the
implementation. Map iteration and the unstable sort are arbitrary choices. The reason text of a decision is kept as
a datatype.

**Where the code and its documentation disagree**, the model follows the code:

- The cooldown is described as the minimum interval between notifications of a policy (`internal/config/config.go:62`).
  An error in any action skips recording the trigger (`internal/daemon/daemon.go:197-211`), so it limits recorded
  triggers only. `RunLog.SuppressedExactly` states exactly when a trigger is suppressed, and
  `RunLog.FailuresEscapeCooldown` that a policy whose notifications do not get through notifies again at every trigger.
- `docs/guides/api.md:64` says that a request with an unknown PID is rejected. The handler drops unknown PIDs and
  rejects only when none is left (`internal/api/handlers.go:163-173`).
- `docs/guides/architecture.md:66` says that the API offers SIGTERM followed by SIGKILL. `Terminate` sends one signal
  per PID, SIGKILL when forced and SIGTERM otherwise (`internal/daemon/daemon.go:301-325`).
- The dry-run mode is described as logging without executing. Diagnostics are captured before the dry-run test
  (`internal/daemon/daemon.go:182-195`), so captures happen in dry-run too; nothing else does (`Daemon.DryRunIsHarmless`).
- SIGKILL goes to every process of the decision that still answers a probe, also when its SIGTERM was refused
  (`internal/policy/executor.go:170`); `Executor.KilledExactlyWhenProbed` states when.
- `Validate` is not called when a configuration is loaded (`internal/config/config.go:130-146`). Without it a policy
  with a threshold of zero or less can trigger without targets, exactly when `Engine.TriggersWithoutTargets` says so.
- Status readers take the read lock twice (`internal/api/server.go:125-126`), so a snapshot can be paired with
  decisions of a later check; `Publication.ReadsCanStraddle` gives such a run for any two published checks, and
  `Publication.ReaderNeverBehind` the bound.

**Cedar.** The default permit makes the generated policies irrelevant to the decision
(`internal/policy/convert.go:24-34`). Taken by themselves they agree with the engine's guards exactly when the
conversion of the load minima to hundredths is exact: `Convert.PermitIsGuardsExactly`.

## Model

| member | source | states |
|---|---|---|
| Sysctl.LittleEndianRoundTrip | internal/platform/sysctl_darwin.go:36-49 | little-endian decoding recovers every number from its bytes, at any width |
| Sysctl.DecodedLoadsFitInt64 | internal/platform/sysctl_darwin.go:31-61 | whatever 20 or more bytes the kernel returns, decoding succeeds and each load times 100 fits a signed 64-bit number; only a negative scale can make a load negative |
| Sysctl.LayoutsDecode | internal/platform/sysctl_darwin.go:44-61 | the scaled averages are recovered from the padded 24-byte layout and from the packed 20-byte one, for every 64-bit scale, zero standing for 2048 |
| Sysctl.FreeBytesNeverWrap | internal/platform/sysctl_darwin.go:91-131 | the 64-bit product for free bytes never wraps; the page count is the first four bytes of the answer, zero when it could not be read |
| Sysctl.DecodingFailsExactly | internal/platform/sysctl_darwin.go:20-33 | the load average fails exactly when unanswered or shorter than 20 bytes, the memory figures exactly when total or page size is unanswered |
| AppleScript.TwoPassesAreOne | internal/platform/notify_darwin.go:24-28 | the two sequential replacements equal one character-by-character map |
| AppleScript.EscapeRoundTrip | internal/platform/notify_darwin.go:24-28 | reading a quoted text, whatever follows it, gives the text back and stops exactly at its last character: no quote inside ends it early |
| AppleScript.EscapeInjective | internal/platform/notify_darwin.go:24-28 | different texts are quoted differently |
| AppleScript.ScriptRoundTrip | internal/platform/notify_darwin.go:13-28 | no title or message changes the shape of the script: parsing it gives both back |
| Collector.Collect | internal/collector/collector.go:60-179 | for every outcome of the four collectors and every order in which they get the mutex: each figure is the one decoded for it, zero or empty when its collector failed, with the list and its indices; and the errors are exactly those of the failed collectors |
| Collector.Collection.CommitLoad | internal/collector/collector.go:76-91 | one critical section: the load average, or one more error and nothing else changed |
| Collector.Collection.CommitCPUCount | internal/collector/collector.go:98-109 | the same for the CPU count |
| Collector.Collection.CommitMemory | internal/collector/collector.go:116-130 | the same for the memory figures |
| Collector.Collection.BuildIndices | internal/collector/collector.go:148-152 | the append loop leaves the grouping by name and the index by PID of the list |
| Collector.Collection.ResolveParents | internal/collector/collector.go:154-160 | the in-place loop looks up every parent name in the index by PID and changes nothing else |
| Collector.Collection.RebuildByName | internal/collector/collector.go:162-166 | the grouping of the list as it is now |
| Collector.Collection.CommitProcesses | internal/collector/collector.go:137-169 | one critical section: the resolved list, its grouping by name, and the index by PID of the unresolved list, or one more error |
| Collector.CollectedIsIndexed | internal/collector/collector.go:60-179 | the index invariant holds of every collected snapshot, also when the process list could not be read |
| Collector.GroupIsFilter | internal/collector/collector.go:162-166 | each group is the in-order subsequence of exactly the processes of the flat list with that name, and a name has a group exactly when some process has it |
| Collector.GroupSizesConserved | internal/collector/collector.go:162-166 | visited in any order, the groups' sizes add up to the length of the list |
| Collector.LastProcessWins | internal/collector/collector.go:149-152 | the index by PID holds exactly the PIDs of the list, each with its last process |
| Collector.ParentNamesResolved | internal/collector/collector.go:154-160 | a resolved parent name is the name of the process indexed under the parent PID, empty when there is none; nothing else changes, and the index keeps the unresolved processes |
| Collector.ProcessesByParent | internal/collector/collector.go:243-251 | exactly the processes with that parent name, in order |
| Collector.ProcessesByNameAndParent | internal/collector/collector.go:254-262 | on collected snapshots, the same as filtering the by-parent result by name |
| Collector.FilterByParents | internal/collector/collector.go:265-278 | exactly the processes with a listed parent, in order |
| Collector.ExcludeByParents | internal/collector/collector.go:281-294 | exactly the processes without a listed parent, in order |
| Config.ValidatePolicy | internal/config/config.go:175-204 | accepts exactly the policies with a process, a positive threshold and one or more of the six actions, and no other; a reported problem is the first one, and true of the policy |
| Config.Validate | internal/config/config.go:149-173 | accepts exactly the valid configurations, whatever the order in which policies are visited; each global error is returned exactly in its case, after the earlier ones |
| Config.ProblemUnique | internal/config/config.go:175-204 | an invalid policy has one reportable problem, so only the choice of policy is open |
| Cedar.ConjunctionHolds | internal/policy/convert.go:78-88 | the joined clauses hold exactly when each clause does, evaluation errors included |
| Convert.ConvertToCedar | internal/policy/convert.go:12-44 | one permit under its name for each policy that is not switched off, the setting being optional, no other, and then the default permit, in whatever order the map is visited |
| Convert.TerminateAlwaysAllowed | internal/policy/convert.go:24-34 | the compiled set allows every terminate request of the daemon, whatever its context |
| Convert.GeneratedPolicyMeaning | internal/policy/convert.go:47-91 | a generated policy matches a request exactly when process, count and scaled load minima fit |
| Convert.GuardsImplyPermit | internal/policy/convert.go:47-91 | without the default permit, passing the engine's guards still implies that the compiled set allows |
| Convert.AllowedByPoliciesExactly | internal/policy/convert.go:47-91 | without the default permit, the compiled set allows a request if and only if some policy that is not switched off has the process, the threshold and the scaled minima reached |
| Convert.TruncatesTowardZero | internal/policy/engine.go:197-199 | the conversion of scaled loads is the nearest integer toward zero, for both signs |
| Convert.PermitBoundsLoads | internal/policy/convert.go:61-76 | a matching generated policy puts every guarded load above its minimum less a hundredth |
| Convert.PermitIsGuardsExactly | internal/policy/convert.go:47-91 | generated policy and engine guards agree on all loads and counts if and only if the conversion to hundredths keeps every load minimum of the policy |
| Convert.GuardsEqualPermit | internal/policy/convert.go:47-91 | one half: with exact minima they agree on every load and count |
| Convert.PermitCanBeWeaker | internal/policy/convert.go:63-75 | the other: for every policy with an inexact minimum, a load that is permitted at every sufficient count and that the guards reject |
| Convert.DecodedLoadsAreTruncated | internal/policy/engine.go:193-201 | loads decoded from any kernel answer reach Cedar under their own attributes as plain truncations, beside process, counts and CPUs: the conversion never saturates |
| Engine.NewEngine | internal/policy/engine.go:34-45 | an engine carries its policies and a compilation of them |
| Engine.SelectProcesses | internal/policy/engine.go:86-121 | the lookup by name and the two optional filters select exactly the processes with an allowed parent |
| Engine.EvaluatePolicy | internal/policy/engine.go:74-178 | the imperative evaluation returns the decision of a linear scan over the flat process list |
| Engine.AuthorizeWithCedar | internal/policy/engine.go:180-214 | the answer is always yes, so the denied branch of evaluation is unreachable |
| Engine.IndexRefinesScan | internal/policy/engine.go:86-121 | on every collected snapshot, evaluation through the index equals the linear scan |
| Engine.DecisionMeaning | internal/policy/engine.go:123-177 | triggered exactly when enough processes have the name and an allowed parent and both loads are reached; the PIDs are exactly theirs, in order, and otherwise none; the reason is exactly the first guard that failed, with its values, and never the denied one |
| Engine.TargetsMatch | internal/policy/engine.go:172-175 | each PID of a decision belongs to a listed process with the policy's name and an allowed parent, while threshold and loads were reached |
| Engine.TargetsExactly | internal/policy/engine.go:86-175 | the PIDs of a triggered decision are exactly those of the listed processes with the policy's name, the parent it requires if any, and none it excludes |
| Engine.NamesByPriority | internal/policy/engine.go:51-58 | each policy once, by nonincreasing priority, ties in any order |
| Engine.Evaluate | internal/policy/engine.go:48-72 | exactly one decision for each policy that is not switched off, the setting being optional, none for the others, and none before one of higher priority |
| Engine.OneDecisionPerEnabledPolicy | internal/policy/engine.go:60-69 | every evaluation holds exactly one decision per enabled policy, by nonincreasing priority |
| Engine.EvaluationsAgree | internal/policy/engine.go:51-69 | two evaluations of one snapshot have the same multiset of decisions and the same sequence of priorities: only ties are open |
| Engine.ValidatedTriggersHaveTargets | internal/config/config.go:175-204 | with a validated configuration, every triggered decision has at least its threshold of one or more PIDs, and only known actions |
| Engine.TriggersWithoutTargets | internal/policy/engine.go:123-175 | a decision triggers without PIDs exactly when nothing matches, the threshold is not positive and the loads are reached |
| Engine.TriggerMonotone | internal/policy/engine.go:86-175 | more processes under unchanged parent names and no lower loads never turn a trigger off; the old PIDs are a subsequence of the new |
| Engine.NewcomersKeepParents | internal/collector/collector.go:154-160 | processes added under PIDs that no old process has as parent leave every old process and its parent name unchanged |
| Engine.TriggersKeptExactly | internal/policy/engine.go:86-175 | newcomers at no lower loads never turn a policy's trigger off if and only if it names a required parent, excludes none, excludes the unknown one, or has no positive threshold |
| Engine.TargetsKeptExactly | internal/policy/engine.go:86-175 | newcomers never take a target away if and only if the policy names a required parent, excludes none, or excludes the unknown one |
| Engine.NewcomersNeverUntrigger | internal/policy/engine.go:86-175 | from the raw process lists on, through collection: triggers and targets are kept, for such a policy always, and for any policy when no old process has a newcomer as its parent |
| Executor.SendTerms | internal/policy/executor.go:138-154 | one SIGTERM attempt per target, in order; the counter is the number delivered |
| Executor.KillSurvivor | internal/policy/executor.go:171-188 | a probe, and a SIGKILL attempt exactly when the probe got through |
| Executor.KillSurvivors | internal/policy/executor.go:168-189 | that for every target in order; the counter is the number of SIGKILLs delivered |
| Executor.ExecuteTerminate | internal/policy/executor.go:124-199 | the events are a two-phase termination, cancelled or complete; the wait lasts exactly the grace period and what the environment adds; both counters equal the delivered signals in the trace |
| Executor.OnlyTargetsSignalled | internal/policy/executor.go:138-189 | only PIDs of the decision are signalled |
| Executor.EveryTargetTermed | internal/policy/executor.go:138-166 | cancelled or not, a SIGTERM is attempted on every target first, in order; a cancelled termination does nothing after the wait |
| Executor.KillsFollowTerms | internal/policy/executor.go:161-188 | a SIGKILL comes only after a wait that was not cancelled, directly after a probe that got through, and at least the grace period after a SIGTERM attempt on the same PID |
| Executor.EveryTargetHandled | internal/policy/executor.go:168-189 | when the wait completes and PIDs are not reused, every target is dead at return, has been sent SIGKILL, or refused a signal in the second phase |
| Executor.KilledExactlyWhenProbed | internal/policy/executor.go:168-188 | when the wait completes, every target is probed and gets SIGKILL exactly when the probe got through, whatever SIGTERM answered |
| Executor.RefusedTermStillKilled | internal/policy/executor.go:146-188 | in every world in which a process refuses SIGTERM and answers probes, it is sent SIGKILL |
| ParentTally.ParentCounts | internal/policy/executor.go:88-100 | the log action's tally, and the same loop of a capture's process tree: the names of exactly the listed parents of the given PIDs, each with the number of its children among them |
| Executor.ExecuteSample | internal/policy/executor.go:239-267 | one sample command for each of the first three targets, in order; failures are not errors |
| Executor.ExecuteSpindump | internal/policy/executor.go:270-293 | one spindump command for the first target, if any |
| Executor.RunAction | internal/policy/executor.go:44-59 | what each kind of action does to the host, and when it is an error; an action is reported unknown exactly when validation does not know it |
| Executor.Execute | internal/policy/executor.go:34-71 | every action runs, in order and also after failures; the errors are those of the failed actions |
| Executor.NoFailures | internal/policy/executor.go:61-70 | no error is returned exactly when no action failed |
| Executor.ErrorFreeExactly | internal/policy/executor.go:34-71 | an execution is error-free if and only if all actions are known, no notification and no diagnosis failed, and no wait was cancelled; all its waits are grace periods |
| Executor.TargetsTermed | internal/policy/executor.go:138-154 | every execution with a terminate action attempts a SIGTERM on each target |
| Executor.RanAllTrace | internal/policy/executor.go:41-64 | over all actions of a decision, only its targets are signalled, only by a terminate action, and every SIGKILL is justified by an earlier SIGTERM |
| Executor.ValidatedExecution | internal/policy/executor.go:57-58 | with a validated configuration no execution reaches the unknown-action case, and it always has targets |
| Executor.TerminatedTargetsHandled | internal/policy/executor.go:34-71 | an error-free execution with a terminate action leaves no target unhandled |
| Executor.TermProcess | internal/policy/executor.go:296-310 | one SIGTERM; a process that is already gone is no error, one that cannot be found is |
| Executor.KillProcess | internal/policy/executor.go:313-327 | the same with SIGKILL |
| Diagnostics.BuildParentChain | internal/diagnostics/diagnostics.go:180-202 | terminates on every index, cyclic or not, with a maximal linked chain ending at the process, no longer than the index |
| Diagnostics.ParentChainUnique | internal/diagnostics/diagnostics.go:180-202 | these properties determine the chain |
| Diagnostics.CollectedChain | internal/diagnostics/diagnostics.go:180-202 | on collected snapshots the chain has distinct PIDs, ends at the requested one and links each parent to its child |
| RunLog.CooldownRespected | internal/daemon/daemon.go:163-211 | in every run a policy fires no sooner than the cooldown after each of its recorded triggers |
| RunLog.SuppressedExactly | internal/daemon/daemon.go:236-253 | a trigger is suppressed exactly when an earlier trigger of its policy was recorded less than the cooldown before |
| RunLog.OutcomeExactly | internal/daemon/daemon.go:154-212 | in every run the outcome of each decision is determined: untriggered, suppressed by a recorded trigger, skipped in dry-run, recorded, or failed because of an unknown action, a failed notification or diagnosis or a cancelled wait |
| RunLog.CapturedExactly | internal/daemon/daemon.go:182-187 | diagnostics are captured once, before the actions, for exactly the decisions past the cooldown that have targets, when a path is configured |
| RunLog.TriggerRateBounded | internal/daemon/daemon.go:163-211 | n recorded triggers of one policy within a window of length W satisfy (n - 1) * cooldown <= W |
| RunLog.FailuresEscapeCooldown | internal/daemon/daemon.go:197-211 | in every run outside dry-run, a policy whose notifications fail is never remembered: every trigger of it, however close, notifies again and fails again |
| RunLog.DryRunRemembersNothing | internal/daemon/daemon.go:189-195 | in dry-run no actions are run and the cooldown memory stays empty |
| RunLog.DryRunCaptures | internal/daemon/daemon.go:182-195 | in dry-run, all that happens for a policy are diagnostic captures |
| RunLog.Accounting | internal/daemon/daemon.go:154-212 | evaluations = untriggered + suppressed + triggers; triggers = dry-run + failed + error-free; recorded = error-free; an action's count = error-free executions times its occurrences in the policy |
| RunLog.ExecutionKillsJustified | internal/daemon/daemon.go:154-212 | in every run each SIGKILL of a policy follows its SIGTERM to that PID by the grace period within the same execution |
| RunLog.RunKillsJustified | internal/daemon/daemon.go:154-212 | and so it does in the sequence of everything done for policies |
| RunLog.SignalHasEntry | internal/daemon/daemon.go:197-203 | each signal of a run comes from an executed decision of the sender that targets the PID and lists the terminate action, within its time |
| RunLog.SignalsRespectCooldown | internal/daemon/daemon.go:163-211 | no signal of a policy comes within the cooldown after a trigger its earlier executions recorded, and none in dry-run |
| RunLog.WaitsAreGrace | internal/policy/executor.go:161-166 | in every run each wait lasts exactly the grace period and what the environment adds, or only the latter when cancelled |
| RunLog.ActedTargetsTermed | internal/policy/executor.go:138-154 | in every run each target of an executed terminate action has a SIGTERM attempted on it |
| RunLog.ExecutedTargetsHandled | internal/daemon/daemon.go:197-211 | in every run, a recorded trigger with a terminate action leaves no target unhandled |
| RunLog.SignalsReachBackToSnapshot | internal/daemon/daemon.go:146-203 | end to end: a signal belongs to an execution, and goes to a PID that the very check which led to this execution found under the policy's name and an allowed parent, with threshold and loads reached |
| RunLog.LoggedDecision | internal/daemon/daemon.go:146-212 | each processed decision is the judgement of an enabled policy on the snapshot of the check its log position belongs to |
| RunLog.InCheckUnique | internal/daemon/daemon.go:154-212 | a log position belongs to one check only |
| RunLog.ValidatedRun | internal/policy/executor.go:57-58 | in every run with a validated configuration no execution meets an unknown action and every trigger has at least its positive threshold of targets |
| RunLog.EntriesCarryPolicyActions | internal/daemon/daemon.go:146-212 | each processed decision carries its policy's configured actions |
| Daemon.Daemon.constructor | internal/daemon/daemon.go:42-62 | a new daemon holds the compiled policies, has published nothing and remembers nothing |
| Daemon.Daemon.IsOnCooldown | internal/daemon/daemon.go:236-246 | true exactly when the remembered trigger is less than the cooldown ago |
| Daemon.Daemon.RecordTrigger | internal/daemon/daemon.go:248-253 | remembers the current time for that policy and changes no other |
| Daemon.Daemon.RecordActions | internal/daemon/daemon.go:205-209 | counts every occurrence of every action once |
| Daemon.Daemon.CaptureDiagnostics | internal/daemon/daemon.go:182-187 | one capture exactly when a path is configured and there are targets |
| Daemon.Daemon.Decide | internal/daemon/daemon.go:154-212 | one round of the decision loop is a legal step of a run; memory, metrics and trace change exactly as its entry says |
| Daemon.Daemon.Act | internal/daemon/daemon.go:197-211 | the actions are run, and exactly an error-free execution is counted and remembered |
| Daemon.Daemon.ProcessDecision | internal/daemon/daemon.go:154-212 | the round extends the run by its entry and keeps the whole-run invariant |
| Daemon.Daemon.ProcessDecisions | internal/daemon/daemon.go:154-212 | all decisions of a check are processed once, in order |
| Daemon.Daemon.Publish | internal/daemon/daemon.go:148-152 | snapshot and decisions are replaced together |
| Daemon.Daemon.RunCheck | internal/daemon/daemon.go:98-217 | nothing at all when a check holds the lock; otherwise exactly one check, of the collected snapshot, with each of its decisions processed, and the lock released |
| Daemon.Daemon.CheckLoadTrigger | internal/daemon/daemon.go:220-234 | a check exactly when the load average could be read and has reached the threshold |
| Daemon.Daemon.OnTick | internal/daemon/daemon.go:88-92 | one delivery of a ticker starts the checks it stands for |
| Daemon.Daemon.Serve | internal/daemon/daemon.go:82-94 | so do all deliveries, in order |
| Daemon.Daemon.Run | internal/daemon/daemon.go:70-95 | the published checks are the startup check, and then one for each periodic tick and for each load poll whose reading reaches the threshold, and no other, in order, each under its trigger and with the snapshot collected for it |
| Daemon.Daemon.Terminate | internal/daemon/daemon.go:301-325 | between checks or between the decisions of one: one signal per PID in order; a PID is reported terminated exactly when one of its signals was delivered or found it gone, and failed exactly when one was not |
| Daemon.PolicySignalsJustified | internal/daemon/daemon.go:98-217 | in every reachable state, a signal sent for a policy was not sent in dry-run, belongs to one execution, and goes back to a process found by the check of that execution |
| Daemon.PolicyKillsJustified | internal/daemon/daemon.go:98-217 | in every reachable state, every SIGKILL of a policy follows its SIGTERM to that PID by the grace period, within one execution |
| Daemon.GraceWaitsExact | internal/policy/executor.go:161-166 | in every reachable state each wait has lasted exactly the grace period and what the environment added |
| Daemon.ValidatedDaemon | internal/daemon/daemon.go:154-212 | in every reachable state with a validated configuration no execution has met an unknown action, and every trigger has had targets |
| Daemon.FailuresNotLimited | internal/daemon/daemon.go:197-211 | in every reachable state, where no command succeeds, a notifying policy is not remembered and every trigger of it notified and failed |
| Daemon.DryRunIsHarmless | internal/daemon/daemon.go:182-195 | in every reachable dry-run state the trace holds only signals on request and diagnostic captures, and no cooldown is remembered |
| Daemon.MetricsBalance | internal/daemon/daemon.go:154-212 | in every reachable state with metrics the counters of each policy balance |
| Daemon.MetricsExact | internal/daemon/daemon.go:154-212 | each counter is a number of log entries: evaluations of all decisions of the policy, triggers of those past the cooldown, and an action's of its error-free executions times its occurrences |
| Publication.InvariantHolds | internal/daemon/daemon.go:98-152 | the invariant of locks, published state and readers holds in every state of every interleaving |
| Publication.OneCheckAtATime | internal/daemon/daemon.go:100-104 | at most one check is past the lock |
| Publication.StoredStateConsistent | internal/daemon/daemon.go:148-152 | outside the write lock the stored decisions are an evaluation of the stored snapshot |
| Publication.ReaderNeverBehind | internal/api/server.go:124-126 | a reader's decisions are never older than its snapshot, and an evaluation of it when nothing was published in between |
| Publication.LockHoldersProceed | internal/daemon/daemon.go:281-293 | the next step of whoever holds a lock on the published state is enabled, and no reader is inside together with a writer |
| Publication.ReadsCanStraddle | internal/api/server.go:124-126 | for any two checks published one after the other, there is a run in which a reader pairs the snapshot of the first with the decisions of the second |
| Alerts.Log.AddAlert | internal/api/server.go:74-84 | appends the alert, evicting the oldest exactly when the log is full |
| Alerts.Log.ClearAlerts | internal/api/server.go:87-97 | removes exactly the alerts of that policy and keeps the order of the rest |
| Alerts.StoredIsSuffix | internal/api/server.go:74-97 | after any requests the log is a suffix, at most 100 long, of the list without eviction, and the whole of it exactly when all evicted alerts have been cleared since |
| Alerts.NothingLostBelowCapacity | internal/api/server.go:74-97 | while the list without eviction never outgrows 100, the log equals it |
| Api.HandleTerminate | internal/api/handlers.go:144-209 | refused exactly when no PID is given or none is in the index; only requested PIDs in the index are signalled; each of them is reported as often as requested and no other is, in order; in dry-run all are failed and no signal is sent |
| Api.InterleavingConserves | internal/daemon/daemon.go:301-325 | the two sides of a report together are exactly the PIDs, with multiplicity |
| Api.GroupForApi | internal/api/handlers.go:89-100 | the handler's own grouping reproduces the grouping by name |
| Api.HandleProcesses | internal/api/handlers.go:82-113 | one response for each group of the collector's index by name, with its processes in order, field by field, and their number; empty before the first snapshot |

## Left out

- Cedar text and its parser: policies are syntax trees, so nothing is claimed about names that contain quotes, and compilation cannot fail.
- The text forms of configuration and durations, defaults, and loading of files.
- Floating-point rounding and NaN: loads are exact reals. Counts are unbounded; the 64-bit widths modelled are those of decoding, free bytes and Cedar numbers.
- The sort and map iteration of Go: any order of the names that respects the priorities is allowed.
- The per-PID loop that reads the process table, and libproc: the list, or its failure, is an input of `Collect`.
- The goroutines of `Collect` are modelled by the order of their critical sections; the snapshot is an immutable value once collected.
- What sample, spindump, top and ps print and where it is written: each sample and spindump is one event, and so is a whole diagnostic capture or diagnose action.
- Context cancellation is the `cancelled` answer of a world to a wait, and the end of the tick sequence in `Run`.
- Gauges of the system metrics, check counts and durations, and the termination counters, which count only signals sent through the API.
- Daemon.Daemon.Terminate: a request that runs between two signals of one execution is not modelled, only one between decisions or checks.
- Publication.LockHoldersProceed: enabledness, not fairness; how long a writer waits for readers is not modelled.
- Executor.EveryTargetHandled: a refused probe or SIGKILL is listed as an outcome, since the code gives up on such a process.
- `app.Check`, which executes actions without dry-run and cooldown: no claim about the daemon extends to it.
- HTTP routing, JSON, WebSocket broadcast, log output, the command line, timestamps, and the handlers that only copy fields.
