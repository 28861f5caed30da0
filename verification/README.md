# Verified model of the assurance engine

SignalRoom keeps watch over a Splunk deployment with durable, read-only assurance runs. This project
models the parts of it whose state outlives a request, and proves what they keep:

- **Runs.** A run is queued, started with a fresh budgeted client, and ends complete, partial, blocked,
  failed or cancelled; a crash or a stop requeues it. `RunMachine` is the transition system,
  `RunBehaviors` what holds of all its behaviours, `RunOutcomes` what each kind of step sets, column by
  column, `RunLimits` and `RunStranding` where the guarantees end, and `AssuranceService` the store, the
  budgeted client and the service in place, each method proved to be the machine's step and to keep its
  invariant.
- **Signals and packages.** A completed run's signals update one row per fingerprint; persistent,
  confirmed, uncovered signals are packaged twelve at a time. `Signals` and `SignalHistory` prove that
  the incremental rows agree with a definition over the whole history of runs, `SignalCouplings` and
  `Redelivery` what follows for partial reads and repeated runs. `Discovery` is the result of a read,
  `SignalLayout` which signals it calls for and `SignalReport` the loops that list exactly those;
  `Scoping`, `TenantHistories`, `DiscoverySignals`, `Packages`, `Response` and `BacklogDrain` add tenants,
  partial reads, coverage and drainage.
- **Audit log.** `Json` is a writer and a reader of JSON text with their round trip, `Redaction` the
  cleaning of metadata, `AuditChain` the hash chain, `AuditLog` the table and its reading order.
- **Retention.** `Retention` is the preview-bound cleanup, `RetentionRows` and `RetentionTimes` which
  storage it lists, said by the times themselves, `RetentionSafety` what it never removes, `RetentionRuns`
  what any number of cleanups do.
- **Model inventory and progress stream.** `ModelInventory` is the drift snapshot of MLTK models,
  `OperationStream` the NDJSON producer and consumer with heartbeats.

`Sorting` and `Common` hold stable sorting, filtering and small shared vocabulary.

## Assumptions

- Code between two suspension points is one step. In particular the wired completion callback
  (`src/splunk_security_agent/app.py:674-683`) never suspends, so completion and callback are one step.
  `RunLimits.SuspendedCallbackBreaksSingleRun` shows what fails otherwise.
- The store's statements do not raise, with one exception: writing notifications after a completion may,
  and then the row is written over as failed within the same step (`RunMachine.OverturnedIsFailed`).
- A crash falls between steps and never splits one: an enqueue by the schedule and the advance of the
  schedule, say, or the two statements of the recovery, happen together or not at all.
- One process and one worker; the clock never runs backwards. Times are integers, in
  seconds throughout.
- SHA-256 is a parameter. Where a property needs it not to collide, only the inputs at hand are named:
  the rows of two logs, two scope keys, one digest and one preview.
- Run ids, generation ids, reverse-migration ids and recovery file names are unique where a statement
  says so; connection aliases and fingerprints contain no bar.

## Where code and expectation differ

- A run without a tenant closes open signals of every tenant, and no other run touches another tenant's
  rows (`Scoping.OtherTenantsRowsAreFramed`, `TenantHistories.TenantlessRunsDoNotProject`). Where all runs
  carry one, tenants cannot tell that there are others (`TenantHistories.TenantsProject`).
- The store counts a run once exactly as long as no run is delivered again after another one
  (`Redelivery.OccurrencesCountRuns`). The engine, the one caller, never delivers a run twice
  (`Redelivery.EngineDeliversOnce`).
- A resolved signal may carry no resolution time, and a persistent one may be neither severe nor repeated:
  exactly after the partial reads `SignalCouplings` names.
- The daily ceiling counts runs, not calls: a run that called Splunk is not counted exactly after the steps
  of `RunLimits.EscapesExactly`, and without them the ceiling holds for real calls too.
- A run whose client factory or binding check raises stays running without an attempt and blocks every
  other run until a restart: exactly those runs, and only until then (`RunStranding.StrandedExactlySince`,
  `RunStranding.StrandedRunBlocksUntilRestart`). Any other running row is being executed
  (`RunStranding.RunningIsExecutedExactly`).
- The `sequence` column of an audit row orders the rows but is not hashed: a renumbering goes unnoticed
  exactly when it keeps the order (`AuditLog.RenumberingUnnoticedExactly`).
- Metadata objects that are not plain JSON, a tuple say, are recorded as their text without being searched
  for sensitive keys (`Redaction.OtherObjectsShow`).
- A cleanup reports exactly what it deleted unless manifest rows of a generation stay behind
  (`Retention.ReportIsExactIffManifestsGo`); a manifest failure that is not an OSError ends it without a
  receipt (`Retention.DeleteAll`).
- An inventory scan stores one entry per model exactly when its rows have distinct ids
  (`ModelInventory.OneEntryPerIdIffDistinctRows`).
- The stream skips a number before an error record exactly when something cannot be written
  (`OperationStream.ClosedStreamIsGaplessIffWritable`); heartbeats are written without the text fallback
  that events have.

## Model

| member | source | states |
|---|---|---|
| Signals.SignalStore.CorrelateSignals | src/splunk_security_agent/assurance/store.py:565-693 | The signal table after a completed run is the specified correlation of the old one, resolution decided from the rows as they read before the run; every fingerprint seen is returned once, and has a row |
| Signals.SignalStore.RecordSightings | src/splunk_security_agent/assurance/store.py:607-682 | The insert-or-update loop, sighting by sighting; a fingerprint this run already wrote is skipped |
| Signals.SignalStore.CloseMissed | src/splunk_security_agent/assurance/store.py:683-692 | Exactly the rows that were open at the start, were not seen and are of a covered kind are closed; no other row changes |
| Signals.CorrelationIsPointwise | src/splunk_security_agent/assurance/store.py:607-692 | Two loops over the whole table amount to one independent rule per fingerprint: its old row, the first sighting of it, and the run |
| Signals.CorrelationIsIdempotent | src/splunk_security_agent/assurance/store.py:614-615 | Correlating the same run twice in a row, at any later time, changes nothing |
| Signals.CorrelationIsOrderFree | src/splunk_security_agent/assurance/store.py:607-692 | Any permutation of a run's distinct signals gives the same table |
| Signals.ResolvedExactlyWhenMissed | src/splunk_security_agent/assurance/store.py:683-692 | A row becomes resolved if and only if the run is authoritative, covers its kind, selected it and did not see it; rows are never removed |
| Signals.CorrelationKeepsRowsSound | src/splunk_security_agent/assurance/store.py:616-692 | Inductive core: resolved rows have streak 0, watching at most 1, persistent at least 1, streak never above occurrences; a resolution time only on resolved rows |
| SignalCouplings.ResolvedWithoutTimeExactly | src/splunk_security_agent/assurance/store.py:635-656 | Over every history of distinct runs: a row is resolved without a resolution time if and only if its last sighting was an untrusted one of a signal closed by then |
| SignalCouplings.PersistentButMildExactly | src/splunk_security_agent/assurance/store.py:618-634 | Over every history of distinct runs: a row is persistent though neither severe nor repeated if and only if the signal is not closed, its streak is one severe trusted sighting, and its last sighting was an untrusted one rated less |
| SignalCouplings.ResolutionTimeCanBeLost | src/splunk_security_agent/assurance/store.py:635-656 | A history of three runs in which it happens |
| SignalCouplings.PersistentCanBeMild | src/splunk_security_agent/assurance/store.py:618-634 | A history of two runs in which it happens |
| SignalHistory.CorrelationRefinesHistory | src/splunk_security_agent/assurance/store.py:596-692 | For every sequence of distinct runs and every fingerprint: a row exists exactly when some run saw it; its streak is the number of authoritative sightings since the last gap, its occurrences all sightings; it is resolved exactly when gapped with no authoritative sighting since, else persistent exactly when the last authoritative sighting was severe or repeated; first and last run, times, kind, severity, title, notes and binding are those of the history; the resolution time is that of the first gap after the last sighting, unless that sighting was an untrusted one of a closed signal |
| SignalHistory.RedeliveredRunIsCountedTwice | src/splunk_security_agent/assurance/store.py:614-615 | Two examples: delivered again at once a run counts once, delivered again after another run it counts twice |
| Redelivery.IgnoredExactlyWhenLast | src/splunk_security_agent/assurance/store.py:614-615 | In every table, a delivered run leaves a signal it sees alone if and only if it was the last run to write its row; otherwise it counts one occurrence more |
| Redelivery.LastRunIsLastSighting | src/splunk_security_agent/assurance/store.py:607-682 | In any history, repeats included, a row exists exactly for the signals seen and names the last run that saw it |
| Redelivery.OccurrencesCountRuns | src/splunk_security_agent/assurance/store.py:614-617 | In any history, repeats included, occurrences are at least the runs that saw the signal, and exactly as many if and only if no run saw it again after another had |
| Redelivery.EngineDeliversOnce | src/splunk_security_agent/assurance/service.py:381-393 | Along every behaviour of the engine each run is handed to the completion callback at most once, and a run handed over is over |
| Redelivery.EngineHistoryIsCountedOnce | src/splunk_security_agent/app.py:674-683 | So the history the engine feeds to correlation has distinct runs, every sighting run counts once, and the rows reflect the history |
| SignalHistory.ClosedSince | src/splunk_security_agent/assurance/store.py:683-692 | With its last sighting at a run, a signal is closed exactly if it was closed then or a gap came later |
| SignalHistory.StreakGrows | src/splunk_security_agent/assurance/store.py:618-625 | How one more run changes the streak read off the history |
| SignalHistory.ClosedGrows | src/splunk_security_agent/assurance/store.py:683-692 | When the history up to one more run leaves the signal closed |
| Scoping.ScopeKeyPinsBinding | src/splunk_security_agent/app.py:674-678 | Scope keys of well-formed bindings are equal only for equal bindings |
| Scoping.ScopeKeyIsAmbiguousWithBars | src/splunk_security_agent/app.py:674-678 | Without that well-formedness two tenants can share a scope key |
| Scoping.ScopesDoNotMeet | src/splunk_security_agent/assurance/store.py:695-704 | Prefixed fingerprints agree only within one scope and for one fingerprint, when the digest separates the two scopes |
| Scoping.CorrelationKeepsKeys | src/splunk_security_agent/assurance/store.py:585-594 | Every row stays keyed under the scope of the binding it was last written with |
| Scoping.OthersRowsAreUnseen | src/splunk_security_agent/assurance/store.py:695-704 | A run never reports a fingerprint under which a row of another tenant stands |
| Scoping.OtherTenantsRowsAreFramed | src/splunk_security_agent/assurance/store.py:597-606 | A run changes a row of another tenant if and only if it carries no tenant itself, is authoritative, covers the kind, and the row is unresolved |
| TenantHistories.OneRunProjects | src/splunk_security_agent/assurance/store.py:596-692 | In any table keyed by scope, a run with a tenant acts on the rows of its tenant as if there were no others, and leaves theirs alone |
| TenantHistories.TenantsProject | src/splunk_security_agent/assurance/store.py:596-704 | Over every history of runs that all carry a tenant, the rows of one tenant are exactly the table its own runs alone would have left |
| TenantHistories.TenantlessRunsDoNotProject | src/splunk_security_agent/assurance/store.py:603-606 | A history of two runs, the second without a tenant, after which the rows of a tenant are not those its own runs left |
| SignalReport.CollectSignals | src/splunk_security_agent/assurance/response.py:204-336 | The appending loops produce exactly one signal per dictionary finding, added item, removed item, coverage change and failed path, and one for model drift if a count is not zero, in that order. A finding keeps its severity in a full read and is at most medium in a partial one, the other derived signals are medium, a failed path is high; fingerprint identity, title, detail, subject, reference and authority of each are read off the input |
| DiscoverySignals.SignalsAreWellMade | src/splunk_security_agent/assurance/response.py:204-336 | Every signal carries the fingerprint of its kind, only collection failures are trusted and high after failed calls, and no other signal of a partial run is severe or authoritative |
| DiscoverySignals.OnlyFullReadsResolve | src/splunk_security_agent/assurance/response.py:36-48 | No false resolution: an unresolved row closes if and only if the run had no failed calls, did not see it, selected its tenant and, for a quick run, it is an inventory or collection signal |
| DiscoverySignals.ObservedAuthority | src/splunk_security_agent/assurance/response.py:316-336 | Duplicate reports of one signal within a run never disagree about its authority |
| DiscoverySignals.PackagesFollowTheEvidence | src/splunk_security_agent/assurance/response.py:49-72 | Packages of a partial run hold collection failures only, those of a full run hold none; every packaged signal is persistent, severe or repeated, and in no other open package of its tenant |
| DiscoverySignals.FewPathsCompete | src/splunk_security_agent/assurance/response.py:287-303 | In a partial run at most as many signals compete for the package as there are distinct failed paths |
| DiscoverySignals.FailedPathsArePackaged | src/splunk_security_agent/assurance/response.py:287-303 | No failed collection path of a run with at most twelve is passed over: after the run an open package of the tenant holds it |
| DiscoverySignals.APartialRunIsPackaged | src/splunk_security_agent/assurance/response.py:49-101 | A run with one failed path, from an empty desk: its path is packaged, so the statements about partial runs speak of something |
| DiscoverySignals.SevereForSureIsPersistent | src/splunk_security_agent/assurance/store.py:616-632 | A signal reported only with authority and a severe rating is persistent after a run new to it, and confirmed by it |
| Packages.PackageStore.ExpirePackages | src/splunk_security_agent/assurance/store.py:827-837 | Every package in review whose time has come expires and keeps its other columns; every other package is as it was |
| Packages.PackageStore.CoveredSignalFingerprints | src/splunk_security_agent/assurance/store.py:877-892 | Expires first, then answers exactly the signals of the open packages of the tenant, or of all tenants for the empty one |
| Packages.PackageStore.ClosePackage | src/splunk_security_agent/assurance/store.py:894-904 | A package still in review after the expiry is closed at the given time, and no other is touched by it |
| Packages.AddingUncoveredKeepsDisjoint | src/splunk_security_agent/assurance/store.py:751-813 | A package of uncovered signals keeps the open packages of each tenant pairwise disjoint |
| Packages.LeavingReviewKeepsDisjoint | src/splunk_security_agent/assurance/store.py:894-904 | Packages that only leave review keep the others disjoint |
| Response.ResponseService.Process | src/splunk_security_agent/assurance/response.py:28-113 | Correlate, expire, select, rank, cap and package, in place. A package is appended exactly when some signal competes: seen, persistent, confirmed by its last report and in no open package of the tenant. It takes all that compete or the twelve that stand before the others, carries the highest severity among them, the run, the tenant and the time, and expires seven days later |
| Response.ChosenAreTheBest | src/splunk_security_agent/assurance/response.py:70-77 | The package takes twelve, or all when fewer: nothing left out is more severe than anything taken (critical, high, medium, low), nor as severe and seen in more runs in a row, nor equal in both with the earlier title |
| Response.ProcessedPackages | src/splunk_security_agent/assurance/response.py:49-101 | For every desk and run, what is appended and when, said of the rows and the sightings alone |
| Response.FewAreAllChosen | src/splunk_security_agent/assurance/response.py:77-77 | Twelve or fewer eligible signals are all packaged |
| Response.SeverestIsHighest | src/splunk_security_agent/assurance/response.py:79-82 | The package severity is critical if and only if one of its signals is, else high if and only if one is, else medium if and only if one is, else low |
| Response.PackagedSignalsAreWarranted | src/splunk_security_agent/assurance/response.py:49-69 | Each packaged signal was seen by this run, was covered by no open package, and is severe or repeated by the row correlation left |
| Response.ProcessKeepsPackagesDisjoint | src/splunk_security_agent/assurance/response.py:49-69 | Processing a run keeps open packages of one tenant disjoint, with or without a source run |
| Response.OpenPackagesNeverOverlap | src/splunk_security_agent/assurance/response.py:28-113 | Over every sequence of processed runs, expiries and closes, open packages of one tenant share no signal |
| BacklogDrain.DrainOnce | src/splunk_security_agent/assurance/response.py:59-77 | A run that re-observes a set of persistent signals, and sees no other eligible one, covers min(12, remaining) of those uncovered, and none left uncovered outranks one that was covered |
| BacklogDrain.BacklogDrains | src/splunk_security_agent/assurance/response.py:59-101 | n uncovered persistent signals re-observed by every run within one package lifetime are all covered after as many runs as n/12 rounded up, twelve at a time, each run taking the best of those left by severity, streak and title |
| RunMachine.NextKeepsRunsSound | src/splunk_security_agent/assurance/service.py:108-138 | Every step keeps at most one active run, worker and table in agreement, no queued run with a cancel, and the per-attempt call accounting |
| RunMachine.NextKeepsScheduleSound | src/splunk_security_agent/assurance/store.py:145-174 | Every step keeps `enabled` tied to the next run time and the next run an interval after the last |
| RunMachine.NextKeepsCeilingSound | src/splunk_security_agent/assurance/store.py:906-916 | Every step keeps the runs created on any day that count, or still may, under the largest daily maximum in force |
| RunMachine.EnqueueKeepsCeiling | src/splunk_security_agent/assurance/service.py:120-127 | Enqueueing under the daily check keeps the ceiling of the creation day |
| RunOutcomes.FinishEnds | src/splunk_security_agent/assurance/service.py:375-385 | From every sound state: the three endings of a finished run and every column they set |
| RunOutcomes.BlockedExactlyWhenRefused | src/splunk_security_agent/assurance/service.py:30-38 | Along every behaviour a finished run is blocked by its budget if and only if its attempt asked for a call at the limit, and stores the number of calls it asked for below it |
| RunOutcomes.ClientCounts | src/splunk_security_agent/assurance/service.py:30-38 | Along every behaviour an attempt begins with a start, has used as many calls as it asked for below its limit, and has been refused if and only if it asked for one at the limit |
| RunOutcomes.FailureEnds | src/splunk_security_agent/assurance/service.py:411-419 | An exception, and a completion written over, end the run as failed with its calls and time, and touch no other row |
| RunOutcomes.RefusedBindingEnds | src/splunk_security_agent/assurance/service.py:244-272 | A refused binding ends the started run as blocked by its connection, without calls |
| RunOutcomes.InterruptEnds | src/splunk_security_agent/assurance/service.py:400-410 | An interrupted run ends cancelled, with its calls, if and only if a cancel was requested; else it is queued again, one recovery later |
| RunOutcomes.CancelMarks | src/splunk_security_agent/assurance/store.py:444-464 | A cancel ends a queued run at once, marks a running one and leaves any other alone |
| RunOutcomes.ProgressStores | src/splunk_security_agent/assurance/service.py:283-296 | A report stores the admitted calls and nothing else, unless a cancel is pending: then the run is interrupted |
| RunOutcomes.RestartRecovers | src/splunk_security_agent/assurance/store.py:466-485 | What a restart makes of every row, column by column |
| RunOutcomes.EnqueueAdmits | src/splunk_security_agent/assurance/service.py:108-129 | A request is admitted if and only if the binding is valid, the budget covers the depth (4, 9 or 12 calls), nothing is queued or running, the id is new, and fewer runs of the day count than the maximum; the new row is spelled out, and a refusal changes nothing |
| RunOutcomes.TickSchedules | src/splunk_security_agent/assurance/service.py:207-238 | A tick acts if and only if the schedule is enabled, its time has come and nothing is active; then the next run time is an interval from now, whether or not a run was admitted |
| RunOutcomes.UpdateSetsPolicy | src/splunk_security_agent/assurance/store.py:145-174 | A policy is stored if and only if its budget covers its depth; the next run time is kept where the schedule was on with the same interval, else an interval from now, and none when it is off |
| RunBehaviors.EveryStateIsSound | src/splunk_security_agent/assurance/service.py:51-138 | The whole invariant holds in every state of every behaviour, crashes and restarts included |
| RunBehaviors.AtMostOneRunIsActive | src/splunk_security_agent/assurance/service.py:120-121 | At most one run is queued or running, under any interleaving of enqueue, schedule, cancel, stop, crash and restart |
| RunBehaviors.CallsAreBounded | src/splunk_security_agent/assurance/service.py:30-38 | All Splunk calls admitted for a run, over all attempts and crashes, stay within its budget times its attempts; stored calls stay within the budget; the budget suffices for the depth |
| RunBehaviors.DailyCeilingHolds | src/splunk_security_agent/assurance/store.py:906-916 | Runs created on one day that count or are still queued never exceed the largest maximum that was in force at the creation of a run on that day, and so never the largest of all |
| RunBehaviors.DaysStayUnderTheirPeak | src/splunk_security_agent/assurance/service.py:120-127 | The same bound for all runs of the day that may still come to count |
| RunBehaviors.FixedPolicyFixesCeiling | src/splunk_security_agent/assurance/service.py:122-126 | Until the policy is changed that maximum is the configured one |
| RunBehaviors.TerminalIsFinal | src/splunk_security_agent/assurance/store.py:381-425 | After a step that ends a run, no later step touches it: neither its row nor its real calls |
| RunMachine.OverturnedIsFailed | src/splunk_security_agent/assurance/service.py:385-419 | A completion after which writing notifications raises is written over as failed in the same step, and nothing of the completion remains in the row |
| RunBehaviors.CancellationIsFinal | src/splunk_security_agent/assurance/store.py:444-464 | Once a cancel is recorded the run is never queued, recovered or started again, through any number of crashes |
| RunBehaviors.RestartSettlesEveryRun | src/splunk_security_agent/assurance/store.py:466-485 | A restart requeues every interrupted run once or completes its cancellation, and leaves the others alone |
| RunBehaviors.RecoveryIsIdempotent | src/splunk_security_agent/assurance/service.py:79-84 | A second recovery, at any later time, finds nothing to do |
| RunBehaviors.FiringsAreSpaced | src/splunk_security_agent/assurance/service.py:207-238 | Two scheduled firings are at least the interval in force at the second apart, through policy changes, rebinds and downtime |
| RunBehaviors.ScheduleIsCoherent | src/splunk_security_agent/assurance/store.py:225-263 | A next run time is set exactly when the schedule is enabled, and lies an interval after the last firing |
| RunLimits.SuspendedCallbackBreaksSingleRun | src/splunk_security_agent/assurance/store.py:427-442 | Requeueing has no status guard: a stop while a finished run waits in a suspended callback changes the terminal row, and leaves two active runs if and only if another run was enqueued meanwhile |
| RunLimits.SuspendedCallbackIsReached | src/splunk_security_agent/assurance/service.py:385-410 | A behaviour that gets there, if the callback could suspend |
| RunStranding.StrandedExactly | src/splunk_security_agent/assurance/service.py:240-281 | For every step: a row is running without an attempt after it if and only if the step took the queued run and its binding check or client factory raised, or it was so before and the process did not crash |
| RunStranding.StrandedExactlySince | src/splunk_security_agent/assurance/service.py:240-281 | Along every behaviour, a run is stranded if and only if such a step took it and no crash has come since |
| RunStranding.RunningIsExecutedExactly | src/splunk_security_agent/assurance/service.py:240-281 | While the process is up a running row has its attempt if and only if no such step was taken since the last crash; always, where the check and the factory never raise |
| RunStranding.StrandedRunBlocksUntilRestart | src/splunk_security_agent/assurance/service.py:120-121 | A stranded run stays running, and until the process ends no run at all is admitted |
| RunStranding.AStrandedRun | src/splunk_security_agent/assurance/service.py:240-281 | Three steps that strand a run |
| RunLimits.EscapesExactly | src/splunk_security_agent/assurance/store.py:906-916 | In every sound state and for every step: a run that made real calls ends uncounted if and only if the step cancels it while queued with no stored calls, interrupts an attempt that made none with the cancel pending, or recovers a cancelled run with no stored calls |
| RunLimits.EscapedExactlyByAStep | src/splunk_security_agent/assurance/store.py:906-916 | Along every behaviour the uncounted runs with real calls are exactly those for which such a step was taken |
| RunLimits.RealCallsAreUnderTheCeiling | src/splunk_security_agent/assurance/service.py:122-126 | Without such a step every run that called Splunk is active or counts, and a day has no more of them than the largest maximum in force as its runs were created |
| RunLimits.RecoveredThenCancelledEscapesTheCount | src/splunk_security_agent/assurance/store.py:444-456 | A behaviour in which a recovered run is cancelled before its next call, and is not counted |
| RunLimits.CrashedCancelEscapesTheCount | src/splunk_security_agent/assurance/store.py:469-474 | A behaviour without any recovery: the process dies between the cancel and its effect |
| AssuranceService.RecoveryInTwoStatements | src/splunk_security_agent/assurance/store.py:466-485 | The two UPDATE statements together are the one-pass recovery, and their row counts add up to the interrupted runs |
| AssuranceService.RunStore.Recover | src/splunk_security_agent/assurance/store.py:466-485 | Recovery in place; the result is the number of interrupted runs |
| AssuranceService.RunStore.SetRunning | src/splunk_security_agent/assurance/store.py:335-345 | Only a queued run starts, and the caller learns whether it did |
| AssuranceService.RunStore.CancelRequest | src/splunk_security_agent/assurance/store.py:444-464 | A queued run is cancelled at once, a running one is marked, any other stays |
| AssuranceService.RunStore.Requeue | src/splunk_security_agent/assurance/store.py:427-442 | Requeues whatever status the row has |
| AssuranceService.RunStore.SetBinding | src/splunk_security_agent/assurance/store.py:225-251 | Succeeds if and only if connection and version are the expected ones; then binding and version are new, the schedule is off and without a next run, and everything else is as it was; otherwise nothing changes |
| AssuranceService.BudgetedSplunkClient.Call | src/splunk_security_agent/assurance/service.py:30-38 | A call is admitted exactly while the limit is not reached, counted exactly when admitted, and a refusal is remembered |
| AssuranceService.Service.EnqueueRequest | src/splunk_security_agent/assurance/service.py:108-129 | Enqueueing is the machine's step, with its refusals in order |
| AssuranceService.Service.CheckSchedule | src/splunk_security_agent/assurance/service.py:207-238 | A tick is the machine's step: when due, the schedule advances whether or not a run was queued |
| AssuranceService.Service.BeginExecute | src/splunk_security_agent/assurance/service.py:240-281 | Start of an attempt with a fresh client, or immediate connection block; the invariant is kept |
| AssuranceService.Service.BeginFails | src/splunk_security_agent/assurance/service.py:244-281 | When the binding check or the client factory raises, the run stays running without an attempt |
| AssuranceService.Service.CallThroughBudget | src/splunk_security_agent/assurance/service.py:30-38 | A budgeted call is the machine's step, and the lifetime count follows it |
| AssuranceService.Service.Report | src/splunk_security_agent/assurance/service.py:283-296 | A progress report raises the pending cancellation instead of storing |
| AssuranceService.Service.FinishRun | src/splunk_security_agent/assurance/service.py:375-385 | The finished run is blocked by its budget if and only if its client refused a call, partial if and only if it refused none and there were gaps, complete if and only if neither; it stores the admitted calls and the time, and every other row is as before |
| AssuranceService.Service.OnError | src/splunk_security_agent/assurance/service.py:411-419 | An exception ends the run as failed with its calls |
| AssuranceService.Service.FinishOverturned | src/splunk_security_agent/assurance/service.py:385-419 | An exception after completion, before or after the callback, writes the row again as failed |
| AssuranceService.Service.OnCancelled | src/splunk_security_agent/assurance/service.py:400-410 | A cancellation completes the cancel if one was requested, else requeues |
| AssuranceService.Service.CancelRun | src/splunk_security_agent/assurance/service.py:131-138 | An operator cancel of the active run is the request followed by the interruption |
| AssuranceService.Service.Stop | src/splunk_security_agent/assurance/service.py:86-96 | A cooperative stop is the interruption followed by the end of the process |
| AssuranceService.Service.StartUp | src/splunk_security_agent/assurance/service.py:79-84 | Start recovers before anything else, holds no client, and keeps the invariant |
| AssuranceService.Service.PutPolicy | src/splunk_security_agent/assurance/service.py:98-106 | A policy is accepted exactly when its budget covers its depth |
| Json.WrittenDocumentLoads | src/splunk_security_agent/audit/store.py:125-125 | What is written as JSON loads as what was meant: escapes, surrogate pairs, nesting, compact and spaced |
| Json.TextIsInjective | src/splunk_security_agent/audit/store.py:236-238 | Two printable values with the same text are the same value |
| Json.LoadedValuesPrint | src/splunk_security_agent/audit/store.py:242-258 | Whatever loads can be printed again |
| Json.StoredValuePrintsAlike | src/splunk_security_agent/audit/store.py:236-238 | A value stored with sorted keys and loaded prints exactly as the original does |
| Json.SortKeysSettles | src/splunk_security_agent/audit/store.py:236-238 | Sorting keys at every depth is idempotent and keeps values printable |
| Json.KeysAscend | src/splunk_security_agent/audit/store.py:236-238 | Sorting an object leaves the entries it had, each value sorted in turn, with keys that ascend |
| Redaction.RedactionIsSafe | src/splunk_security_agent/audit/store.py:217-232 | Whatever is recorded, at every depth only the mark stands under a sensitive key, and lists, objects, keys and texts are within their limits |
| Redaction.RedactionFixesExactlySafeValues | src/splunk_security_agent/audit/store.py:217-232 | Redaction leaves a recorded value alone if and only if it is safe; so it is idempotent |
| Redaction.ClippedKeyIsNoMoreSensitive | src/splunk_security_agent/audit/store.py:223-224 | Sensitivity is tested on the full key but stored on the clipped one, and clipping never makes a key sensitive |
| Redaction.SecretsDoNotShow | src/splunk_security_agent/audit/store.py:219-232 | Two values that differ, at any depth, only under sensitive keys are recorded alike |
| Redaction.OtherObjectsShow | src/splunk_security_agent/audit/store.py:232-232 | Objects that are not plain JSON are recorded as their text without being searched: two of them are recorded alike if and only if the first 4000 characters of their texts agree |
| Redaction.SensitiveMeans | src/splunk_security_agent/audit/store.py:13-20 | A key is sensitive if and only if one of the six words stands in its lower-case form |
| Redaction.FirstHundredItemsStay | src/splunk_security_agent/audit/store.py:226-227 | Of a list exactly the first hundred items stay, in order, each redacted on its own |
| Redaction.FirstHundredEntriesStay | src/splunk_security_agent/audit/store.py:221-225 | Of a dictionary exactly the first hundred entries count: each key cut at 160 characters, each value redacted under its full key; of keys that meet when cut the place of the first and the value of the last stay |
| Redaction.PlainValuesStay | src/splunk_security_agent/audit/store.py:228-232 | Under other keys plain values are recorded as they are, texts cut at 4000 characters |
| Redaction.RedactedValuesPrint | src/splunk_security_agent/audit/store.py:228-232 | Redacted values are plain JSON |
| AuditChain.HashInputIsUnambiguous | src/splunk_security_agent/audit/store.py:235-239 | The hashed text determines previous hash and event: newline framing and sorted JSON have one reading |
| AuditChain.Verify | src/splunk_security_agent/audit/store.py:177-212 | Valid if and only if every link holds, with length and last hash; otherwise the reported row is the first broken one, all before it is a chain, and the reported hash is its head |
| AuditChain.HeadHashPinsTheLog | src/splunk_security_agent/audit/store.py:177-212 | Two logs that verify have the same head hash if and only if they have the same length and agree event by event, unless the hash collides on what they hashed |
| AuditChain.RewritingBreaksTheLink | src/splunk_security_agent/audit/store.py:198-205 | Changing what one event says, and nothing else, makes exactly that link the first broken one |
| AuditChain.TruncationKeepsChain | src/splunk_security_agent/audit/store.py:177-212 | Cutting the tail off a valid log leaves a valid log: only the head hash tells |
| AuditLog.RenumberingUnnoticedExactly | src/splunk_security_agent/audit/store.py:177-212 | Rows are read by sequence number, which is not hashed: renumbering a valid log goes unnoticed, with the same head, if and only if it keeps the order of the rows; any other renumbering breaks the chain |
| AuditLog.ExchangedNumbersAreNoticed | src/splunk_security_agent/audit/store.py:179-205 | Exchanging two numbers of a valid log, and nothing else, makes verification fail |
| AuditLog.PlacesKept | src/splunk_security_agent/audit/store.py:198-199 | Rows of a valid log that form a chain again, in whatever order, are in the order they had |
| AuditChain.ReloadedMetadataHashesAlike | src/splunk_security_agent/audit/store.py:125-125 | Metadata loaded back from its column hashes to what was recorded |
| AuditChain.RecordedRowLinks | src/splunk_security_agent/audit/store.py:105-130 | The row a recording appends links to any chain |
| AuditLog.AuditStore.Record | src/splunk_security_agent/audit/store.py:78-135 | Appends one row, or, on a repeated id or hash, changes nothing. Event type, action, actor and target type are each a prefix of the argument of that name cut at 120 characters, the target id at 240, the outcome at 40, the summary at 1000; id and time are those given; metadata is redacted; the hash is that of the previous hash and this event |
| AuditLog.AuditStore.VerifyOwn | src/splunk_security_agent/audit/store.py:177-212 | Every log built by recording alone verifies, with its length and head |
| Retention.CollectRetained | src/splunk_security_agent/retention.py:430-469 | Per tenant, the rows beyond the newest that are old enough and exist, in order of tenant appearance; which rows these are is `RetentionTimes.RetainedExactly` |
| Retention.CollectRecovery | src/splunk_security_agent/retention.py:471-498 | The files beyond the newest that no pending restore names and that are old enough; which files these are is `RetentionTimes.FilesExactly` |
| RetentionTimes.InventoryExactly | src/splunk_security_agent/retention.py:328-415 | With unique ids, the inventory lists exactly: generations of a migration that is over, in no use (routed to, being copied or verified, way back of a routed cutover, being migrated back); snapshots of settled reverse migrations; recovery files of another package than the pending one; each old enough, present, with its id, time and content, and with at least as many of its tenant or directory ahead of it as are kept: newer ones, or equally new ones listed earlier |
| RetentionTimes.RetainedExactly | src/splunk_security_agent/retention.py:443-469 | A row is taken if and only if it is old enough, exists, and at least `keep` rows of its tenant are newer, or as new and listed earlier; a missing time is the oldest |
| RetentionTimes.FilesExactly | src/splunk_security_agent/retention.py:479-498 | The same for the files of a directory by modification time, whose package must not be the pending one |
| RetentionTimes.GenerationsByTime | src/splunk_security_agent/retention.py:343-377 | A generation is a candidate only if at least `keep` others of its tenant are no older, and surely if at least `keep` are newer, given age and presence |
| RetentionTimes.SnapshotsByTime | src/splunk_security_agent/retention.py:379-398 | The same for reverse snapshots |
| RetentionTimes.FilesByTime | src/splunk_security_agent/retention.py:479-498 | The same for recovery files |
| RetentionTimes.BeyondExactly | src/splunk_security_agent/retention.py:445-451 | A row stands beyond its tenant's newest if and only if at least `keep` rows of the tenant are ahead of it by time and listing |
| Retention.RetentionService.Execute | src/splunk_security_agent/retention.py:261-326 | Runs only for a non-empty preview, its own digest, the exact confirmation up to blanks around it, and unchanged candidates; otherwise nothing is deleted and no receipt is stored. Then everything removable is gone, everything else is kept, and the sums are those of the report; an escaping manifest failure ends it there without a receipt |
| Retention.ReportIsExactIffManifestsGo | src/splunk_security_agent/retention.py:310-323 | What is reported deleted is exactly what is gone if and only if the manifest rows of every removed generation could be deleted |
| Retention.AGenerationLeavesItsManifest | src/splunk_security_agent/retention.py:310-325 | An execution in which it is not: the generation is gone and the receipt reports an error and no deletion |
| Retention.AnEscapingFailureLeavesNoReceipt | src/splunk_security_agent/retention.py:310-325 | An execution in which the failure escapes: the generation is gone and there is no receipt |
| Retention.Revalidate | src/splunk_security_agent/retention.py:276-294 | True if and only if every candidate still reads as previewed |
| Retention.DeleteAll | src/splunk_security_agent/retention.py:296-323 | One outcome per candidate in order; exactly what can be removed is gone, and what was not a candidate is kept. It breaks off if and only if a manifest failure other than an OSError occurs, at the first one |
| Retention.Account | src/splunk_security_agent/retention.py:120-140 | Item count, bytes and completeness are those of the outcomes |
| Retention.CountIsNumber | src/splunk_security_agent/retention.py:120-140 | The item count is the number of outcomes that report a deletion |
| Retention.BytesAddUp | src/splunk_security_agent/retention.py:120-140 | The bytes are the sum of the sizes of those |
| RetentionSafety.ShieldedIsNoCandidate | src/splunk_security_agent/retention.py:328-414 | No generation in use, no reverse migration under way, no pending recovery file, and nothing with fewer than `keep` of its tenant or directory ahead of it by time is ever a candidate |
| RetentionSafety.NewestAreNotBeyond | src/splunk_security_agent/retention.py:445-454 | With unique ids, a row that fewer than `keep` rows of its tenant are ahead of, by their times, is not beyond the newest |
| RetentionRuns.ShieldedStorageSurvives | src/splunk_security_agent/retention.py:261-326 | Storage shielded whenever a cleanup runs survives any number of cleanups unchanged |
| RetentionRuns.DirectoryKeepsItsFloor | src/splunk_security_agent/retention.py:471-498 | A cleanup leaves a recovery directory at least min(keep, its count before) |
| RetentionRuns.InventoryWithout | src/splunk_security_agent/retention.py:328-414 | Deleting candidates removes exactly them from the next inventory and uncovers no new ones |
| RetentionRuns.InventoryIsDistinct | src/splunk_security_agent/retention.py:412-415 | The inventory names each location once |
| RetentionRuns.InventoryIsInOrder | src/splunk_security_agent/retention.py:412-415 | The inventory is in order of time, then checkpoints before exports before snapshots before generations, then by id; the preview is its first hundred |
| RetentionRuns.CleaningTakesTheFirst | src/splunk_security_agent/retention.py:209-213 | An execution without errors takes the first hundred candidates and leaves the rest in order |
| RetentionRuns.CleanupsConverge | src/splunk_security_agent/retention.py:209-326 | After n executions without errors the first 100n candidates are gone and the rest remain; as many as the hundreds in the inventory empty it |
| RetentionRuns.ExecuteApproved | src/splunk_security_agent/retention.py:261-294 | An approval holds only for the items and policy revision it was given for, when the digest does not collide |
| RetentionRuns.ExecuteAlone | src/splunk_security_agent/retention.py:261-326 | With no other writer an execution, refused, broken off or complete, is a cleanup step of those sequences; when no deletion fails it is exactly the error-free one |
| ModelInventory.ModelInventoryService.Scan | src/splunk_security_agent/splunk_models.py:54-187 | Demo and failed scans change nothing; a successful one leaves the merged rows and the missing in display order, and each figure of the summary is the number of entries of that list with the status, or with the dependency among the models seen |
| ModelInventory.ScanIsInDisplayOrder | src/splunk_security_agent/splunk_models.py:143-143 | In the stored list missing models stand last, and within either part the lower-cased names ascend |
| ModelInventory.LastEntryIsLookedUp | src/splunk_security_agent/splunk_models.py:111-116 | Of several stored entries with one id the last is the earlier state, and an empty id has none |
| ModelInventory.OneEntryPerIdIffDistinctRows | src/splunk_security_agent/splunk_models.py:117-142 | The stored list has one entry per id if and only if the scan's rows have distinct ids |
| ModelInventory.ScanRefinesMap | src/splunk_security_agent/splunk_models.py:111-142 | With distinct ids the list is the map-wise merge of the old entries and the rows |
| ModelInventory.ARepeatedIdIsStoredTwice | src/splunk_security_agent/splunk_models.py:119-132 | A scan of one model listed twice stores two entries with one id |
| ModelInventory.InventoryIsItsHistory | src/splunk_security_agent/splunk_models.py:111-142 | After any scans there is an entry for exactly the ids ever seen, and its first and last sighting, definition, fingerprint, status and start of absence are read off the scan history |
| ModelInventory.CountsAddUp | src/splunk_security_agent/splunk_models.py:144-147 | The four counts sum to the number of entries |
| ModelInventory.ScanOnce | src/splunk_security_agent/splunk_models.py:54-187 | Scan by scan, the stored list holds the snapshot of the history |
| OperationStream.Consume | src/splunk_security_agent/app.py:3373-3446 | The consumer loop, over any schedule of runner, consumer and timeouts, writes the specified records |
| OperationStream.OpenStreamLosesNothing | src/splunk_security_agent/app.py:3391-3417 | While open: what was published is what was delivered, in order and once, followed by what waits; numbers run 1..n; a heartbeat carries phase, label and detail of the newest delivered event, each with its own replacement where it is missing, or the queued texts before any; no final record yet |
| OperationStream.ClosedStreamIsGaplessIffWritable | src/splunk_security_agent/app.py:3391-3446 | Exactly one result or error record, last. Numbers are gapless if and only if everything handed over can be written; then every published event was delivered once and in order and the ending is the runner's; otherwise one number is lost before the error record |
| OperationStream.EveryTimeoutBeats | src/splunk_security_agent/app.py:3404-3417 | After any schedule, a timeout of the wait writes exactly one heartbeat, and the loop goes round |
| OperationStream.EveryEventIsWritten | src/splunk_security_agent/app.py:3391-3403 | After any schedule, taking the first waiting event writes exactly that event as the next record, and leaves the others waiting |
| OperationStream.TheLoopEndsExactlyWhenSettled | src/splunk_security_agent/app.py:3391-3394 | At its head the loop ends if and only if the runner has and nothing waits; otherwise it waits and writes nothing |
| OperationStream.UnwritableEventSkipsANumber | src/splunk_security_agent/app.py:3396-3403 | Concrete schedule: an event that cannot be written makes the only record an error numbered 2 |
| OperationStream.SettledStreamCloses | src/splunk_security_agent/app.py:3392-3394 | Once the runner has ended, the stream closes within two rounds more than the events still queued |

## Left out

- Liveness of the worker: nothing is claimed about a run eventually starting or ending.
- `bind_unbound`, routed stores and `excluded_tenant_scope_ids`: migration and routing plumbing around the modelled tables.
- The binding parsed from a scope key when the run row is missing: correlation takes the binding as an input.
- `_validation_drafts`, notifications, labels, headlines and progress texts of runs and packages.
- SignalReport.CollectSignals: items, tools and coverage changes that are not text are given by the text the code makes of them; parts of the result that are not dictionaries are left out, findings excepted.
- Splunk, MCP, Ollama, SQLite, the file system and the HTTP layer: tables are maps and sequences, storage a map from location to content.
- A stored next-run time that is not a timestamp (the schedule then counts as due): stored times are integers or absent.
- Calls that a pipeline could still make after its attempt has ended: an attempt's client is used within the attempt only.
- AuditLog.AuditStore.Record: identifiers, times and the actor are inputs; the context variable behind the default actor is not modelled.
- Json.WrittenDocumentLoads: strings hold Unicode scalar values, so lone surrogates are not modelled; numbers keep their text, and the reader accepts runs of number characters and repeated keys that `json.loads` would refuse or merge. No statement depends on more than what the writer produces and what then loads.
- Redaction.RedactionIsSafe: keys and other objects are given by their `str`; lower-casing is a function of single characters.
- Retention.RetentionService.Execute: a deletion that fails part-way leaves some given content at its location, and which manifest rows cannot be removed is an input; symbolic links, containment checks and an inventory that fails while it is read are not modelled.
- Retention.CollectRecovery: reading one file's time twice is one reading.
- ModelInventory.ModelInventoryService.Scan: ids, fingerprints and dependency observations are those `_normalize` computes.
- OperationStream.Consume: cancellation of the stream, elapsed times and the text of a writer's error are not modelled; the runner publishes only until it ends, as the code's early exit presumes.
- `diagnose_all.py`, `release_readiness.py`, `upgrade_readiness.py`, `operational_acceptance.py`, `config.py`, `feedback.py`, `model_setup.py`: text formatting, configuration and host probing without state of their own.
