# Velkir controller: verified model

A Dafny model of the state machines the Velkir Valkey operator runs on every
reconcile: who may carry `role=primary`, when a failover may be dispatched,
which sentinels may be wiped or rolled, which of two masters survives, and how
the auth password is changed. The results are about whole runs: any order of
reconciles, operator crashes, stale or frozen observer polls, failed API writes
and failed dials.

Each mutable Go struct is a class whose methods follow the Go code and are
proved equal to a step function on values. What the controller promises is
proved about those functions, over every run.

| file | part |
|---|---|
| `QuorumGate.dfy` | quorum-suppression gate |
| `SplitBrain.dfy` | split-brain episodes and the failover signal |
| `StrandedPacing.dfy` | stranded-sentinel wipes, backoff levels, skip set |
| `HealBudget.dfy`, `SelfHeal.dfy`, `DualMasterEvents.dfy` | dual-master self-heal: budget, election, demotion, event edge |
| `Election.dfy` | promotion election, escape of a stale replica |
| `RoleLabels.dfy`, `FailoverDispatch.dfy` | two-pass role labels, settling damp, durable failover dispatch with crashes |
| `SentinelRoll.dfy` | one-at-a-time sentinel roll against a StatefulSet controller |
| `RotateWire.dfy`, `AuthRotation.dfy`, `AuthStatus.dfy` | password change on one pod, one drive over the plane, the driver over reconciles |
| `Base.dfy`, `Ordering.dfy`, `Names.dfy` | clock and options, sorting and merging, string order and joined keys |

Time is a natural number of nanoseconds, 0 being Go's zero time. 64-bit
wrap-around is written out where offsets are subtracted and backoffs shifted.
What comes from the API server, the network or the clock is a parameter of the
step it reaches.

## Findings

Places where the code does not do what its comments or its documentation say.
Each has a lemma.

- The failover histogram signal cannot fire for a snapshot the observer
  publishes: the episode is cleared on OK before the detector reads it
  (`SplitBrain.FailoverSignalExactly`).
- With a zero poll stamp a frozen observer repeats the split-brain detection;
  with any other stamp it fires at most once (`SplitBrain.FrozenObserverFiresOnce`).
- The five-minute backoff cap never binds for the production constants
  (`HealBudget.ProductionBackoff`).
- The lineage and name tie-breaks of the survivor election never decide a
  commit, since offsets within epsilon are refused (`SelfHeal.ListOrderIrrelevant`).
- A status read late enough ends a dual-master episode, so the event repeats
  without the condition having gone away (`DualMasterEvents.LateStatusRepeats`;
  exactly when: `DualMasterEvents.FiresExactly`, `DualMasterEvents.StatusEndsExactly`).
- Stranded records of different addresses are independent only between passes
  that agree on whether anything was folded (`StrandedPacing.DeferralInterferes`).
- With no role label left and no snapshot, and only then, the bootstrap rule
  re-stamps the stripped pod (`FailoverDispatch.BootstrapRestamps`,
  `FailoverDispatch.StrippedPodRestamped`).
- A restart is visible on the marker's deadline, and whenever it loses a
  cool-down that a pass or a dispatch would have read
  (`FailoverDispatch.PassDecisionAgrees`, `FailoverDispatch.CoolDownRestart`).
- A quorate snapshot whose address does not split moves role=primary undamped
  (`RoleLabels.MovesExactly`).
- A lost marker clear after a rolled-back failover brings the dead dispatch back
  (`FailoverDispatch.LostClearRehydrates`).
- A settled StatefulSet carries partition 0, so a new revision rolls ungated
  until the first pass that sees it (`SentinelRoll.HoldIsNeeded`).
- A failed read of the StatefulSet is applied as partition 0, while
  internal/controller/sentinel_sts.go:127-129 says the roll is pinned
  (`SentinelRoll.UnreadUngates`).
- A prune lets the deferral event repeat at once (`HealBudget.PruneReopens`).
- A rotation recorded as Failed, "reverted to previous credential", can leave a
  pod on the new password (`AuthRotation.FailedCanLeaveNew`); the exact condition
  is in `AuthRotation.OutcomeSound`.
- The audit count of pods on the old credential leaves out the pods whose
  rotation failed (`AuthRotation.CountsExact`).
- After a lost Succeeded write the second drive succeeds, because the AUTH
  fallback accepts pods already on the new password; the comment at
  internal/controller/auth_rotation.go:500-508 expects a revert
  (`RotateWire.CleanAttempt`).
- A failed rotation is driven again on every reconcile while the Secret keeps
  the rejected content; the comment at internal/controller/auth_rotation.go:555-559
  says it is not (`AuthStatus.FailedIsRetried`).
- A Succeeded status that lands behind an API error leaves a warm but outdated
  cache, over which the next Secret edit is adopted without rotating
  (`AuthStatus.LostSuccessAdopts`).
- The status is read through the cached client. An outdated read can make the
  driver take the wrong password for the running one, or put a new hash under an
  old Succeeded (`AuthStatus.OutdatedReadAdopts`, `AuthStatus.SucceededStep`).

## Model

| member | source | states |
|---|---|---|
| QuorumGate.SuppressionTracker.Update | internal/controller/valkey_controller.go:1412-1477 | one in-place update is the gate's step, and each of the two event edges is returned exactly when the gate closes or opens |
| QuorumGate.GateIsHistory | internal/controller/valkey_controller.go:1412-1477 | for every history and tunables the incremental gate is closed exactly when some Lost came a threshold after its loss opened, on a newer poll with no OK between, and no later OK completed enough fresh polls; the fields mean the matching parts of the history |
| QuorumGate.WedgedObserverNeverCloses | internal/controller/valkey_controller.go:1460-1475 | Lost readings that repeat the opening stamp never close the gate, however long the run |
| QuorumGate.RepeatsNeverOpen | internal/controller/valkey_controller.go:1432-1448 | repeats of OK polls already read, inserted anywhere, leave the gate the same at every later point |
| QuorumGate.FreshPollsAreDistinct | internal/controller/valkey_controller.go:1436-1443 | with stamps that do not run backwards the recovery count is the number of distinct OK polls |
| SplitBrain.Tracker.Advance | internal/controller/valkey_controller.go:1197-1202 | a newer poll moves stamp and confirmation time, any other changes nothing |
| SplitBrain.Tracker.Expired | internal/controller/valkey_controller.go:1217-1226 | an episode unconfirmed for longer than the staleness window is dropped and the poll it died at is kept |
| SplitBrain.Tracker.UpdateSustained | internal/controller/valkey_controller.go:1150-1189 | one in-place update, its reported duration and its detection edge are the episode step |
| SplitBrain.Tracker.ObserveFailover | internal/controller/valkey_controller.go:1242-1273 | the detector fires, with the episode's age, exactly on a changed OK address during an episode, and records the OK address |
| SplitBrain.Tracker.ObserveSnapshot | internal/controller/valkey_controller.go:3881-3886 | the two calls in the gate's order; a snapshot whose flag agrees with its tri-state field never fires |
| SplitBrain.ReportedDuration | internal/controller/valkey_controller.go:1150-1226 | every non-zero duration runs from the reading that opened the episode to the newest confirming poll, which is within the staleness window, with no reset between; at most now minus start |
| SplitBrain.DurationExactly | internal/controller/valkey_controller.go:1150-1189 | every reading reports nothing without a live episode and otherwise the time from its opening to its newest confirming poll, replays included; the detection edge is exactly the opening reading |
| SplitBrain.DetectionsNeedNewerPolls | internal/controller/valkey_controller.go:1150-1226 | between resets a detection needs a poll newer than every poll of an earlier episode |
| SplitBrain.FrozenObserverFiresOnce | internal/controller/valkey_controller.go:1150-1226 | every run on one stamp detects at most once if and only if the stamp is non-zero |
| SplitBrain.ZeroStampFiresTwice | internal/controller/valkey_controller.go:1217-1226 | a run on the zero stamp with two detections |
| SplitBrain.FailoverSignalExactly | internal/controller/valkey_controller.go:3881-3886 | the composed step signals exactly when the snapshot claims quorum against its own tri-state field, the OK address changed, and the prior episode is still confirmed or the reading opens one |
| StrandedPacing.Tracker.Skip | internal/controller/valkey_controller.go:831-849 | the loop returns exactly the tracked addresses with a count of at least three whose 60, 120 or 240 seconds since the last wipe, at three, four and from five on, have not passed |
| StrandedPacing.Tracker.CountWiped | internal/controller/valkey_controller.go:868-882 | first rebuild loop: the map holds exactly the wiped addresses, counted on or restarted |
| StrandedPacing.Tracker.SeedAuthFailed | internal/controller/valkey_controller.go:883-893 | second loop: wiped addresses that failed to authenticate reach the stuck threshold |
| StrandedPacing.Tracker.CarrySkipped | internal/controller/valkey_controller.go:894-900 | third loop: paced addresses keep their record |
| StrandedPacing.Tracker.Collect | internal/controller/valkey_controller.go:902-917 | sorted, duplicate-free stuck addresses and the deepest level among them |
| StrandedPacing.Tracker.Detect | internal/controller/valkey_controller.go:865-924 | the rebuilt map, flag and edge; the event fires exactly when the stuck set is non-empty and differs from the last one |
| StrandedPacing.Tracker.ClearStuck | internal/controller/valkey_controller.go:929-935 | everything is forgotten |
| StrandedPacing.Tracker.Apply | internal/controller/valkey_controller.go:2973-3038 | one recovery outcome clears, defers or folds, as the run's step says |
| StrandedPacing.Tracker.Recover | internal/controller/valkey_controller.go:2889-2961 | the dispatcher gets through its probe gate exactly a cooldown after the last probe; then it is a step of the runs below, legal whenever the surgery respects the skip set it is handed, and otherwise nothing changes |
| StrandedPacing.Tracker.StuckOrExpire | internal/controller/valkey_controller.go:956-970 | the flag reads true exactly while fresh; an expired one re-arms the event |
| StrandedPacing.FoldMapIsFoldRec | internal/controller/valkey_controller.go:865-901 | the whole-map rebuild is, address by address, a fold of that address's own record |
| StrandedPacing.WipesPaced | internal/controller/valkey_controller.go:800-924 | in every run two successive wipes of a tracked address are 30, 60, 120 or 240 seconds apart, by its count below three, at three, at four and from five on; the second counts one more, starts over after eight minutes, and is at least three on an authentication failure |
| StrandedPacing.PaceDoubles | internal/controller/valkey_controller.go:800-849 | each level doubles the cadence, from 30 to 240 seconds |
| StrandedPacing.FirstWipe | internal/controller/valkey_controller.go:868-893 | a first wipe counts one, or three on an authentication failure |
| StrandedPacing.TrackedExactly | internal/controller/valkey_controller.go:865-901 | which addresses a pass tracks, exactly |
| StrandedPacing.SkippedRecently | internal/controller/valkey_controller.go:831-849 | a skipped address was wiped earlier in the run, under 240 seconds ago, and not since |
| StrandedPacing.NonInterference | internal/controller/valkey_controller.go:865-935 | two runs that treat one address alike end with the same record for it |
| StrandedPacing.DeferralInterferes | internal/controller/valkey_controller.go:2973-3038 | two passes that treat an address alike leave it the same record if and only if they are healthy, both fold or both defer, or it is untracked |
| HealBudget.Bounds.AttemptAllowed | internal/controller/percrstate.go:408-423 | admits exactly below the attempt limit and past the shifted, capped backoff |
| HealBudget.Bounds.RecordAttempt | internal/controller/percrstate.go:427-435 | one more attempt, stamped |
| HealBudget.Bounds.FireDeferEdge | internal/controller/percrstate.go:455-467 | fires exactly on a new signature outside the minimum interval and records both |
| HealBudget.Bounds.RearmDeferEdge | internal/controller/percrstate.go:473-477 | forgets the signature, keeps the stamp |
| HealBudget.ProductionBackoff | internal/controller/orphan_master.go:350-359 | the 64-bit shift never wraps and the cap never binds for any admitted attempt |
| HealBudget.CommitsPaced | internal/controller/percrstate.go:408-444 | at every point of every run of passes and resets, at most five commits since the last reset, the k-th followed by at least 30s times 2 to the k-1 |
| HealBudget.CommitsExactly | internal/controller/percrstate.go:408-423 | and nothing else holds a commit back: after any run a pass commits exactly when admitted and since the last reset no commit, or fewer than five with the last long enough ago |
| HealBudget.DeferralsPaced | internal/controller/percrstate.go:455-477 | two deferral events closer than the minimum interval have a prune between them, whatever alternates or re-arms |
| HealBudget.DefersExactly | internal/controller/percrstate.go:455-477 | a deferral emits exactly when nothing was emitted since the last prune, or the interval is over and the reason is new or re-armed |
| HealBudget.PruneReopens | internal/controller/percrstate.go:781-807 | behind a prune the next deferral always emits; behind a re-arm exactly when the interval is over |
| SelfHeal.ScanDeFactoMasters | internal/controller/orphan_master.go:405-437 | the loop returns exactly the rankable masters and master names in order, and whether any pod was pending, silent or without offset |
| SelfHeal.MastersAre | internal/controller/orphan_master.go:405-437 | the masters are exactly the pods with an address that answered as a master with an offset |
| SelfHeal.MasterNamesAre | internal/controller/orphan_master.go:405-437 | the names are exactly those of the pods that answered as masters, one each |
| SelfHeal.Elect | internal/controller/orphan_master.go:535-573 | a survivor is named only if it leads every other by more than epsilon, and, without wrap-around, whenever one does; losers are all others, once each; a tie names the top two by offset, pre-strip address and name |
| SelfHeal.TieOrderFree | internal/controller/orphan_master.go:565-569 | the tie's deferral reason is the two names in lexical order, whichever of the two is ahead |
| SelfHeal.DominantUnique | internal/controller/orphan_master.go:552-573 | at most one master dominates, the one more than 4096 bytes ahead of every other |
| SelfHeal.Demote | internal/controller/orphan_master.go:622-643 | loser by loser in order REPLICAOF the survivor, directly followed by its CLIENT KILL exactly if it accepted |
| SelfHeal.KilledOnce | internal/controller/orphan_master.go:622-643 | each loser is told to follow exactly once, and killed exactly once if it accepted and never otherwise |
| SelfHeal.Healer.Pass | internal/controller/orphan_master.go:453-644 | a pass commits only when admitted and budgeted, and without wrap-around exactly then; survivor, commands and budget as the election and demotion say; otherwise the first gate that fails decides silence or the reason refused, and the refusal is announced as the paced deferrals say |
| SelfHeal.Healer.Visit | internal/controller/orphan_master.go:116-141 | a labelled primary gives the next split a full budget and re-arms the event but keeps its pacing stamp; otherwise the heal runs; either way the budget moves by a step of the paced runs |
| SelfHeal.ListOrderIrrelevant | internal/controller/orphan_master.go:535-573 | two listings of the same pods admit the same commit with the same survivor, whatever the lineage address |
| Ordering.MergeSortedUnique | internal/controller/percrstate.go:545-574 | two sorted slices give the sorted duplicate-free union |
| Names.JoinInjective | internal/controller/percrstate.go:532-539 | the comma-joined key determines its comma-free names |
| Names.KeysAgree | internal/controller/percrstate.go:532-539 | two sorted unions have equal keys exactly when they are the same set |
| Names.LessIsLexicographic | internal/controller/percrstate.go:545-574 | the order is that of Go strings: the first differing character decides, and a prefix comes first |
| DualMasterEvents.Tracker.Stamp | internal/controller/percrstate.go:487-492 | a condition-only producer refreshes the stamp and the sorted pods, never the event key |
| DualMasterEvents.Tracker.FoldUnion | internal/controller/percrstate.go:532-539 | the union grows by the pods and the key is its join |
| DualMasterEvents.Tracker.FireEdge | internal/controller/percrstate.go:503-511 | fires exactly on a changed key |
| DualMasterEvents.Tracker.Scan | internal/controller/orphan_master.go:326-339 | a firing producer's step; the event fires exactly when the accumulated set changes |
| DualMasterEvents.Tracker.Clear | internal/controller/percrstate.go:580-596 | the episode is forgotten |
| DualMasterEvents.Tracker.ActiveOrExpire | internal/controller/percrstate.go:616-628 | active exactly while the stamp is fresh; an aged stamp ends the episode |
| DualMasterEvents.FiringsBounded | internal/controller/percrstate.go:503-596 | within an episode at most one event per distinct pod beyond the first, for every order of scans |
| DualMasterEvents.RefireNeedsEnd | internal/controller/percrstate.go:580-628 | pods all seen before fire again only across the end of an episode |
| DualMasterEvents.FiresExactly | internal/controller/percrstate.go:503-539 | a scan fires if and only if it names a pod not scanned since the last end of an episode |
| DualMasterEvents.StatusEndsExactly | internal/controller/percrstate.go:616-628 | a status read ends the episode exactly unless the last stamp or reset before it is a stamp of two pods within the window |
| DualMasterEvents.LateStatusRepeats | internal/controller/percrstate.go:616-628 | one late status read between two scans of the same masters, and the event fires twice |
| Election.SurveyAdmits | internal/controller/valkey_controller.go:3486-3518 | the admission loop admits exactly a complete, masterless survey in which every replica is link-down on one and the same dead host |
| Election.ChoosePromotionCandidate | internal/controller/valkey_controller.go:3562-3580 | none exactly when nothing is rankable, else the first rankable replica of highest offset and, among equals, lowest name |
| Election.ChosenUnique | internal/controller/valkey_controller.go:3562-3580 | the choice is unique |
| Election.ChooseEscapeVictim | internal/controller/valkey_controller.go:5902-5924 | none exactly when nothing is deletable, else a deletable replica of least offset, last by name among equals |
| Election.EscapeKeepsElection | internal/controller/valkey_controller.go:6008-6029 | deleting any other rankable replica removes no fresher data and the same pod is elected from the rest |
| Election.EscapesKeepElection | internal/controller/valkey_controller.go:5902-6029 | any sequence of escapes keeps the first choice, which is the freshest, and at least one replica |
| Election.EscapeState.MaybeEscape | internal/controller/valkey_controller.go:5944-6049 | a replica is deleted exactly when the escape is due and the API accepts; it is eligible and the candidate stays the choice |
| Election.EscapeState.Phase8 | internal/controller/valkey_controller.go:5605-5817 | opens or closes the no-primary window, then escapes unless a replica was already deleted; the two stamps move by a step of the runs below |
| Election.EscapesPaced | internal/controller/percrstate.go:697-737 | in every run of reconciles and prunes an escape ends ten unbroken minutes without a labelled primary, and two escapes are ten minutes apart, a prune between them or not |
| RoleLabels.Phase7.ObserveStability | internal/controller/percrstate.go:637-659 | one reading is folded into the streak and its count returned |
| RoleLabels.Phase7.DesiredRoles | internal/controller/valkey_controller.go:5220-5343 | the plan behind the guards; one that takes role=primary from its pod has seen two polls of the new address, the later newer, with no other between, unless the address does not split, when no poll is folded |
| RoleLabels.Phase7.PatchOne | internal/controller/valkey_controller.go:5043-5097 | a pod is patched unless it already carries the label, and nothing else changes |
| RoleLabels.Phase7.StripLabel | internal/controller/primary_rollout.go:654-673 | only the pod's own role label goes |
| RoleLabels.Phase7.ApplyPlan | internal/controller/valkey_controller.go:5099-5136 | every labelling on the way, also when a patch fails, is an intermediate one; a completed run leaves the plan |
| RoleLabels.NeverZeroPrimaries | internal/controller/valkey_controller.go:5043-5136 | from one primary, every intermediate labelling has one or two and never none; the completed one has exactly the snapshot's pod |
| RoleLabels.StreaksMean | internal/controller/percrstate.go:637-659 | for every history the streak record is the opening and newest poll of the trailing run of one address |
| RoleLabels.SettledExactly | internal/controller/percrstate.go:637-659 | two counted polls exactly when the trailing run of the address holds a poll newer than its first |
| RoleLabels.MovesExactly | internal/controller/valkey_controller.go:5220-5343 | a pass takes role=primary from its pod if and only if a quorate snapshot past the latch points at another listed pod and has settled, or has an address that does not split while the pod is not the bootstrap one |
| RoleLabels.InitialStamp | internal/controller/valkey_controller.go:5313-5341 | with no pod labelled primary, whatever the streak, a completed pass over a quorate snapshot past the latch leaves exactly the pod at its host primary and every other a replica |
| RoleLabels.CompletedPass | internal/controller/valkey_controller.go:5220-5343 | for every history of polls, labelling and snapshot: the labels a completed pass leaves |
| FailoverDispatch.Operator.LatchActive | internal/controller/primary_rollout.go:126-211 | held exactly up to the deadline while the view is silent, on the stripped address, or below a positive fence epoch; the read drains a latch that is not |
| FailoverDispatch.Operator.ClearMarker | internal/controller/primary_rollout.go:264-274 | the marker goes if the write lands |
| FailoverDispatch.Operator.MaintainMarker | internal/controller/primary_rollout.go:295-327 | rebuilds the latch from a live marker, or clears a dead one |
| FailoverDispatch.Operator.ReconcileRoleLabels | internal/controller/valkey_controller.go:4997-5136 | one Phase 7 pass is the protocol's pass step with the role plan of the relabel read |
| FailoverDispatch.Operator.Dispatch | internal/controller/primary_rollout.go:391-538 | persist, latch, strip, failover with their rollbacks are the protocol's four steps; when it counts as dispatched, which label remains, and which latch and marker each way of ending leaves |
| FailoverDispatch.NoRestamp | internal/controller/primary_rollout.go:446-475 | in every run with any crashes and failed clears, from a strip until the dispatch is closed or its deadline, no pod gains role=primary |
| FailoverDispatch.StaleViewsNeverRestamp | internal/controller/primary_rollout.go:126-137 | the same on what the passes read: while every snapshot is silent, on the stripped address or below a positive fence epoch, no pod gains role=primary before the deadline |
| FailoverDispatch.NewerViewReleases | internal/controller/primary_rollout.go:126-137 | a quorate pass that reads another address at an epoch no lower than the fence is not suppressed |
| FailoverDispatch.FailoverLabels | internal/controller/valkey_controller.go:5251-5341 | in every run, after a strip of the only primary, the next completed pass that reads a released address labels the pod there and every other a replica |
| FailoverDispatch.NoSupersedingDispatch | internal/controller/primary_rollout.go:391-475 | meanwhile no newer dispatch can start |
| FailoverDispatch.BootstrapRestamps | internal/controller/valkey_controller.go:5241-5276 | in a guarded dispatch before its deadline, with nothing released, some pass changes a label if and only if it has no snapshot and no pod has a role label |
| FailoverDispatch.StrippedPodRestamped | internal/controller/valkey_controller.go:5241-5276 | a run of two pods in which the other loses its label and the stripped pod becomes primary again |
| FailoverDispatch.PassDecisionAgrees | internal/controller/primary_rollout.go:126-327 | for every latch and marker, a lost latch changes a pass's decision exactly when it is quorate and: without a marker the latch holds, with its own marker every clock read is the deadline, with another marker one of the two holds and the other does not |
| FailoverDispatch.LatchShapes | internal/controller/primary_rollout.go:446-512 | in every run a latch that is not the marker's is a cool-down, of the marker's address if there is one |
| FailoverDispatch.LostClearRestart | internal/controller/primary_rollout.go:295-327 | for those the last case is: the cool-down suppresses and the marker is too old, or the cool-down is over or released and the rebuilt marker holds |
| FailoverDispatch.CrashUnobservable | internal/controller/primary_rollout.go:197-327 | a restart that loses no latch, or the marker's own, is unobservable over every continuation that reads no clock on a deadline: same decisions, same dispatches, same marker |
| FailoverDispatch.CoolDownRestart | internal/controller/primary_rollout.go:499-512 | a restart that loses a cool-down without a marker is unobservable over a continuation if and only if no quorate pass and no dispatch reads the cool-down while it holds |
| FailoverDispatch.RestartVisibleExactly | internal/controller/primary_rollout.go:126-327 | for every latch and marker, a restart is unobservable over a continuation if and only if no dispatch, marker clear or quorate pass reads the two latches differently |
| FailoverDispatch.LatchMatchesMarker | internal/controller/primary_rollout.go:446-466 | latch and marker of one dispatch agree at every step when rollback clears land |
| FailoverDispatch.LostClearRehydrates | internal/controller/primary_rollout.go:315-326 | otherwise a rolled-back dispatch is rebuilt from its marker |
| SentinelRoll.OrdinalRoundTrip | internal/controller/sentinel_roll.go:97-107 | parsing inverts naming for every set name and 31-bit ordinal |
| SentinelRoll.OrdinalNeedsName | internal/controller/sentinel_roll.go:97-107 | only names of the set with digits in range have an ordinal |
| SentinelRoll.PodRejoined | internal/controller/sentinel_roll.go:197-226 | true exactly when the first pod of that name reports enough peers |
| SentinelRoll.ComputePartition | internal/controller/sentinel_roll.go:130-189 | the partition for missing, unreadable, settled and pending sets, and for a failed listing |
| SentinelRoll.PassPartition | internal/controller/sentinel_roll.go:150-189 | for a top-suffix roll the partition is the frontier, one lower once the pod at the frontier rejoined |
| SentinelRoll.OneAtATime | internal/controller/sentinel_roll.go:130-226 | over every interleaving, failed listings included, while the set can be read, the rolled pods are a top suffix and an ordinal rolls only after a pass saw the one above rejoined |
| SentinelRoll.HoldIsNeeded | internal/controller/sentinel_roll.go:139-147 | every run that can read the set is gated if and only if the partition starts at the top ordinal or above |
| SentinelRoll.UnreadUngates | internal/controller/sentinel_roll.go:137-141 | from any point of a held roll, every continuation behind a failed set read still waits for each pod if and only if the read did not fail mid-roll |
| SentinelRoll.AdvancesBounded | internal/controller/sentinel_roll.go:150-189 | if rejoined pods stay joined, every run advances at most as often as the first hold is high, plus once per replica for each failed listing |
| SentinelRoll.RollStepsBounded | internal/controller/sentinel_roll.go:130-226 | and deletes and recreates at most twice per pod, plus twice for each failed listing |
| SentinelRoll.StalledIsDone | internal/controller/sentinel_roll.go:130-226 | in every run, wherever no pass lowers the partition and no pod can be rolled although every rolled pod rejoined, all pods are at the new revision |
| SentinelRoll.RollCompletes | internal/controller/sentinel_roll.go:130-226 | such runs exist: one round per ordinal ends with every pod at the new revision |
| RotateWire.RotateOneWithRetry | internal/valkey/rotate.go:213-232 | the loop is the fold of the attempts, the last error winning and a cancelled backoff counting as an error |
| RotateWire.VerdictExactly | internal/valkey/rotate.go:213-232 | the retries end at the first full success or the last attempt, whose verdict is reported, or an error when the context ended first |
| RotateWire.CountedIsSet | internal/valkey/rotate.go:241-309 | a pod counted as set has the new password in both fields; any other keeps each field or has the new one |
| RotateWire.LeftAlone | internal/valkey/rotate.go:241-309 | from the old password the attempts leave the pod alone exactly when none reaches a CONFIG SET |
| RotateWire.AlreadyNew | internal/valkey/rotate.go:262-285 | a pod on the new password stays there |
| RotateWire.ThirdPassword | internal/valkey/rotate.go:262-285 | a pod on a third password rejects both and keeps it |
| RotateWire.CleanAttempt | internal/valkey/rotate.go:262-309 | one clean attempt sets the pod exactly when it is on the old or the new password |
| AuthRotation.SplitDataPlane | internal/controller/auth_rotation.go:251-277 | refuses exactly unless every pod has address and role and one is primary; else name-sorted replicas and the primary cover the pods |
| AuthRotation.ObservableExactly | internal/controller/auth_rotation.go:251-277 | the split goes ahead exactly when every pod has an address and a role and just one is the primary |
| AuthRotation.SplitCovers | internal/controller/auth_rotation.go:251-277 | the rotation then visits every pod once |
| AuthRotation.SplitRevert | internal/controller/auth_rotation.go:288-299 | the revert visits exactly the endpoints given to it |
| AuthRotation.Classify | internal/controller/auth_rotation.go:215-224 | two ordered sublists, by whether the password was set |
| AuthRotation.SelectMembers | internal/controller/auth_rotation.go:215-224 | a result is kept exactly when it is of that kind |
| AuthRotation.DataPlane.RotateMany | internal/valkey/rotate.go:193-208 | each pod gets its own attempts from its own password, results in order |
| AuthRotation.DataPlane.RotateAuth | internal/valkey/rotate.go:167-187 | replicas, then the master unless zero-valued; nothing without passwords |
| AuthRotation.DataPlane.RotateOrRevert | internal/controller/auth_rotation.go:494-628 | the passwords and the reported outcome and counts of a rotation and its revert |
| AuthRotation.OutcomeSound | internal/controller/auth_rotation.go:494-628 | for every pattern of failures: Succeeded means all on new; reverted pods are on old; Failed means all on old if and only if each failed pod started there and was never reached; stuck pods likewise |
| AuthRotation.CountsExact | internal/controller/auth_rotation.go:538-628 | when failing calls change nothing, the stuck count is the pods on new and the reverted count is the updated pods on old |
| AuthRotation.FailedCanLeaveNew | internal/controller/auth_rotation.go:538-572 | for any two pods on the old password there are failures that end Failed with one on the new |
| AuthRotation.ReadOnlyPlaneSucceeds | internal/controller/auth_rotation.go:200-224 | a plane on which no rewrite works still rotates, from any mix of the two passwords |
| AuthStatus.Driver.WriteStatus | internal/controller/auth_rotation.go:646-697 | a merge patch against the reconciler's copy; reported as persisted exactly when it landed or was already there |
| AuthStatus.Driver.ClearStatus | internal/controller/auth_rotation.go:702-716 | the status goes if there was one and the patch landed |
| AuthStatus.Driver.DriveRotation | internal/controller/auth_rotation.go:453-628 | stamp, rotate or revert, record; the cache moves only with a persisted success |
| AuthStatus.Driver.MaybeRotateAuth | internal/controller/auth_rotation.go:348-445 | one reconcile is the driver's step |
| AuthStatus.DriveMatchesStatus | internal/controller/auth_rotation.go:348-445 | in every run, outdated reads included, a drive uses a password hashing to the hash it read, towards a different current Secret |
| AuthStatus.DrivesExactly | internal/controller/auth_rotation.go:348-480 | in every run a reconcile drives if and only if the Secret has a password, the status read is neither Partial nor Succeeded and carries another hash, the cache holds that hash, no failover is in flight and the pods are observable; otherwise no pod's password changes |
| AuthStatus.QuietExactly | internal/controller/auth_rotation.go:348-442 | what a reconcile on the persisted status does to status and cache when it does not drive, case by case |
| AuthStatus.OutcomeRecorded | internal/controller/auth_rotation.go:511-612 | what a drive records for each outcome, and when the cache moves |
| AuthStatus.PartialIsSticky | internal/controller/auth_rotation.go:381-386 | over every run a Partial status stops drives, adoptions and writes until the Secret has no password |
| AuthStatus.CoherentStep | internal/controller/auth_rotation.go:348-524 | cache and status stop agreeing exactly at a lost success, a steady state seen through an outdated hash, or an ambiguous first write over a warm cache; an adoption over a warm cache is exactly one that read an outdated hash |
| AuthStatus.CacheCoherent | internal/controller/auth_rotation.go:348-524 | in every run without those the cache is cold or agrees with the status, and adoption is cold or read an outdated hash |
| AuthStatus.FreshCacheCoherent | internal/controller/auth_rotation.go:348-524 | when every reconcile reads the persisted status, only a lost success can break that, adoption needs a cold cache, and a drive's password hashes to the persisted hash |
| AuthStatus.OutdatedReadAdopts | internal/controller/auth_rotation.go:401-442 | a Secret put back after a success and one outdated read make the next fresh reconcile adopt it without rotating |
| AuthStatus.LostSuccessAdopts | internal/controller/auth_rotation.go:424-442 | with one, the next edit is adopted over a warm cache |
| AuthStatus.SucceededStep | internal/controller/auth_rotation.go:646-697 | a status reading Succeeded did so before with that hash, or a drive just set every listed pod; otherwise, exactly when a write based on an outdated Idle status lands, it is mislabelled |
| AuthStatus.SucceededIsEarned | internal/controller/auth_rotation.go:494-535 | in every run without such a write, whenever the status reads Succeeded an earlier drive set every listed pod to the password of that hash |
| AuthStatus.FailedIsRetried | internal/controller/auth_rotation.go:551-572 | a failed drive is driven again by the next reconcile with the same Secret |

## Left out

- Builders of Kubernetes objects, `cmd/main.go`, configuration, audit and metrics text, events text, logging: no hard property.
- The state-derivation table, the rollout-trigger edge trackers and the watchdog: finite tables and one-bit latches; only the latch read they perform is a step of the dispatch protocol.
- The observer and the sentinel package: their snapshots and surgery results are inputs; the wiped, skipped and failed lists are disjoint where internal/sentinel/manager.go:1303-1315 makes them so.
- Mutexes and goroutines: reconciles of one resource are serial, so a method is one step; parallel rotation of distinct pods is sequential here.
- Status edits by others; and outdated reads of the custom resource outside the auth driver.
- SHA-256: any hash function that is never empty.
- Rounding of stored times to seconds, and durations as floating-point seconds.
- Deferral signatures as strings: a datatype of reasons with the same equality.
- The orphan-master demotion of single pods and `pickPromotionCandidate`: easier members of the same kind as the self-heal and the election.
- The escape's pod-eligibility facts and the rollout's replica-lag checks: inputs.
- Evictions and manual deletions of sentinel pods during a roll: pods leave only by the StatefulSet's own roll.
- SentinelRoll.OneAtATime: a quorum of one, whose threshold is zero, gates nothing and is not covered.
- SentinelRoll.StalledIsDone: that a controller which can make progress does so is not modelled; with the bounds beside it, it says where every such run ends.
- SelfHeal.Elect: the converse needs offsets whose differences fit 64 bits.
- HealBudget.DeferralsPaced: needs a clock that does not run backwards and a non-zero first stamp.
- HealBudget.PruneReopens: the prune is modelled for the trackers kept here, the budget, the deferral edge, the dual-master episode and the escape window.
- AuthRotation.DataPlane.RotateMany: CONFIG REWRITE's effect on the file and the password a restarted pod reads are not modelled.
- AuthStatus.Driver.WriteStatus: StartedAt and LastTransitionAt are not modelled.
