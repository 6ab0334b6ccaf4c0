# Verified model of the control plane

A Dafny model of the coordination logic of an Ansible control plane: the workflow engine, the
dispatch queue, the live output relay, and the smaller machines and codecs around them, with
proofs of what they guarantee over whole executions. `dafny verify dfyconfig.toml` checks it.

## What is modelled

* **Workflows.** `Guards` is the step guard language, with an abstract syntax and a printer beside
  the evaluator, and `GuardTokens` says what its texts denote. `Workflows` is the engine, as an object (`WorkflowRun`) and as functions.
  `WorkflowTheorems` proves the shape every reachable run has and what one event does,
  `WorkflowRules` which steps are started or skipped, `WorkflowExecutions` the invariants, the
  final status, termination and the equality with an engine that keeps a cursor,
  `WorkflowConfluence` that every complete execution equals one left-to-right pass over the step
  list, `WorkflowOrders` exactly when the order of events is irrelevant, `WorkflowRepeats` what is
  left of the conditions when a step's run reports twice, and `WorkflowFates` what exactly becomes of
  each step.
* **Dispatch.** `Dispatch` is the leader's pass over the queue and the choice of a runner, with
  arbitrary changes to the table by others between its statements and runners reordered from turn
  to turn. `RunLifecycle` follows one run through every interleaving of the store calls of creators,
  approvers, rejecters, cancelers, drainers and executors; `RunOutcomes` gives the configurations
  that rule out a second start or a start after a cancel, `RunBounds` counts how often a run can be
  started, `RunFinality` says when its terminal row is final, and `RunEnvelopes` follows its launch
  envelope, which carries secrets. `Capacity` follows the whole table, and the heartbeats that
  reorder the runners, against one drainer; `CapacityRuns` says what holds over its executions,
  `CapacityLimits` has those that exceed a cap and shows that there are no others, and
  `PassRefinement` that the two models of the pass agree.
* **Output.** `Relay` is the live run and its channels, `Execution` the frame loop, flushes and
  finish, `Viewers` the protocol by which viewers on any replica attach live, tail or replay, and
  `ViewerRuns` what each way delivers from every reachable state.
* **Codecs and automata.** `Tacacs` (RFC 8907), `Radius` and `RadiusExchange` (RFC 2865) over
  `Octets`; `Monitoring`, with checks that overlap in `MonitorOverlap`; `Scheduling`; and project
  export and import (`ProjectIO`).

Postgres is a table of rows, each statement one atomic step. Runners, clocks, hashes, file contents
and cron expressions are parameters. Sending on a closed channel and closing one twice crash the
host language; here they are preconditions, so a verified caller never does either.

## Where the code and its comments differ

* `internal/api/dispatch.go:129-131` and `internal/store/runs.go:303-305` say a run is never
  dispatched twice. With approvals as the handlers write them, a read followed by an unconditional
  write, that needs a single drainer. `RunBounds.StartsIff` says exactly how often a run can be
  started: as often as it was put into the queue and once per drainer, with check-and-set decisions
  once. A run canceled in the queue can be revived by an approval already under way;
  `RunBounds.CanceledStartsIff` says exactly when. A run queued once is safe in every configuration.
* `internal/api/ws.go:137` says the message that ends a live view reports the final state. The
  channel closes before the row is finished, so it can still say "running"
  (`ViewerRuns.LiveEndCanReportRunning`); it reports the final state exactly when the outcome was stored
  before the row was read (`Viewers.LiveEndIsFinalIff`). The bytes sent before it are final.
* `internal/api/dispatch.go:20-22` says the envelope is dropped once the run is dispatched. A run that
  ends otherwise loses it too (`RunEnvelopes.EndedHasNoEnvelope`), but one canceled before its creator
  stored the envelope keeps it (`RunEnvelopes.LateEnvelopeStays`).
* `internal/api/manager.go:165` says replay reconciles what a slow viewer lost. A live viewer whose
  channel overflowed is sent "end" without the lost bytes (`ViewerRuns.SlowViewerMissesOutput`);
  `Viewers.EndMeansFinalOutput` says this happens in no other case.
* A terminal row is not final: a pass that listed a run before it was canceled can fail it
  (`RunOutcomes.CanceledRowCanEndFailed`). `RunFinality.CanEndFailedIff` says exactly which canceled
  and successful rows can still end failed, `RunFinality.TerminalIsFinalIff` which terminal rows can
  still change at all.
* A run can report its end twice: canceled in the queue and started all the same, or canceled and
  then failed. The engine overwrites the status of a finished step without looking at it
  (`internal/api/workflows.go:194`), so a later report can take back the failure an on_failure step was
  started for, and such a workflow succeeds (`WorkflowRepeats.SuccessAfterOnFailure`). Shape and status
  survive every repetition (`WorkflowExecutions.StatusAlwaysOk`); `WorkflowRepeats.DeliverConditionsIff`
  and `WorkflowRepeats.DeliverCausesIff` say exactly which repetitions break what the conditions promise.
* Caps are ignored for the default pool (`internal/api/dispatch.go:173-178`), which goes to whichever
  runner advertising "default" was seen last, so a heartbeat can bring it to any of them. With the
  approvals as written, two racing approvals of one run put any runner that takes tagged runs over
  its cap. `CapacityLimits.CapKeptIff` shows there is no other case, and `CapacityRuns.NeverOverCapacity`
  holds for the handlers as written as long as no run has two decisions under way.
* `internal/api/monitoring.go:93-96` says the host check is safe to call ad-hoc. Two checks that
  overlap can each fire host-down; `MonitorOverlap.AlternateIff` says alerts alternate in every
  execution exactly when no two checks of a host are ever under way together.
* The TACACS+ password field allows 65535 bytes, but the 65536-byte packet limit counts the fixed
  fields too, so passwords over 65531 bytes do not get through (`Tacacs.ExchangeReportsDecision`).
* `internal/api/projectio.go:27-28` puts the source type and the sub path into the bundle, but the
  import restores neither: every imported project is local (`ProjectIO.ImportOfExport`).

## Model

| member | source | states |
|---|---|---|
| Guards.EvalIsMeaningOfParse | internal/api/workflows.go:22-60 | for every text and all variables, the evaluator's answer is the meaning of the guard the text parses to |
| Guards.ParsePrintIff | internal/api/workflows.go:16-37 | printing a guard and reading it back returns it exactly for the printable guards: trimmed tokens without the operators that would be found first |
| Guards.EvalOfPrinted | internal/api/workflows.go:22-60 | evaluating a printable guard's text gives its meaning, whatever the variables |
| Guards.ComparisonsComplement | internal/api/workflows.go:27-32 | `a == b` and `a != b` are complements as texts |
| Guards.KeysComplement | internal/api/workflows.go:33-36 | `key` and `!key` are complements as texts |
| Guards.Index | internal/api/workflows.go:27-30 | the first occurrence of the operator, or -1 when there is none |
| Guards.TrimUnique | internal/api/workflows.go:23 | trimming removes all white space around a trimmed text and nothing else |
| GuardTokens.ResolvesIff | internal/api/workflows.go:39-48 | with any white space around it, a token resolves to a text exactly when it denotes it: the text between single or double quotes, else the value of the variable of that name, else the word itself |
| GuardTokens.TruthyIff | internal/api/workflows.go:50-60 | a key is truthy exactly when it is bound to a value that, white space around it and letter case aside, is none of the empty text, 0, false, no and off |
| GuardTokens.EqualMeans | internal/api/workflows.go:22-29 | `a == b` as a text holds exactly when what the two tokens denote is equal |
| GuardTokens.DifferentMeans | internal/api/workflows.go:30-32 | `a != b` as a text holds exactly when what the two tokens denote differs |
| GuardTokens.KeyMeans | internal/api/workflows.go:33-37 | `key` as a text holds exactly when its value does not say no, `!key` exactly when it is missing or says no, white space always |
| Workflows.WorkflowRun.constructor | internal/api/workflows.go:80-101 | a new run holds the defaults overridden at launch and one pending step per definition, an empty condition read as on_success |
| Workflows.WorkflowRun.Merge | internal/api/workflows.go:222-237 | exported variables override those of the run, the others stay |
| Workflows.WorkflowRun.VisitStep | internal/api/workflows.go:118-151 | the loop body passes over, skips, launches or fails a step as the specification function says, with the launch result of that step, and touches no other step |
| Workflows.WorkflowRun.LaunchWave | internal/api/workflows.go:116-152 | the launch loop in place equals the recursive scan, steps before `from` untouched |
| Workflows.WorkflowRun.AdvanceFrom | internal/api/workflows.go:115-166 | launches the next wave or finalises the run |
| Workflows.WorkflowRun.Advance | internal/api/workflows.go:180-214 | an event of a run that is over or of a step out of range changes nothing; otherwise outcome and exports are recorded and the next wave launched once nothing runs |
| Workflows.StartWorkflow | internal/api/workflows.go:74-109 | refused exactly when there are no steps; otherwise a fresh run with its first wave launched |
| WorkflowTheorems.ScanWave | internal/api/workflows.go:117-152 | scanning pending steps turns a prefix of them into one wave, and ends it only before a step that is not Parallel |
| WorkflowTheorems.RescanIsCursor | internal/api/workflows.go:213 | scanning from the first step equals scanning from the first pending one |
| WorkflowTheorems.WaveKeeps | internal/api/workflows.go:115-166 | a launch after a finished prefix gives a well-shaped run: non-pending steps a prefix, one wave in flight, running exactly when a step runs |
| WorkflowTheorems.DeliverKeeps | internal/api/workflows.go:180-214 | every event keeps that shape, even one repeating the event of a finished step, and never moves the cursor back |
| WorkflowTheorems.DeliverForward | internal/api/workflows.go:194-213 | an event finishes its own step with its status; other steps change only by leaving pending |
| WorkflowTheorems.StartingRule | internal/api/workflows.go:122-126 | when a step is started every earlier step has left pending, the previous wave is over, and unless the step is Parallel nothing before it is in flight |
| WorkflowFates.DeliverFates | internal/api/workflows.go:118-214 | exactly what an event does, first or repeated: nothing once the workflow is over; otherwise its step takes the outcome and run reported, exports override variables, and every other step stays or leaves pending by its own rule: skipped exactly when not due, else running under the run its own launch yielded, or failed when that yielded none |
| WorkflowFates.StartFates | internal/api/workflows.go:74-152 | a started workflow has the defaults overridden at launch, and each step as defined (no condition meaning on_success), still pending or settled by the same rule |
| WorkflowFates.StepsAsDefined | internal/api/workflows.go:90-101 | over every execution, repeated events included, each step keeps the template, condition, guard and Parallel flag it was defined with |
| WorkflowRules.ConditionsDecide | internal/api/workflows.go:127-136 | at every moment of every execution in which each run reports once: an on_failure step was attempted only after a bad step ahead of it, an unguarded on_success step skipped only because of one, both exact for steps that are not Parallel; unknown conditions never run |
| WorkflowRepeats.DeliverConditionsIff | internal/api/workflows.go:194 | an event, first or repeated, keeps that of all steps exactly unless it flips the badness of a finished step that a later one relied on, with no other bad step ahead of the later one |
| WorkflowRepeats.ConditionsDecideIff | internal/api/workflows.go:180-214 | over every execution, repeated events included, the conditions hold at every moment exactly when no event undermines a step in that way |
| WorkflowRepeats.DeliverCausesIff | internal/api/workflows.go:194-212 | an event keeps it true that on_failure steps are tried only for a bad step exactly unless it takes back the only bad step after one was tried |
| WorkflowRepeats.VerdictOfRepeats | internal/api/workflows.go:153-165 | over every execution, repeated events included, that holds at every moment exactly when no event takes the last bad step back, and then a successful workflow skipped every on_failure step |
| WorkflowRepeats.SuccessAfterOnFailure | internal/api/dispatch.go:205-220 | an execution in which a run canceled in the queue reports success later and the workflow succeeds with its on_failure step run |
| WorkflowRules.GuardDecides | internal/api/workflows.go:130-136 | a step is started only if its guard holds of the variables including the exports of the event that triggers the wave, and an `always` step is skipped only if it does not |
| WorkflowExecutions.StartKeeps | internal/api/workflows.go:74-109 | a started workflow has the invariant shape, history and step definitions |
| WorkflowExecutions.RunKeeps | internal/api/workflows.go:180-214 | shape, step definitions, and that no unguarded `always` step is passed over, are kept over every execution, repeated events included |
| WorkflowExecutions.RepeatOnlyRecords | internal/api/workflows.go:187-205 | a repeated event is recorded and nothing else happens while a step is in flight, and is dropped once none is |
| WorkflowExecutions.StatusAlwaysOk | internal/api/workflows.go:153-165 | over every execution, repeated events included: running exactly while a step runs; when final, all steps are finished or skipped and the run is failed exactly when a step failed or was canceled; an unguarded `always` step is never skipped |
| WorkflowExecutions.Verdict | internal/api/workflows.go:153-165 | over every execution in which each run reports once, moreover: on success every on_failure step was skipped |
| WorkflowExecutions.EventLowersWeight | internal/api/workflows.go:194-213 | each event of a step in flight strictly lowers 2 * pending + running, and pending + running |
| WorkflowExecutions.AtMostOneEventPerStep | internal/api/workflows.go:180-214 | repetitions aside, n steps are final within n events, and while the workflow is running the first event of some step is due |
| WorkflowExecutions.StartsAtMostOnce | internal/api/workflows.go:117-152 | no step is started twice, nor once it has left pending, repeated events included |
| WorkflowExecutions.RescanRefinesCursor | internal/api/workflows.go:180-213 | over every execution, repeated events included, rescanning from the first step equals an engine that resumes at a cursor |
| WorkflowConfluence.PassThroughScan | internal/api/workflows.go:117-152 | one pass over pending steps comes to the same as launching a wave, crediting it and going on |
| WorkflowConfluence.ExecutionIsPass | internal/api/workflows.go:115-237 | every complete execution, each run reporting once, without clashing exports inside a wave, in any order of finishing, ends with the statuses, variables and verdict of one left-to-right pass |
| WorkflowConfluence.Confluence | internal/api/workflows.go:115-237 | any two complete executions of a scenario without clashing exports inside a wave end alike |
| WorkflowConfluence.CompletionExists | internal/api/workflows.go:180-214 | complete executions exist from every reachable state, within as many events as there are unfinished steps |
| WorkflowConfluence.SwapIffAgree | internal/api/workflows.go:194-197 | two events of one wave commute exactly when their exports agree on common keys |
| WorkflowOrders.OrderIrrelevantIff | internal/api/workflows.go:180-237 | the order of events never matters, at any point of any execution, exactly when no two runs of one wave export different values for one variable |
| WorkflowOrders.CompatibleNeverClash | internal/api/workflows.go:122-126 | agreement within each Parallel stretch of the step list, checkable before the start, rules clashes out |
| Dispatch.PoolInOrder | internal/store/runners.go:79-97 | the pool of a tag selects exactly the online runners that advertise it, in the order they were last seen |
| Dispatch.DefaultIsSeenLast | internal/api/dispatch.go:172-178 | untagged runs go to the runner advertising "default" that was seen last, whatever its load, and to the built-in address if none is online |
| Dispatch.TaggedGoesToPreferred | internal/api/dispatch.go:180-201 | a tagged run goes to the one online runner of its tag with a free slot and the least load, seen last among equals; it is refused exactly when no online runner has the tag, and waits exactly when none of those has a slot |
| Dispatch.PickRunner | internal/api/dispatch.go:172-201 | the single scan of the candidates chooses as the specification does |
| Dispatch.LeastLoadedIs | internal/api/dispatch.go:186-200 | a runner is chosen exactly when one is below its cap, and then the first of the least loaded of those |
| Dispatch.Dispatcher.ClaimQueuedRun | internal/store/runs.go:306-314 | succeeds exactly on a queued row, which becomes pending on the runner |
| Dispatch.Dispatcher.DispatchRun | internal/api/dispatch.go:95-112 | the envelope is gone whether or not the run starts; it starts unless a remote workspace sync fails |
| Dispatch.Dispatcher.FailTheRun | internal/api/dispatch.go:223-231 | the envelope is dropped and the row failed |
| Dispatch.Dispatcher.TakeTurn | internal/api/dispatch.go:141-166 | one run's turn: outcome, rows, load and starts |
| Dispatch.Dispatcher.DrainQueue | internal/api/dispatch.go:132-167 | the loop equals the recursive pass, and the runs handed to the executor are the ones reported started, in queue order |
| Dispatch.TurnSettles | internal/api/dispatch.go:141-166 | one turn among any interference: a run without envelope is failed, one that waits or lost its claim is left alone, a claimed one is pending on its runner or failed, started exactly unless a remote workspace sync fails; no other row changes |
| Dispatch.QuietPass | internal/api/dispatch.go:141-166 | left alone, a pass settles each listed run by itself: started runs pending on their runner, those whose remote sync fails or that have no envelope failed, both without envelope; waiting and unlisted runs untouched |
| Dispatch.LoadNeverShrinks | internal/api/dispatch.go:156-163 | no runner's load is lower after a pass than before, whatever others do and dispatches fail |
| Dispatch.LoadIsCountPlusStarts | internal/api/dispatch.go:156-163 | a runner's load at the end is the load counted plus the runs started on it |
| Dispatch.OldestFirst | internal/api/dispatch.go:141-155 | whatever others do, while no runner comes online, a pass never claims a run once it has left an older run of the same pool queued |
| Dispatch.LateRunnerOvertakes | internal/api/dispatch.go:179-185 | a runner that comes online between two turns lets a younger run of its pool overtake an older one |
| Dispatch.WaitsOnlyWhenSaturated | internal/api/dispatch.go:148-151 | while no runner comes online, a run is left queued only if every online runner of its tag is at its cap, which still holds when the pass ends; never for the default pool |
| Dispatch.PickRespectsCap | internal/api/dispatch.go:172-201 | a capped runner that does not advertise "default" is chosen only below its cap, in whatever order runners are listed |
| Dispatch.PassRespectsCap | internal/api/dispatch.go:137-166 | such a runner's load stays within its cap through a pass, whoever comes, goes or sends heartbeats meanwhile |
| RunOutcomes.AtMostOneStartIff | internal/api/dispatch.go:132-167 | every run is claimed and started at most once, over all interleavings, exactly with at most one drainer or with check-and-set decisions |
| RunOutcomes.CanceledNeverStartsIff | internal/api/dispatch.go:205-220 | a run canceled while queued is never started exactly when decisions are check-and-set (or nothing drains) |
| RunOutcomes.StartNeedsApprovalAndSpendsEnvelope | internal/api/runs.go:62-86 | in every configuration a held run is claimed or started only after an approval, and a started run's envelope is gone for good |
| RunLifecycle.InvReachable | internal/api/dispatch.go:60-166 | in every reachable state a started run's envelope is gone; with one drainer the envelope is a token used once: yet to be written, stored, in hand, or spent on the only start |
| RunLifecycle.OneClaimStep | internal/store/runs.go:306-326 | with check-and-set decisions a row leaves the queue for good, so at most one drainer is past the claim |
| RunOutcomes.StartedTwice | internal/api/runs.go:71-80 | an execution with two drainers and two racing approvals that starts a run twice |
| RunOutcomes.CanceledYetStarted | internal/api/runs.go:71-80 | an execution with one drainer in which a run canceled in the queue is started |
| RunOutcomes.CanceledRowCanEndFailed | internal/api/dispatch.go:142-147 | an execution in which a canceled row is later failed by a pass that had listed it |
| RunEnvelopes.DroppedStaysDropped | internal/api/dispatch.go:95-98 | a rejecter, a canceler, a drainer before the start and one giving the run up each drop the envelope, and only its creator can bring it back |
| RunEnvelopes.EndedHasNoEnvelope | internal/api/dispatch.go:58-91 | in every configuration, once stored before anybody else acts, the envelope of a run that is over is gone, but for the moment in which a canceler that won has still to drop it |
| RunEnvelopes.LateEnvelopeStays | internal/api/dispatch.go:58-72 | an execution in which a run canceled before its envelope was stored keeps it |
| RunEnvelopes.QueuedCanStart | internal/api/dispatch.go:132-167 | a queued run with its envelope can be started by any idle drainer |
| RunEnvelopes.ApprovedCanStart | internal/api/runs.go:62-86 | in both designs of approval, a held run can be approved and then started by any idle drainer |
| RunEnvelopes.RejectedEnds | internal/api/runs.go:90-108 | in both designs, a held run can be rejected, which ends it canceled and without envelope |
| RunFinality.CanEndFailedIff | internal/api/dispatch.go:142-166 | in every configuration and reachable state, a canceled or successful row can end failed exactly when an executor is under way, a drainer is past its claim or giving the run up, a drainer listed it and may find no envelope, or an unwritten approval may revive it |
| RunFinality.CanceledInQueueCanEndFailedIff | internal/api/dispatch.go:205-220 | with check-and-set decisions, a run canceled in the queue can end failed exactly when a drainer is giving it up, or had listed it and its envelope is gone or about to go |
| RunFinality.TerminalIsFinalIff | internal/store/runs.go:145-181 | in every configuration, a terminal row keeps its status in every continuation exactly when no actor is left that would write another |
| RunBounds.StartsBounded | internal/api/runs.go:62-86 | in every configuration a run is claimed, or canceled in the queue, at most as often as it was put there, and started at most as often as claimed and once per drainer |
| RunBounds.QueuedOnceStartsOnce | internal/store/runs.go:303-326 | a run launched directly, or approved at most once, is put into the queue at most once, so it is claimed and started at most once and never after a cancel in the queue, with any number of drainers and the approvals as written |
| RunBounds.StartsIff | internal/api/dispatch.go:132-167 | a run put into the queue up to q times can be started n times exactly when n is at most q and at most the number of drainers, and at most one with check-and-set decisions |
| RunBounds.CanceledStartsIff | internal/api/dispatch.go:205-220 | a run canceled in the queue can be started all the same exactly when it was put there twice, decisions are not check-and-set and there is a drainer |
| CapacityRuns.NeverOverCapacity | internal/api/dispatch.go:137-163 | with the handlers as written, in every state reached without two decisions under way for one run, heartbeats included, a capped runner that does not advertise "default" has at most `cap` pending or running runs |
| CapacityRuns.CheckAndSetIsCalm | internal/api/runs.go:71-80 | with check-and-set decisions every reachable state is of that kind |
| CapacityRuns.NothingHeldIsCalm | internal/api/runs.go:71-80 | so is every state reached without holding a run for approval |
| CapacityRuns.LoadNeverUndercounts | internal/store/runs.go:349-367 | in those states, whenever the pass consults its load map it counts at least the runs occupying each runner |
| CapacityLimits.CapKeptIff | internal/api/dispatch.go:172-201 | a cap is kept in every reachable state exactly when its runner does not advertise "default" and decisions are check-and-set or no tag that runs can ask for leads to it |
| CapacityLimits.DefaultOverfull | internal/store/runners.go:34-76 | after one heartbeat, any number of untagged runs piles up on a runner that advertises "default" |
| CapacityLimits.StaleOverfull | internal/api/runs.go:71-80 | an execution, the queue listed oldest first, in which two racing approvals of one run put a runner one over its cap |
| Capacity.ClaimKeeps | internal/api/dispatch.go:152-158 | a claim adds one active run to one runner and keeps caps and load in step |
| Capacity.GiveUpKeeps | internal/api/dispatch.go:160-165 | the slot given back before a failed dispatch is written is made good by failing the row |
| CapacityRuns.CountIsExact | internal/store/runs.go:349-367 | right after it is counted, the load of a runner is exactly its number of pending or running runs |
| CapacityRuns.FinishFreesSlot | internal/store/runs.go:167-173 | a run that ends frees one slot on its runner and none elsewhere |
| CapacityRuns.DecisionsAgree | internal/api/runs.go:62-108 | undisturbed, approvals and rejections as written come to the same as check-and-set ones: queued, or canceled |
| CapacityLimits.HeartbeatDraws | internal/store/runners.go:34-76 | after a heartbeat of a runner advertising "default", the next untagged run goes to it |
| CapacityLimits.SilentIsPassedOver | internal/store/runners.go:79-84 | a runner that went silent is not chosen |
| PassRefinement.TurnSimulated | internal/api/dispatch.go:141-166 | the two models of the pass agree: in every state the drainer's own steps can settle the next run exactly as the loop body does, rows, load and starts |
| PassRefinement.CancelBeatsClaim | internal/store/runs.go:303-326 | a cancel between the choice of a runner and the claim wins, and the pass goes on with its load unchanged |
| PassRefinement.LateEnvelopeIsDropped | internal/api/dispatch.go:223-231 | an envelope stored only after the pass found none is dropped when the run is given up |
| Relay.ActiveRun.Append | internal/api/manager.go:151-169 | the output grows by the chunk, one timestamp per newline in it, and each subscriber's channel is offered it once, dropped only when full |
| Relay.ActiveRun.Broadcast | internal/api/manager.go:162-167 | every subscriber is offered the chunk, no other channel changes |
| Relay.ActiveRun.Finish | internal/api/manager.go:171-183 | output and times are copied, no subscriber is left, and every channel ever handed out is closed exactly once |
| Relay.ActiveRun.Subscribe | internal/api/manager.go:222-236 | refused exactly once the run is finished; otherwise a snapshot of the output so far and a fresh open channel |
| Relay.ActiveRun.Unsubscribe | internal/api/manager.go:237-244 | closes the channel the first time and does nothing afterwards, before or after the finish |
| Relay.ActiveRun.Interleave | internal/api/manager.go:219-264 | any list of attaches, leaves, reads and cancels keeps the invariant and the output |
| Relay.NewlinesJoin | internal/api/manager.go:156-161 | newlines of a concatenation add up |
| Relay.NewlinesCount | internal/api/manager.go:156-161 | lines are counted by newline bytes |
| Execution.LogRow.UpdateRunLog | internal/store/runs.go:177-181 | stores a longer prefix with one timestamp per newline, the status left alone |
| Execution.LogRow.FinishRun | internal/store/runs.go:167-173 | status and full output stored in one update |
| Execution.HandleFrame | internal/api/manager.go:115-142 | a frame adds exactly its text; when a flush is due, and the frame is not the exit frame, the row takes the output so far |
| Execution.FrameShows | internal/api/manager.go:116-126 | before the exit frame every chunk that decodes shows in its place, every error of the runner on a red line of its own, any other frame not at all |
| Execution.NoticeShows | internal/api/manager.go:86-90 | a failed dial and a stream without exit frame each end the output with their notice |
| Execution.FrameLoop | internal/api/manager.go:107-143 | relays the frames up to the first exit frame and reports its code, -1 without one |
| Execution.Finish | internal/api/manager.go:171-216 | the row ends canceled exactly when the run was canceled, failed exactly when it was not and the code is not zero, success exactly otherwise; it holds the whole output and every channel is closed once |
| Execution.Execute | internal/api/manager.go:71-149 | whatever viewers and cancelers do between any two steps, the row ends with preamble, stream and notices, a terminal status decided by the cancel first and the exit code next, one timestamp per newline, and one flush for each due; every flush is a prefix of the next and every channel is closed exactly once |
| Viewers.EndMeansFinalOutput | internal/api/ws.go:65-229 | a viewer sent "end" has received exactly the output stored for good, live, tailing or replaying, exactly when its channel never overflowed |
| Viewers.TailAndReplayAreComplete | internal/api/ws.go:159-229 | a tail or replay ends after the whole stored output and with the final status |
| Viewers.ReceivedIsPrefix | internal/api/ws.go:81-104 | at every moment what a viewer has and has queued is the output so far, or a prefix when tailing |
| Viewers.OutputFrozen | internal/api/manager.go:171-197 | once the channels are closed the output never changes again |
| Viewers.LiveEndIsFinalIff | internal/api/ws.go:135-142 | the status sent with the end of a live view is terminal, and the one the row keeps in every continuation, exactly when the outcome was stored before the row was read |
| Viewers.StatusFrozen | internal/store/runs.go:167-173 | once the outcome is stored, status and stored output never change again |
| ViewerRuns.LiveEndCanReportRunning | internal/api/ws.go:135-142 | an execution in which the end of a live view reports a run as running |
| ViewerRuns.LiveEndCanReportPending | internal/api/manager.go:86-91 | an execution in which it reports the run as pending, the runner never reached |
| ViewerRuns.HomeViewerStreams | internal/api/ws.go:81-158 | from every state of a streaming run, a viewer on its replica gets the output so far and then each chunk |
| ViewerRuns.RemoteViewerTails | internal/api/ws.go:85-92 | from every state in progress, a viewer on another replica gets what is stored |
| ViewerRuns.FlushedIsTailed | internal/api/ws.go:169-180 | a flush and a poll bring a tail up to the output so far |
| ViewerRuns.TailAdvancesAndEnds | internal/api/ws.go:207-229 | polling brings a tail up to what is stored; it goes on while the run is in progress and ends with the whole output and final status once it is over |
| ViewerRuns.LateViewerReplays | internal/api/ws.go:93-100 | after the end a viewer on any replica gets the whole output and the final status |
| ViewerRuns.OutcomeIsShown | internal/store/runs.go:167-173 | the outcome the owner stores is the one later viewers are shown |
| ViewerRuns.ViewersStayApart | internal/api/manager.go:219-244 | viewers neither touch the run nor each other, and one that left is gone |
| ViewerRuns.SlowViewerMissesOutput | internal/api/manager.go:162-167 | an execution in which a live viewer is sent "end" without all of the stored output |
| Tacacs.TacacsPad | internal/api/tacacs.go:69-87 | the pad loop equals the chained definition of section 4.5 of RFC 8907 for every 16-byte hash |
| Tacacs.PaddedIs | internal/api/tacacs.go:69-87 | the pad is a row of digests, the first over session id, key, version and sequence number, each further one over the same and the digest before it, and each body byte is combined with the byte of the pad at its position |
| Tacacs.TacacsHeader | internal/api/tacacs.go:89-98 | the header written field by field is the 12-byte layout |
| Octets.BigEndianBytes | internal/api/tacacs.go:95-96 | two- and four-byte numbers are written most significant byte first |
| Tacacs.RoundTripIff | internal/api/tacacs.go:101-128 | reading a sent packet returns its sequence number and body and leaves the rest of the stream exactly for bodies up to 65536 bytes; longer ones below 2^32 are refused |
| Tacacs.ReadSent | internal/api/tacacs.go:101-128 | what reading a sent packet yields for bodies of every length, the length field wrapping at 2^32 |
| Tacacs.CutIsShort | internal/api/tacacs.go:107-121 | a stream that ends inside a packet is an error, wherever it ends |
| Tacacs.PlainBody | internal/api/tacacs.go:122-126 | with the lowest flag bit set the body is taken as it stands |
| Tacacs.StartDecodesIff | internal/api/tacacs.go:144-146 | the START body decodes by section 5.1 to the user name exactly up to 255 bytes |
| Tacacs.ContinueDecodesIff | internal/api/tacacs.go:166-169 | the CONTINUE body decodes by section 5.3 to the password exactly up to 65535 bytes |
| Tacacs.VerdictIs | internal/api/tacacs.go:131-194 | whatever the other end sends: accepted exactly on PASS, at once or after GETPASS was answered with the password as third packet; unavailable exactly when a reply it needs cannot be read or is shorter than six bytes; denied otherwise |
| Tacacs.ExchangeReportsRuling | internal/api/tacacs.go:131-186 | against a server with the same key, for names and passwords of every length, the exchange is unavailable when more than 255 bytes of the name arrive, and otherwise reports the server's own ruling on the name that arrived and the bytes that follow it |
| Tacacs.ExchangeReportsDecision | internal/api/tacacs.go:131-186 | for names of up to 255 bytes that is the server's decision on the name and on what arrives of the password, or unavailable, exactly when more than 65531 bytes of the password arrive |
| Radius.EncryptPassword | internal/api/radius.go:133-148 | the block loop in place equals hiding block by block as section 5.2 of RFC 2865 defines it |
| Radius.HiddenBlock | internal/api/radius.go:133-148 | each hidden block is the password block combined with the hash of the secret and the previous hidden block, the request authenticator for the first |
| Radius.HidingRoundTrip | internal/api/radius.go:133-148 | the server's decoding yields the padded password for every password, secret and authenticator; dropping the padding yields the password exactly when it does not end in a zero byte |
| Radius.AttrsRoundTripIff | internal/api/radius.go:125-129 | an attribute list parses back exactly when every value has at most 253 bytes |
| Radius.PacketRoundTripIff | internal/api/radius.go:113-123 | a packet decodes to what was sent exactly when its length fits its field |
| Radius.EqualBytes | internal/api/radius.go:150-159 | the comparison without early exit is equality |
| RadiusExchange.RequestDecodesIff | internal/api/radius.go:77-85 | the server reads exactly the user name, password and NAS identifier sent just when both names have at most 253 bytes, the password at most 240, and it does not end in a zero byte |
| RadiusExchange.VerdictIs | internal/api/radius.go:87-111 | whatever the other end sends: accepted exactly on an Access-Accept of at least 20 bytes whose authenticator is the hash over the reply, the request authenticator and the secret, denied exactly on any other reply with such an authenticator, an error otherwise |
| RadiusExchange.ForeignReplyJudged | internal/api/radius.go:97-109 | a reply computed with another secret is an error exactly if the two secrets give it different authenticators |
| RadiusExchange.ForeignServerIsUnavailable | internal/api/radius.go:97-111 | every login at a server with another secret is an error, unless the hash confuses the two secrets |
| RadiusExchange.ExchangeReportsDecision | internal/api/radius.go:64-111 | against a server with the same secret the check reports the server's decision on what it read, and unavailable when it could read nothing |
| Monitoring.MonitorTable.EnsureHostMonitor | internal/store/host_monitors.go:15-24 | a new monitor is unknown with no failures; an old one keeps both and takes the new inventory and threshold, 3 when not positive |
| Monitoring.MonitorTable.CheckHost | internal/api/monitoring.go:123-144 | one ping result moves one row and fires at most one alert |
| Monitoring.MonitorTable.CheckHostMonitors | internal/api/monitoring.go:97-146 | each listed host moves by its own ping result, alerts follow in list order, other rows stay |
| Monitoring.AlertsNameTheirHosts | internal/api/monitoring.go:123-144 | a pass alerts exactly for the listed hosts whose own ping calls for it, each under its own name |
| Monitoring.AlertsAlternate | internal/api/monitoring.go:123-144 | over every history of checks that do not overlap, thresholds changing too, alerts strictly alternate beginning with host-down, one more host-down than host-up exactly while the host is down, and the failure count is the trailing streak |
| Monitoring.LastConfigurationHolds | internal/store/host_monitors.go:15-24 | over every history inventory and threshold are those of the last configuration, a threshold that is not positive meaning 3 |
| MonitorOverlap.StaleWriteKeepsIff | internal/api/monitoring.go:123-144 | the outcome of a check keeps the alerts in step with the status exactly when the row it read and the row it writes agree on whether the host is down |
| MonitorOverlap.AlternateIff | internal/api/monitoring.go:93-146 | alerts alternate in every execution exactly when at most one check of a host is ever under way |
| Monitoring.DownIffStreakReached | internal/api/monitoring.go:133-139 | with a fixed threshold, down exactly when the trailing streak has reached it, up exactly when the last ping succeeded |
| Scheduling.Scheduler.SetScheduleTimes | internal/store/schedules.go:61-66 | a missing last time keeps the old one, a missing next time clears it |
| Scheduling.Scheduler.EvaluateSchedules | internal/api/scheduler.go:230-268 | each listed schedule ticks by itself, firings follow in list order, other rows stay |
| Scheduling.FiringsAreDue | internal/api/scheduler.go:236-266 | an evaluation fires exactly the listed schedules that are due, each under its own id |
| Scheduling.NextStaysNext | internal/api/scheduler.go:259-266 | between ticks the stored next time is the next instant after the last tick |
| Scheduling.FiresIffInstantPassed | internal/api/scheduler.go:254-266 | a recurring schedule fires at a tick exactly when an instant lies after the previous tick and not after this one, once for all missed in between |
| Scheduling.FirstTickOnlyPlans | internal/api/scheduler.go:254-258 | a schedule stored without a next time does not fire at its first tick, and from then on fires as above |
| Scheduling.OnceFiresOnce | internal/api/scheduler.go:239-248 | a one-time schedule fires at the first tick that reaches its time and at no other |
| Scheduling.LastIsLastFiring | internal/store/schedules.go:61-66 | between ticks, over any sequence of them, the last time is that of the latest tick at which the schedule fired, or the stored one if none did |
| Scheduling.Sleeps | internal/api/scheduler.go:230-252 | a schedule switched off, or with an expression that does not parse, never fires nor changes |
| ProjectIO.ExportProject | internal/api/projectio.go:79-133 | the handler's loops build the bundle the export function defines, with name, description, source type and sub path of the project |
| ProjectIO.Instance.ImportAll | internal/api/projectio.go:146-218 | the handler's loops, with ids handed out on the way, build the project the import function defines; refused without a name |
| ProjectIO.Instance.LinkTemplates | internal/api/projectio.go:186-199 | the second pass updates template rows one by one as the specification does |
| ProjectIO.ImportedInPlace | internal/api/projectio.go:203-216 | of any bundle, exactly the schedules whose template is in it and whose expression is there and parses are imported, each in its place |
| ProjectIO.BuildsLinked | internal/api/projectio.go:186-199 | with distinct names the second pass links each template, and only it, to the template of its build name |
| ProjectIO.ThroughNames | internal/api/projectio.go:83-90 | with distinct non-empty names, going from id to name to new id is the renaming of ids, and references leading outside are lost |
| ProjectIO.ReferencesKeptIff | internal/api/projectio.go:83-119 | over every list of ids and names, all step targets come back as the new ids of what they pointed to exactly when the names are distinct, all links exactly when the names are also not empty |
| ProjectIO.RenamingIsBijection | internal/api/projectio.go:163-184 | the renaming covers exactly the project's ids and merges no two |
| ProjectIO.ImportOfExport | internal/api/projectio.go:79-218 | importing an export gives the same project under that renaming: inventories and templates in order, inventory and build links, workflow steps, and of each template the recurring schedules, with no schedules besides; it is local and without sub path whatever the bundle says |

## Left out

- CapacityLimits.CapKeptIff: one drainer; which runners are registered, with their tags and caps, is fixed; no runs are deleted.
- WorkflowRules.ConditionsDecide: each run reports once; `WorkflowRepeats.ConditionsDecideIff` covers repeated reports.
- WorkflowExecutions.Verdict: each run reports once; `WorkflowExecutions.StatusAlwaysOk` and `WorkflowRepeats.VerdictOfRepeats` cover repeated reports.
- WorkflowConfluence.ExecutionIsPass: each run reports once, here and in the other results of `WorkflowConfluence` and `WorkflowOrders`; a second report replaces the outcome that a scenario fixes for the step.
- WorkflowRules.GuardDecides: the event is the first one of its step, since a repeated one starts and skips nothing (`WorkflowExecutions.RepeatOnlyRecords`).
- Dispatch.OldestFirst: a pass during which no runner comes online (`Dispatch.LateRunnerOvertakes` shows why); runners may go offline or be reordered.
- RunEnvelopes.EndedHasNoEnvelope: the creator stores the envelope before anybody else acts on the run (`RunEnvelopes.LateEnvelopeStays` shows why).
- PassRefinement.TurnSimulated: registered runners have ids, and nobody else acts during the turn.
- RunBounds.StartsIff: runs do not interact, so one run's row is followed; the drainer's choice of a runner is left open.
- Tacacs.ExchangeReportsDecision: requires a name of at most 255 bytes; `Tacacs.ExchangeReportsRuling` covers every length.
- RadiusExchange.ExchangeReportsDecision: replies of up to 4096 bytes, the size of the buffer; `RadiusExchange.VerdictIs` covers every reply.
- ProjectIO.ImportOfExport: requires distinct non-empty names, which the schema does not enforce (`ProjectIO.ReferencesKeptIff` shows references need them); the fields the bundle drops (guards, variables, overrides, Parallel, environments, vaults, extra inventories) are outside the claim, the template fields it copies unchanged are one value, slug and path, which follow from the name, are not part of the model, and store calls succeed.
- Monitoring.AlertsAlternate: a host whose monitor is not removed, since adding it again begins a new history.
- MonitorOverlap.AlternateIff: the status update and the alert that follows it are one step.
- Scheduling.FiresIffInstantPassed: a schedule not edited between ticks, and a cron expression that always has a next instant.
- Workflows.StartWorkflow: `startWorkflow` advances without the workflow lock; it is one atomic step here.
- Workflow progress is per terminal event delivered: rejecting a run and the sweep at boot do not fire the terminal hook (`internal/api/runs.go:102-107`, `internal/store/runs.go:275-285`).
- Step names and the inventory, environment and vault overrides of a workflow step: carried along and never examined.
- Variable values: represented by the text that formatting them yields, the only thing a guard observes; lower-casing covers the ASCII letters.
- `MarkOrphansFailed`: it overrides rows of live replicas at boot, so it is not a step of the running system.
- Launch caps: counted and then created by design, and approvals bypass them.
- The event hub: the same subscriber-set pattern as the relay, without a snapshot or an end.
- Errors of store calls after the first read: the code drops them, so calls succeed here.
- SQL, connection pools, migrations, leases and tickers: one drainer or many is all that remains of them.
- Encryption of envelopes, MD5 and HMAC: identity, or an unknown 16-byte hash.
- Cron parsing: a function to the next instant, or none.
- HTTP handlers, WebSocket framing, terminals, processes, git, notifications, syslog and secret backends: I/O.
- Login, sessions, roles and the CRUD handlers: little branching and no protocol.
