# Verified models of the incident agent's hard parts

A Dafny model of nine protocols and algorithms of the incident-response agent, with proofs of the
laws they are there for. `dafny verify dfyconfig.toml` checks the whole project.

| file | models |
|---|---|
| `SingleFlight.dfy` | the node-namespace cache: TTL cache, in-flight table and circuit breaker shared by many threads (`app/context/deployments.py`) |
| `CriticModel.dfy`, `BatchCritic.dfy`, `CriticModes.dfy` | the fact critic: algorithmic check, the divide-and-conquer batch over an unreliable language model, and both critique modes (`app/agents/fact_critic.py`) |
| `IncidentClaim.dfy` | webhook requests that race for an incident row (`app/api/webhooks.py`) |
| `ClickLimiter.dfy`, `ApprovalDecisions.dfy` | the click limiter and the write-once decision table (`app/api/discord_interactions.py`) |
| `FallbackLimiter.dfy`, `OutageBound.dfy` | the LRU-bounded fallback counter and the limit across replicas when Redis fails (`app/api/rate_limit.py`) |
| `SeqTemplate.dfy`, `SeqPagination.dfy` | the canonical message template and the page-by-page count (`app/context/seq_client.py`) |
| `PodEvents.dfy`, `TargetRanking.dfy` | the point-in-time event selection and the target ranking (`app/context/kg_incident_context.py`) |
| `Migration.dfy` | the idempotency migration (`alembic/versions/20260807_0400_kg_idempotency_constraints.py`) |
| `CommandDsl.dfy` | intent validation, argument list and display string (`app/core/execution_dsl.py`) |
| `Common.dfy`, `Decimal.dfy`, `StableSort.dfy` | options, rounding, decimal text of integers, Python's stable sort |

Code that changes state in place is a class or a method with loops, proved against a specification
function or relation; concurrent protocols are state machines over step sequences with a history, and their laws
are about every run. Times and scores are exact numbers.

Where a promise of the code does not hold on all inputs, the model keeps the code and says exactly when it holds:

- The click limiter reads its stamp before it takes the lock, so stamps may come out of order. Over all runs with stamps
  at most d behind, the bound is guaranteed iff the cap is one or d is zero (`ClickLimiter.GuaranteedIff`); a window shorter
  by d always is (`ClickLimiter.SkewedWithinCap`).
- Batch and per-hypothesis mode read an unparsable answer differently, and keep old refutations after a failed call
  differently; they agree iff neither happens, or both raise (`CriticModes.CheckedRefinesSingle`).
- A resolve checks the status it read and writes without a check; the write takes an illegal edge iff the row left
  meanwhile (`IncidentClaim.ResolveIsIllegalIffRowLeft`), and a deferred one can undo a flap count
  (`IncidentClaim.DeferredResolveUndoesFlap`).
- `EXECUTING` and `APPROVAL_PENDING` are not in `_SKIP_STATES`, so a re-fire claims an incident whose pipeline
  is at work (`IncidentClaim.ReclaimsRunningPipeline`, `IncidentClaim.RefireStartsIffOutsideSkip`).
- The documentation of `_apply_resolve` calls OPEN to RESOLVED an invalid transition;
  `app/core/state_machine.py` allows it. The model follows the code.
- The confirm button has no bound on dispatches of a pair (`ApprovalDecisions.ConfirmDispatchesApproved`) but the click
  limit of the user (`ApprovalDecisions.DecisionsAreLimited`).
- A capped count is documented to mean that there are MORE events. At exactly 20000 events, and when the list ends with a
  full page whose last event has no id, the count is capped and exact (`SeqPagination.CappedButExactIff`).
- A page element that is no dictionary makes its page look like the last one, and events behind it go uncounted
  (`SeqPagination.NonDictHidesEvents`, `SeqPagination.LowerBound`).
- The template canon is a bijection exactly on placeholders that the template syntax can tell from text
  (`SeqTemplate.RecoversIffGood`); a raw text in doubled braces collides with plain text (`SeqTemplate.BracedRawCollides`).
- Later updates never show in the emitted (namespace, pod, reason, last seen, count). The other fields of a key's event are
  independent of them iff the rows of the key that were updated later agree on those fields
  (`PodEvents.FixedIffLaterRowsAgree`).
- Scores are positive as long as no counted event has a negative count: an event adds points iff its count is not negative
  (`TargetRanking.EventIsPositiveIff`, `TargetRanking.ScoreIsBounded`).

## Model

| member | source | states |
|---|---|---|
| SingleFlight.NodeNamespaceState.CachedOrDownNow | app/context/deployments.py:295-305 | a fresh snapshot is served whatever the breaker says; without one an open breaker answers None |
| SingleFlight.NodeNamespaceState.Enter | app/context/deployments.py:267-276 | under the lock a call answers, joins the flight of its node or opens one, and changes nothing else |
| SingleFlight.NodeNamespaceState.Publish | app/context/deployments.py:286-290 | the result is cached only if the query succeeded, and the node always leaves the in-flight table |
| SingleFlight.NodeNamespaceState.TripBreaker | app/context/deployments.py:347-350 | the breaker holds for one TTL from now |
| SingleFlight.StepKeepsOwnership | app/context/deployments.py:267-292 | every step of every thread keeps: each flight has its owner, flights are fresh, every unset event awaited has a holder |
| SingleFlight.StepKeepsHistory | app/context/deployments.py:267-305 | every step keeps the four laws of the history |
| SingleFlight.EveryRunIsSound | app/context/deployments.py:238-350 | ownership, stamps and history laws hold in every reachable state of any number of threads |
| SingleFlight.OneOwnerPerNode | app/context/deployments.py:267-292 | a node is in the in-flight table iff exactly one thread owns its query, so at most one query per node is under way |
| SingleFlight.HolderCanFinish | app/context/deployments.py:283-292 | whatever the outcome of its query, a thread that holds an event sets it in at most four steps of its own |
| SingleFlight.NoLostWakeup | app/context/deployments.py:267-292 | every waiter on an unset event has a holder that still sets it, in at most four steps of its own and for every outcome of its query |
| SingleFlight.FreshPublishIsCached | app/context/deployments.py:286-305 | a snapshot published less than a TTL ago is the cached one |
| SingleFlight.EveryHistory | app/context/deployments.py:267-350 | in every run: successful publishes of a node are a TTL apart, no query starts within a TTL of a trip, table answers are snapshots of that node younger than the TTL, and a trip never hides a fresh one |
| SingleFlight.CallsAnswerTheirQuery | app/context/deployments.py:278-292 | in every run a call that asked the API returns the snapshot listed for it, None after a failure, and raises iff its query raised; a failed query has tripped the breaker |
| SingleFlight.ClosingSteps | app/context/deployments.py:283-292 | only the listed snapshot of a call's own query goes into cache and history under the node it asked for, only a failed query trips, and the call answers what its query said |
| SingleFlight.TurnedAwayOnlyWhenDown | app/context/deployments.py:299-305 | a call is turned away without a snapshot only within a TTL after a trip |
| SingleFlight.EnterAnswersAtOnce | app/context/deployments.py:267-276 | a call that enters within a TTL after a publish for its node gets that snapshot, one that enters within a TTL after a trip returns at once, any other waits or asks |
| SingleFlight.NoCallIsStuck | app/context/deployments.py:257-292 | at any time a new call can enter (without a node it returns None at once), a waiting one can give up waiting, and one that has waited can look again and return |
| SingleFlight.NothingAtStart | app/context/deployments.py:341-343 | everything starts empty, with the breaker closed |
| CriticModel.NoRefutationsIffGrounded | app/agents/fact_critic.py:96-128 | a hypothesis has no algorithmic refutation iff every anchor is unknown or observed above the floor |
| CriticModel.GroundedByBestFact | app/agents/fact_critic.py:96-128 | an anchor is grounded iff its best observation reaches a quarter, or its kind was never observed and once unknown |
| CriticModel.RefutationsNameAnchors | app/agents/fact_critic.py:96-128 | the refutations of a hypothesis are exactly the ones that name an anchor of it that is not grounded, as unseen or as seen too weakly |
| CriticModel.CollectRefutations | app/agents/fact_critic.py:96-128 | the loop collects exactly the refutations of the anchors, in order |
| CriticModel.Precheck | app/agents/fact_critic.py:299-331 | the model is needed iff every anchor is grounded; a refuted hypothesis goes no further and a kept one keeps anchors and cause |
| CriticModel.ConfidenceIsLoweredIff | app/agents/fact_critic.py:131-143 | the confidence that goes on is 0.6 of the old one, to four digits, iff some anchor's best observation lies in [0.25, 0.5), and unchanged otherwise |
| CriticModel.SurvivorsAreUnrefuted | app/agents/fact_critic.py:571-573 | the survivors are exactly the unrefuted hypotheses |
| CriticModel.BestCandidate | app/agents/fact_critic.py:581-586 | the best survivor by confidence, then anchors, first among equals; none iff nothing survived |
| CriticModel.BestCandidateIsFirst | app/agents/fact_critic.py:581-586 | every survivor before the best candidate is strictly worse |
| BatchCritic.IdIsInjective | app/agents/fact_critic.py:509-512 | the ids of a batch tell its hypotheses apart |
| BatchCritic.ParseBatch | app/agents/fact_critic.py:266-296 | a key for exactly the wanted ids that some object with a list answers for, each with the non-empty strings of the first such entry, in order |
| BatchCritic.NonEmptyKeeps | app/agents/fact_critic.py:295-295 | cleaning keeps exactly the non-empty strings, in order, and leaves nothing iff there were none |
| BatchCritic.FirstValidOnRaw | app/agents/fact_critic.py:283-296 | the verdict under an id is the cleaned list of the first entry that answers for it, and none iff no entry does |
| BatchCritic.VerdictOnRaw | app/agents/fact_critic.py:556-568 | what a call says about a hypothesis, on its raw answer |
| BatchCritic.AsksAgainIff | app/agents/fact_critic.py:518-564 | a chunk asks again iff its call for several came back unanswered and at least its own duration was left; without that time a truncation raises and a failure gives no verdict |
| BatchCritic.BatchHearsEveryAnswer | app/agents/fact_critic.py:482-568 | no answer of a run is ignored or overruled |
| BatchCritic.AskBatchLoop | app/agents/fact_critic.py:482-568 | terminates on every oracle behaviour and returns a verdict slot for exactly the pending indices, as the recursive specification says |
| BatchCritic.AskHalvesLoop | app/agents/fact_critic.py:518-555 | splitting in halves and merging gives the verdicts of both in order |
| BatchCritic.AskChunksLoop | app/agents/fact_critic.py:500-507 | chunking gives the verdicts of all chunks in order |
| BatchCritic.ChunkCost | app/agents/fact_critic.py:482-568 | a chunk of n hypotheses costs between 1 and 2n-1 calls, whatever the oracle does |
| BatchCritic.BatchCost | app/agents/fact_critic.py:500-568 | the whole batch costs at most 2n calls less one per chunk |
| BatchCritic.ChunkExplained | app/agents/fact_critic.py:500-568 | every verdict of a chunk was given by a call of this very run about that hypothesis |
| BatchCritic.BatchExplained | app/agents/fact_critic.py:482-568 | every verdict of a batch was given by a call of this very run about that hypothesis |
| BatchCritic.SteadyChunk | app/agents/fact_critic.py:500-568 | with an oracle whose opinion of a hypothesis does not depend on its batch, and every unanswered call of this run leaving time to split it, a chunk gets exactly the opinions of its hypotheses, or raises if one is truncated |
| BatchCritic.SteadyBatch | app/agents/fact_critic.py:482-568 | the same for every batch maximum |
| BatchCritic.BatchHasTime | app/agents/fact_critic.py:461-467 | with calls of bounded duration and time for two calls per hypothesis, every split of the run is in time |
| BatchCritic.EveryOpinionIsHeld | app/agents/fact_critic.py:513-564 | every mix of answers, unparsable answers, failures and truncations is held by an oracle whose calls take time |
| CriticModes.PendingIsExact | app/agents/fact_critic.py:441-447 | pending are exactly the positions that passed the algorithmic check, in order |
| CriticModes.ReviewedIsTopN | app/agents/fact_critic.py:449-458 | the model sees exactly the top N by penalised confidence, ties by original order, in original order |
| CriticModes.BatchKeepsOrder | app/agents/fact_critic.py:433-480 | the output keeps length and order, and only refutations and a lowered confidence change |
| CriticModes.UnrefutedWasReviewed | app/agents/fact_critic.py:433-568 | fail closed: what comes out unrefuted passed the check, was within the top N, and was cleared by its first valid entry or by its own failed single-item call |
| CriticModes.AnsweredRefutationsStay | app/agents/fact_critic.py:467-479 | whatever answer of the run covered a hypothesis, the non-empty refutations of its first entry are the ones that come out: one of them is enough to refute |
| CriticModes.BestCandidateWasReviewed | app/agents/fact_critic.py:571-586 | the best candidate is never a hypothesis that nobody reviewed |
| CriticModes.CritiqueCost | app/agents/fact_critic.py:433-568 | a batch critique costs at most 2n calls less the number of chunks, n the reviewed hypotheses |
| CriticModes.CritiqueCallsAreSmall | app/agents/fact_critic.py:500-507 | no call is about more hypotheses than the batch maximum |
| CriticModes.CritiqueEachLoop | app/agents/fact_critic.py:416-431 | the per-hypothesis loop gives each hypothesis its own verdict and stops at a truncation |
| CriticModes.CritiqueBatchLoop | app/agents/fact_critic.py:433-480 | patching the output list slot by slot gives the specified outcome of every slot |
| CriticModes.CheckedRefinesSingle | app/agents/fact_critic.py:380-568 | after the check, on any inputs, the modes agree iff a pending answer is truncated, so that both raise, or every pending opinion is read alike: parsable, and a failed call only where there was no refutation |
| CriticModes.BatchRefinesSingle | app/agents/fact_critic.py:380-568 | batch mode refines per-hypothesis mode, for every batch maximum and every pattern of unanswered calls that this run has time to split; for inputs without refutations the modes agree iff no pending answer is unparsable or one is truncated |
| CriticModes.LongStageIsInTime | app/agents/fact_critic.py:461-467 | a stage timeout of two longest calls per pending hypothesis gives that time |
| CriticModes.RefinementIsReached | app/agents/fact_critic.py:433-568 | the refinement holds, not vacuously, for every mix of opinions, with calls that take time and fail wherever they can |
| CriticModes.OutageClearsAll | app/agents/fact_critic.py:533-564 | in a provider outage every pending hypothesis comes out unrefuted, as in per-hypothesis mode |
| IncidentClaim.OnlyFiringInScopeClaims | app/api/webhooks.py:465-567 | only a valid, firing, in-scope alert can claim, and a swap never expects a status in `_SKIP_STATES` |
| IncidentClaim.IncidentTable.InsertRow | app/api/webhooks.py:582-644 | under UNIQUE the row is inserted iff the incident had none |
| IncidentClaim.IncidentTable.ClaimRefire | app/api/webhooks.py:334-368 | the swap writes iff the status is still the expected one, and changes no other row |
| IncidentClaim.IncidentTable.ApplyResolve | app/api/webhooks.py:371-435 | decided on the status read, written without a check: RESOLVED with the row's data, or, deferred, the status with the whole dictionary that was read and its marker; no other row changes |
| IncidentClaim.IncidentTable.HandleBatch | app/api/webhooks.py:465-644 | the loop over the alerts does to rows and replies what handling one alert after the other does |
| IncidentClaim.EveryRun | app/api/webhooks.py:334-644 | plans are sound and accounts balance in every reachable state, with reads as stale as you like |
| IncidentClaim.RecordsAreTrue | app/api/webhooks.py:334-644 | every record names the status that the row had and has, and no other row changes |
| IncidentClaim.SilenceChangesNoStatus | app/api/webhooks.py:416-428 | a step without a record changes no status, and no data unless it defers a resolve |
| IncidentClaim.EachAlertIsHandled | app/api/webhooks.py:465-644 | the decision table of the webhook: the row left and the reply for every kind of alert on every status |
| IncidentClaim.DispatchAccounting | app/api/webhooks.py:334-368 | dispatches, done and owed, equal INSERT wins plus swap wins; at most one INSERT wins and at most one swap per visit outside `_SKIP_STATES` |
| IncidentClaim.OnlyFiringInScopeStarts | app/api/webhooks.py:465-567 | resolved, out-of-scope and invalid alerts never dispatch |
| IncidentClaim.ClaimsNeedAVisit | app/api/webhooks.py:334-368 | between two claims of an incident its row left `_SKIP_STATES` |
| IncidentClaim.ReclaimsRunningPipeline | app/api/webhooks.py:465-465 | a re-fire claims a non-terminal row exactly in the statuses that `_SKIP_STATES` forgets |
| IncidentClaim.RefireStartsIffOutsideSkip | app/api/webhooks.py:465-644 | an undisturbed firing alert starts a pipeline iff the row is missing or outside `_SKIP_STATES` |
| IncidentClaim.ResolveIsIllegalIffRowLeft | app/api/webhooks.py:398-414 | in every run, a resolve that read the current row writes along an illegal edge iff the row left the statuses that may resolve between its read and its write and was still out |
| IncidentClaim.LateResolveWritesIllegally | app/api/webhooks.py:404-408 | a run in which a pipeline step comes between, and an incident awaiting approval is closed |
| IncidentClaim.DeferredResolveKeepsFlapsIffReadIsCurrent | app/api/webhooks.py:416-428 | a deferred resolve keeps the status, leaves its marker, and keeps the flap count iff the count it read is current |
| IncidentClaim.DeferredResolveUndoesFlap | app/api/webhooks.py:416-428 | from any count, a run in which it undoes the flap that a re-fire has just counted |
| IncidentClaim.FlapCountIsExactIffReadIsCurrent | app/api/webhooks.py:334-368 | the flap count grows by exactly one iff the count read is the current one |
| IncidentClaim.BatchDispatchBound | app/api/webhooks.py:465-644 | one batch dispatches an incident at most once, plus once per resolve in it |
| ClickLimiter.RateState.Check | app/api/discord_interactions.py:123-146 | eviction loop, comparison and append on the deque of the clicking user only |
| ClickLimiter.AllowedIffWindowNotFull | app/api/discord_interactions.py:118-146 | a click goes through iff fewer than cap accepted clicks of that user lie in the last 3600 s |
| ClickLimiter.UnlimitedClicksGoThrough | app/api/discord_interactions.py:128-135 | without a cap or a user every click goes through and no deque changes |
| ClickLimiter.SkewedWithinCap | app/api/discord_interactions.py:118-146 | if no stamp of a user lies more than d behind an earlier one, no closed interval of 3600 - d s holds more than cap accepted clicks of that user, in any run |
| ClickLimiter.NeverMoreThanCap | app/api/discord_interactions.py:118-146 | with stamps in order, no closed interval of 3600 s does |
| ClickLimiter.UsersAreIndependent | app/api/discord_interactions.py:118-146 | leaving out the clicks of others changes nothing for a user |
| ClickLimiter.SkewBreaksTheBound | app/api/discord_interactions.py:136-146 | for every cap from two on and every skew, however small, a run puts cap + 1 accepted clicks into one window |
| ClickLimiter.RunOfCapOne | app/api/discord_interactions.py:136-146 | with a cap of one, accepted clicks are more than a window apart in whatever order the stamps come |
| ClickLimiter.GuaranteedIff | app/api/discord_interactions.py:136-146 | over all runs of skew d, the bound of cap per window is guaranteed iff cap is one or d is zero |
| ApprovalDecisions.IsAuthorizedApprover | app/api/discord_interactions.py:82-112 | listed user or role, and nobody when nothing is listed |
| ApprovalDecisions.ActionApprovals.RecordDecision | app/api/discord_interactions.py:420-484 | inserts iff the pair has no row, otherwise returns the row that stands |
| ApprovalDecisions.EveryRun | app/api/discord_interactions.py:638-895 | in every interleaving of clicks the table, the log and the dispatches fit together |
| ApprovalDecisions.RunsGoOn | app/api/discord_interactions.py:638-895 | everything starts empty and every step that is possible continues the run |
| ApprovalDecisions.TableOnlyGrows | app/api/discord_interactions.py:420-484 | no step changes or removes a row |
| ApprovalDecisions.DecisionsAreWriteOnce | app/api/discord_interactions.py:420-484 | a row never changes and was written exactly once, by an authorised clicker |
| ApprovalDecisions.DispatchFollowsApproval | app/api/discord_interactions.py:638-895 | every dispatch comes after the approval of that pair; a pair first declined is never dispatched |
| ApprovalDecisions.EveryRecordIsByButton | app/api/discord_interactions.py:703-760 | in every run a decision is about the clicked pair and says declined iff the decline button was clicked; only approve and confirm clicks dispatch |
| ApprovalDecisions.DeclineButtonIsFinal | app/api/discord_interactions.py:638-895 | a pair decided by a decline click is never dispatched |
| ApprovalDecisions.ApproveDispatchesAtMostOnce | app/api/discord_interactions.py:703-895 | two dispatches of one pair are not both from the approve button |
| ApprovalDecisions.ConfirmDispatchesApproved | app/api/discord_interactions.py:638-693 | an approved pair can always be dispatched again through apply_confirm by a click that passes the gates |
| ApprovalDecisions.GatesIff | app/api/discord_interactions.py:149-169 | a click passes iff its user is authorised and within the limit; the confirm button also needs a token and approval switched on |
| ApprovalDecisions.DecisionGoesOnIff | app/api/discord_interactions.py:655-895 | approve goes on to dispatch iff it was the first decision and both flags are on, confirm iff the pair stands approved, decline never; the row written says what the button says |
| ApprovalDecisions.ApproveNeedsBothFlags | app/api/discord_interactions.py:703-895 | with one flag off the approve button never dispatches |
| ApprovalDecisions.DispatchersPassedGates | app/api/discord_interactions.py:638-895 | whoever dispatched was authorised, with the flags of that button on |
| ApprovalDecisions.DecisionsAreLimited | app/api/discord_interactions.py:149-170 | in every interleaving an identified user writes at most cap decisions and makes at most cap dispatches by clicks within one closed window, less the skew of the stamps |
| FallbackLimiter.FallbackCounters.CheckLocalFallback | app/api/rate_limit.py:101-127 | counts the use, moves the key to the end, evicts from the front, and allows iff the count was below 10 |
| FallbackLimiter.OrderIsRecentTail | app/api/rate_limit.py:108-113 | in every run the ordered map is the list of the most recently used keys |
| FallbackLimiter.HeldIffFewOthersSince | app/api/rate_limit.py:108-113 | a used key is still held iff fewer than the maximum of distinct other keys were used since |
| FallbackLimiter.NeverOvercounts | app/api/rate_limit.py:101-127 | the bounded count never exceeds the unbounded one |
| FallbackLimiter.NeverBlocksMore | app/api/rate_limit.py:101-127 | never blocks what the unbounded counter allows and never holds more than 8192 keys |
| FallbackLimiter.ExactIffGapsAreSmall | app/api/rate_limit.py:101-127 | the count a key meets is exact iff every gap between its uses has fewer than the maximum of distinct other keys |
| FallbackLimiter.SameDecision | app/api/rate_limit.py:101-127 | for such a key every decision is the unbounded counter's |
| OutageBound.CheckAlertmanager | app/api/rate_limit.py:130-161 | Redis decides when INCR, and for count 1 EXPIRE, are answered; otherwise the replica's own counter does; a request without an address passes |
| OutageBound.RunKeepsBound | app/api/rate_limit.py:130-161 | every run without eviction keeps the account of shared and local admissions |
| OutageBound.SharedCountsApplied | app/api/rate_limit.py:141-150 | the shared counter stands at the INCRs that reached it since it last vanished, their answers lost or not |
| OutageBound.PossibleSteps | app/api/rate_limit.py:141-161 | the runs are all runs: any request can be answered or lost at either call |
| OutageBound.OutageBound | app/api/rate_limit.py:130-161 | with N replicas and Redis failing at any step at most 10 (N + 1) requests pass, plus 10 each time the shared key vanishes |
| OutageBound.HealthyRedisIsExact | app/api/rate_limit.py:143-157 | with a healthy Redis exactly the first 10 requests pass, those waiting for EXPIRE included |
| OutageBound.LostRequestsFallBack | app/api/rate_limit.py:158-161 | every request whose INCR or EXPIRE is lost falls back to its replica, which lets exactly the first 10 through |
| OutageBound.OutageBoundIsReached | app/api/rate_limit.py:101-161 | for every N some run admits the whole 10 (N + 1) |
| SeqTemplate.ExtractMessageTemplate | app/context/seq_client.py:361-385 | the rendered tokens unless blank, otherwise the first of MessageTemplate, RenderedMessage and Message that is not empty |
| SeqTemplate.TwoPassesEscape | app/context/seq_client.py:61-83 | the two replacements double every brace exactly once |
| SeqTemplate.ParseOfRender | app/context/seq_client.py:61-83 | the parser recovers the normalised pieces of every list with good holes |
| SeqTemplate.RenderOfParse | app/context/seq_client.py:61-83 | what parses is rendered back unchanged, from normalised good pieces |
| SeqTemplate.NormaliseIsNormal | app/context/seq_client.py:61-83 | a normal form has no empty and no adjacent texts |
| SeqTemplate.NormalIsFixed | app/context/seq_client.py:61-83 | a list in normal form is its own normal form |
| SeqTemplate.RecoversIffGood | app/context/seq_client.py:61-83 | pieces are recovered iff every hole is good |
| SeqTemplate.CanonIsBijective | app/context/seq_client.py:61-83 | two templates render to one string iff they are the same template |
| SeqTemplate.TokensAreRecovered | app/context/seq_client.py:361-380 | the parser recovers the normalised template from the rendered tokens |
| SeqTemplate.TokensCollideIffSameTemplate | app/context/seq_client.py:361-380 | two token lists give one string iff they are the same template |
| SeqTemplate.RawIsRecoveredIffGood | app/context/seq_client.py:371-374 | a placeholder given as raw text is read back as one hole iff it is good |
| SeqTemplate.GoodTokensAre | app/context/seq_client.py:364-377 | the good tokens, field by field |
| SeqTemplate.PiecesAre | app/context/seq_client.py:364-377 | the text or the hole that each token stands for |
| SeqTemplate.BracedRawCollides | app/context/seq_client.py:371-374 | without that condition raw text in doubled braces collides with plain text |
| SeqPagination.CountEventsDetailed | app/context/seq_client.py:142-231 | the cursor loop stops at the first page that is not full or has no cursor, or after 20, with the total and flag stated over the list alone; it fails iff a request it makes fails |
| SeqPagination.LowerBound | app/context/seq_client.py:179-231 | the total is never too high and is exact iff no event lies behind the items seen |
| SeqPagination.UncappedIsExact | app/context/seq_client.py:203-206 | on a list of events an uncapped total is exact and a capped one is whole pages |
| SeqPagination.UncappedIff | app/context/seq_client.py:204-224 | uncapped iff fewer than 20000 events and every page boundary has an id |
| SeqPagination.ClosingIsTheId | app/context/seq_client.py:118-125 | the cursor after a full page is the id of its last event, and none if that is empty or no event |
| SeqPagination.CountWithIds | app/context/seq_client.py:179-231 | with all ids present: exact below 20000, otherwise 20000 and capped |
| SeqPagination.CappedButExactIff | app/context/seq_client.py:148-154 | a capped count is all there is exactly when the counted pages end the list |
| SeqPagination.AtPage | app/context/seq_client.py:183-218 | one page, reached by its cursor, decides the answer or leads to the page after it |
| SeqPagination.NonDictHidesEvents | app/context/seq_client.py:202-206 | one item that is no dictionary on the first page makes the count 999 and uncapped, however many events follow |
| PodEvents.Latest | app/context/kg_incident_context.py:344-370 | one event per (namespace, pod, reason), each from the first of the latest rows of its key after clipping |
| PodEvents.PodEventsOf | app/context/kg_incident_context.py:344-376 | keys unique, each event repeats the last active row of its key with its count only if known by `as_of`, no time after `as_of`, own namespace then warnings then newest, at most 40 |
| PodEvents.QueryScansWindow | app/context/kg_incident_context.py:324-343 | at most 400 rows of the window are scanned, newest first, and no row left out is newer |
| PodEvents.RankedInOrder | app/context/kg_incident_context.py:371-375 | the ranking orders by the three-part key |
| PodEvents.LaterRowWins | app/context/kg_incident_context.py:347-369 | a key with a row updated later is emitted as (`as_of`, unknown count) |
| PodEvents.FutureDoesNotLeak | app/context/kg_incident_context.py:324-376 | with neither limit reached, rewriting later updates changes no emitted (namespace, pod, reason, last seen, count) |
| PodEvents.EmittedIffChosen | app/context/kg_incident_context.py:344-376 | with neither limit reached, the output holds exactly the events of the latest rows of the keys |
| PodEvents.FixedIffLaterRowsAgree | app/context/kg_incident_context.py:344-370 | the whole event of a key, message included, is independent of later updates iff all its rows updated later would show the same event |
| PodEvents.RaisedRowIsShown | app/context/kg_incident_context.py:344-370 | any row of a key that was updated later can be made the one shown by a later update |
| PodEvents.SharedKeyLeaksMessage | app/context/kg_incident_context.py:344-370 | two rows of one key, both updated later: which message is shown depends on those updates |
| TargetRanking.ProximityDecays | app/context/kg_incident_context.py:697-704 | an older event never weighs more |
| TargetRanking.ProximityByAge | app/context/kg_incident_context.py:697-704 | the weight at an age is 30 / (30 + minutes), one after `as_of`, one half when unknown |
| TargetRanking.EventAdds | app/context/kg_incident_context.py:735-743 | a pod event adds its count, one for none and at most 20, times its weight, a fifth of that for a failed probe, to the owner of its pod |
| TargetRanking.AlertAdds | app/context/kg_incident_context.py:744-753 | an alert adds five times its weight to its own service, under its name |
| TargetRanking.Accumulate | app/context/kg_incident_context.py:719-753 | one candidate per workload with evidence, its score the sum of its contributions, with all its reasons and sources |
| TargetRanking.ApplyMedicText | app/context/kg_incident_context.py:754-760 | the text multiplies by 1.5 exactly the candidates that it names and that have a reason other than a failed probe, and changes nothing else but their sources |
| TargetRanking.SelectTargets | app/context/kg_incident_context.py:707-763 | the result descends by score, holds at most the limit, and is the positive part of the ranked candidates |
| TargetRanking.Round2IsNearest | app/context/kg_incident_context.py:762-762 | a score is shown as the nearest number of hundredths |
| TargetRanking.KeepsTheWorst | app/context/kg_incident_context.py:761-761 | no candidate cut by the limit scores more than one kept |
| TargetRanking.CandidateIff | app/context/kg_incident_context.py:728-753 | a workload is a candidate iff a bad event or live alert of its own counts |
| TargetRanking.WarmUpIsNoEvidence | app/context/kg_incident_context.py:735-739 | failed probes during its own rollout alone never make a candidate |
| TargetRanking.EventIsPositiveIff | app/context/kg_incident_context.py:740-741 | an event adds to a score iff its count is not negative |
| TargetRanking.ScoreIsBounded | app/context/kg_incident_context.py:707-763 | every score is positive (counts not negative) and at most 1.5 (20 per bad event + 5 per alert) |
| Migration.Database.Upgrade | alembic/versions/20260807_0400_kg_idempotency_constraints.py:47-114 | all three tables are transformed, or none when a new key does not hold |
| Migration.Database.Downgrade | alembic/versions/20260807_0400_kg_idempotency_constraints.py:117-169 | the old edge and log keys hold again, the columns are gone, deployments stay |
| Migration.DedupIsUnique | alembic/versions/20260807_0400_kg_idempotency_constraints.py:47-61 | after the DELETE the key is unique under SQL NULL semantics |
| Migration.SurvivorsAreOldest | alembic/versions/20260807_0400_kg_idempotency_constraints.py:47-61 | exactly the rows with a NULL in the key and the least id of every other key survive, unchanged |
| Migration.OneSurvivorPerKey | alembic/versions/20260807_0400_kg_idempotency_constraints.py:47-61 | every key without NULLs keeps exactly one row |
| Migration.LosesNothingIffUnique | alembic/versions/20260807_0400_kg_idempotency_constraints.py:124-163 | the DELETE removes nothing iff the key already held |
| Migration.NamesCollideOnlyWithinService | alembic/versions/20260807_0400_kg_idempotency_constraints.py:72-83 | two surrogate names are equal iff both rows have one service, or are the same row without one |
| Migration.NamesOfOldLogs | alembic/versions/20260807_0400_kg_idempotency_constraints.py:72-83 | an old log row is named after its service if that is known, after its own id otherwise |
| Migration.DirectionsOfOldEdges | alembic/versions/20260807_0400_kg_idempotency_constraints.py:102-106 | an old NATS edge keeps the direction of its extras, any other edge gets the empty one |
| Migration.ConflictsByColumn | alembic/versions/20260807_0400_kg_idempotency_constraints.py:57-114 | two rows conflict under a key iff all its columns agree and none is NULL |
| Migration.BackfillUniqueIff | alembic/versions/20260807_0400_kg_idempotency_constraints.py:64-93 | the backfilled names meet the new log key iff the old one held |
| Migration.UpgradeNeverFails | alembic/versions/20260807_0400_kg_idempotency_constraints.py:47-114 | on every table that satisfies the old keys all new keys hold |
| Migration.BackfillLosesNothing | alembic/versions/20260807_0400_kg_idempotency_constraints.py:64-83 | no log row and no old column of one is lost |
| Migration.DirectLosesNothing | alembic/versions/20260807_0400_kg_idempotency_constraints.py:96-106 | no edge and no old column of one is lost |
| Migration.DowngradeUndoesUpgrade | alembic/versions/20260807_0400_kg_idempotency_constraints.py:47-164 | downgrading a fresh upgrade gives back every log and edge |
| Migration.SecondUpgradeKeepsDeployments | alembic/versions/20260807_0400_kg_idempotency_constraints.py:47-61 | upgrading again deletes no more deployments |
| Migration.DowngradeDropsSecondDirection | alembic/versions/20260807_0400_kg_idempotency_constraints.py:119-137 | of two directions of one edge the downgrade keeps the older |
| CommandDsl.ValidateParams | app/core/execution_dsl.py:182-211 | accepts exactly replicas in 1..100, current replicas in 0..2^31-1 and labels of the charset, digit strings turned into numbers and nothing else changed |
| CommandDsl.ValidationIsIdempotent | app/core/execution_dsl.py:182-211 | what was validated validates again, unchanged, with numbers in range |
| CommandDsl.TextCountsAreAccepted | app/core/execution_dsl.py:187-206 | the text of a count is accepted iff the count is in range, and becomes that number |
| CommandDsl.PatternsByAlphabet | app/core/execution_dsl.py:136-210 | names, labels, playbook names and match hashes by their alphabets and lengths |
| CommandDsl.OtherLabels | app/core/execution_dsl.py:207-210 | a label that is no string counts by its Python text and truth value, and a dictionary is no label |
| CommandDsl.DefaultsApply | app/core/execution_dsl.py:136-146 | a missing namespace is `default`, a missing risk `medium`, missing parameters are none |
| CommandDsl.ModelValidate | app/core/execution_dsl.py:136-211 | accepts exactly the well-typed objects whose fields pass, and builds a valid intent |
| CommandDsl.DumpRoundTrip | app/core/execution_dsl.py:136-211 | an intent is valid iff its own dump is accepted and gives it back |
| CommandDsl.ServerFieldsAreDropped | app/core/execution_dsl.py:125-133 | `playbook_match` and `current_replicas` are gone and every other field stays |
| CommandDsl.FromLlmResponse | app/core/execution_dsl.py:213-266 | the whole text wins over the embedded object; the intent is valid and carries nothing that only the server may set |
| CommandDsl.ToArgv | app/core/execution_dsl.py:271-324 | the list built by appending, read back as kubectl reads it, has the effect of a valid intent |
| CommandDsl.ArgvMeansEffect | app/core/execution_dsl.py:290-324 | a reader of kubectl argument lists recovers the effect of every valid intent |
| CommandDsl.DisplayMeansEffect | app/core/execution_dsl.py:326-343 | and recovers it from the display string |
| CommandDsl.EffectInFields | app/core/execution_dsl.py:290-323 | the effect in the intent's own fields: one replica unless it says how many, a precondition iff it carries a live count, a selector iff its label is not empty |
| CommandDsl.MutatingIffItChanges | app/core/execution_dsl.py:348-384 | an action is registered as mutating iff it restarts or scales |
| CommandDsl.SplitUndoesJoinIff | app/core/execution_dsl.py:326-343 | splitting a joined list gives it back iff no word is empty or holds whitespace |
| CommandDsl.DisplaySplitsToArgv | app/core/execution_dsl.py:326-343 | splitting the display string of a valid intent gives exactly its argument list |
| CommandDsl.ArgvIsEffect | app/core/execution_dsl.py:290-324 | two valid intents have one argument list iff they do the same: action, namespace, resource, effective replicas, precondition |
| CommandDsl.DisplayIsEffect | app/core/execution_dsl.py:326-343 | what a human is shown determines what is applied |
| CommandDsl.ModelSetsNoPrecondition | app/core/execution_dsl.py:118-133 | no option of an intent from the model is `--current-replicas`; only the value of a label may look like it |
| CommandDsl.LabelIsOnlyASelector | app/core/execution_dsl.py:315-323 | whatever an accepted label looks like, the command selects pods by it and sets nothing |
| CommandDsl.LabelMayLookLikeOne | app/core/execution_dsl.py:207-210 | the label character set accepts `--current-replicas=3` |
| CommandDsl.OneNamespace | app/core/execution_dsl.py:153-170 | a mutating command names one namespace, its own, and never a forbidden one |

## Left out

- Network, Discord, Kubernetes, Seq, Redis and language-model calls are oracles or inputs; what they return is a parameter.
- Clocks are parameters. The cache's clock never goes back, as its monotonic clock does not; the laws of the click limiter, which reads the wall clock, are for stamps that do not go back.
- The count of pods and the summary that `_query_node_namespaces` builds from the API answer: a query returns a snapshot, fails or raises.
- JSON and regular-expression engines: the models start after parsing, and character sets are predicates. `str.isdigit` is taken on ASCII text.
- The number printed in the refutation text for a weak anchor, and the wording of prompts.
- Signatures, suppression lists and label validation of webhooks: an alert arrives classified as valid, firing and in scope.
- Expiry of the Redis key and loss of Redis data appear only as the `Lapse` step of the outage model.
- Lexicographic comparison of ISO times is taken as comparison of times; messages are taken as redacted.
- Ties in `ORDER BY last_act DESC` keep the table's order.
- Floating-point rounding of scores and confidences: they are exact reals, rounded half to even where the code rounds.
- TargetRanking.SelectTargets: a negative `limit` is not modelled, because no caller passes one; reasons and sources stay sets instead of sorted lists.
- `workload_of` and the search for a workload's name in the medic's text are parameters.
- The retry decorators, metrics, logs and audit records of every file.
- The alert store-only and enrich-and-forward endpoints, the Jira, feedback and rendering code, and the configuration: they
  hold no protocol and no algorithm beyond what their branches say.
- A missing recording of a language-model call: it exists in replays only, where batch mode raises and per-hypothesis mode
  does not; the refinement is about calls that answer, fail or are truncated.
- The click limiter of several processes: each has its own, and the bounds are per process.
