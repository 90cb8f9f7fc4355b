# Verified model of the agent service's retry engine and release tooling

This project models, in Dafny 4.11, the parts of the repository whose correctness depends on
state, interleaving or arithmetic, and proves what they promise for every input and every run.

* **Model calls with retry, fallback and resume** (`Retry`, `ToolReplayFence`, `FenceSafety`,
  `ResumedLoop`, `LlmExecutor`, `ExecutorGuarantees`, `AttemptSequence`, `AttemptRecords`, `ReplayWindow`,
  `ForeignReasoning`, `ResumeTransparency`).
  `generate` runs a multi-step tool loop under attempts and candidate models. Steps that ended in
  tool results are carried into the next attempt. A fence shared by all attempts and parallel calls
  keeps a side-effecting tool from running twice. Providers and tools are a script: for each provider
  call, the tool events during it, its end, and the tool events while `generate` waits to retry.
  `Generate` is the program; `Generated` is what it does as a function of the script. `AttemptSequence` and
  `AttemptRecords` say what that is without the program's own decisions: which calls are made, what each starts
  from, what is returned and what the trail tells.
* **Notice delivery** (`NoticeDelivery`). Any number of processes share two marker files. Each file
  operation and each POST is one atomic action; crashes happen anywhere. The method `SendNotice` performs the
  actions of one process with the others interfering between any two of them.
* **Approval bridge** (`ReviewAssessment`, `ReviewRules`, `ApprovalBridge`, `BridgeRules`). Each of the three reads
  may see a different pull request; any write may throw. The two rule modules state what is decided over the states
  read alone.
* **Algorithms against their simple form** (`EditDistance`, `JsText`, `SseRewriter`, `Sorting`): the one-row
  edit distance, and the line rewriter for the event stream of section 9.2.5 of the WHATWG HTML standard.
* **Releases** (`ReleaseVersions`, `ReleaseState`, `Changelog`): version bumps after clauses 6 to 8 and 11 of
  Semantic Versioning 2.0.0, the pending/released state machine, and the changelog text as it is
  written and read back.
* **Batch tools** (`RedisContent`, `RedisCleanup`, `WorkerPool`, `BackfillPlan`): snapshot, backup and
  compare-and-delete under concurrent writers; the concurrency pool; the greedy assignment of bookings.

Where the source changes state, the model has a class or a method with the same loop, and its contract equates
the new state with a function; the lemmas are about that function. Verify everything with
`dafny verify dfyconfig.toml`.

Five promises turned out to hold only under a condition, which is proved to be the exact one:

* `blockedNames` follows the recorded evidence at every event but one: a no-effect return of a call whose
  tool has other evidence (`FenceSafety.SyncKeptExactlyWhen`, with a run in `ObserveInFlightCanUnblock`).
* An attempt starts with every evidenced action's result in its prefix unless a call was started during the
  wait before it and left open (`ReplayWindow.ReplayWindowExactly`, with such a run in `CallCanStartWhileWaiting`).
* Released changelog sections read back unchanged exactly when `Changelog.KeepsHistory` holds: no
  start-then-end marker pair in the history when there is no pending block, and no section heading
  behind a stray end marker in the pending block when there is one (`Changelog.RoundTrip`; inputs that fail are in
  `QuotedMarkersAreLost` and `QuotedHeadingIsRead`).
* A new pull request does not lower the next version unless it comes under a tag below the old base in the places
  that the new highest level keeps (`ReleaseState.NextVersionKeptExactlyWhen`, with a run in `OlderTagCanLower`).
* Reasoning parts stay with the model that made them except on an attempt that follows one at the same model: then
  all carried reasoning is sent (`ForeignReasoning.ReasoningSentExactlyWhen`, with a run in
  `ForeignReasoningIsResentLater`).

## Model

| member | source | states |
|---|---|---|
| Retry.BoundedModelAttempts | src/infra/config/constants/runtime-retry.constants.ts:23-27 | the attempt cap is the floor of a finite value from 1 to below 4, 1 below that, and 3 above it or without a value |
| Retry.ClampIdempotent | src/providers/reliable.service.ts:74-86 | clamping twice, as `shouldRetry` and `generate` do to an already clamped configuration, changes nothing |
| Retry.GetBackoffMs | src/providers/reliable.service.ts:88-104 | a Retry-After counts in seconds up to 30 s; without one the first attempt waits the base, up to the maximum; never more than the larger of 30 s and the maximum, and not negative for non-negative settings |
| Retry.BackoffDoubles | src/infra/utils/async.util.ts:12-14 | without a Retry-After each backoff is twice the one before it, up to the maximum |
| ToolReplayFence.Fence.Enter | src/llm/tool-replay-fence.ts:35-54 | a wrapped call is refused, with nothing changed, exactly when its tool is blocked; else it blocks the tool and puts executing evidence under its id, or under a fresh anonymous one, and changes no other key |
| ToolReplayFence.Fence.Return | src/llm/tool-replay-fence.ts:56-67 | a classified result replaces the evidence under the call's key, component by component with status and label, and keeps the block; an unclassified one removes both; no other key changes |
| ToolReplayFence.Fence.Throw | src/llm/tool-replay-fence.ts:68-71 | a throw leaves exactly one unknown outcome of the tool and id under the call's key, and every other key and the blocked names as they were |
| ToolReplayFence.Fence.ObserveResult | src/llm/tool-replay-fence.ts:84-99 | a completed result of a fenced tool that proves something is recorded as classified, under its tool and id, and blocks the tool, unless its key is on record; any other changes nothing |
| ToolReplayFence.Fence.Observe | src/llm/tool-replay-fence.ts:80-102 | completed results are added one by one, and never replace evidence under the same key |
| ToolReplayFence.Fence.Snapshot | src/llm/tool-replay-fence.ts:110-112 | lists exactly the recorded evidence |
| ToolReplayFence.Fence.HasUnresumableAction | src/llm/tool-replay-fence.ts:115-127 | true exactly when some recorded action has no result of its tool and call id, neither of them empty, in any of the given steps |
| FenceSafety.AtMostOneEffectPerTool | src/llm/tool-replay-fence.ts:35-77 | in every run, whatever is observed: at most one execution per tool ends in an effect or a throw, none is in flight beside or after it, and two calls of a tool are never in flight together |
| FenceSafety.InFlightIsEvidenced | src/llm/tool-replay-fence.ts:49-54 | while a call is in flight the snapshot reports it as executing |
| FenceSafety.ObservedRecords | src/llm/tool-replay-fence.ts:83-99 | every completed result of a fenced tool with a classified effect ends up on record and blocks its tool |
| FenceSafety.FirstResultIsRecorded | src/llm/tool-replay-fence.ts:88-98 | the first result under a key that is not on record is recorded as it was classified, component by component |
| FenceSafety.FinishedIsOnRecord | src/llm/tool-replay-fence.ts:55-71 | after any quiet run every execution that threw is on record with exactly one unknown outcome, and every one with an effect with what its result was classified to |
| FenceSafety.FenceRepresentation | src/llm/tool-replay-fence.ts:34-71 | when a tool's results are observed only while no call of it is in flight, blocked names are the evidenced tools in every state, and settled evidence is never removed or overwritten |
| FenceSafety.ReachableFence | src/llm/tool-replay-fence.ts:17-102 | in every state reachable by such a quiet run, blocked names are the evidenced tools, and evidence settled at any earlier point of the run is still there unchanged |
| FenceSafety.SyncKeptExactlyWhen | src/llm/tool-replay-fence.ts:58-66 | any event at any time keeps blocked names equal to evidenced tools if and only if it is not a no-effect return of a call whose tool has other evidence |
| FenceSafety.ObserveInFlightCanUnblock | src/llm/tool-replay-fence.ts:63-66 | a run in which a success observed while another call is in flight is left unblocked by that call's failure |
| ResumedLoop.SelectResumableSteps | src/llm/llm-executor.service.ts:698-713 | the result is the longest prefix whose last step ends in a tool message, with its attempts and model |
| ResumedLoop.SelectionGrows | src/llm/llm-executor.service.ts:698-707 | steps added behind a resumed prefix never shorten the next resumed prefix, and are all kept if all end in tool results |
| ResumedLoop.ReasoningResentExactlyWhen | src/llm/llm-executor.service.ts:748-750 | an attempt resends reasoning parts if and only if the carried steps are credited to its own model and contain some |
| ResumedLoop.AttemptSends | src/llm/llm-executor.service.ts:732-753 | an attempt on any model sends the caller's messages and then what the resumed steps said, in order: unchanged for the model they are credited to, and for another without exactly the reasoning parts of the assistant |
| ResumedLoop.AttemptHooks | src/llm/llm-executor.service.ts:755-778 | its `prepareStep` and `stopWhen` see the resumed steps in front of the attempt's own, and its step number counts them |
| ResumedLoop.KeepsTheRest | src/llm/llm-executor.service.ts:794-800 | stripping keeps every part but reasoning, each behind those kept before it |
| ResumedLoop.FinishedUnique | src/llm/llm-executor.service.ts:188-192 | over a deterministic step oracle the step loop finishes with at most one list of steps |
| ResumedLoop.ResumedRunExtends | src/llm/llm-executor.service.ts:743-778 | under the rebuilt messages, `prepareStep` and `stopWhen`, a resumed loop makes the steps the uninterrupted loop would make next and goes on exactly when it would |
| LlmExecutor.Distinct | src/llm/llm-executor.service.ts:478-480 | candidate ids are the non-empty ones, each once, in the order of their first occurrences |
| LlmExecutor.CandidatesAre | src/llm/llm-executor.service.ts:478-480 | the primary model comes first, then the fallbacks in their order; each id once, none empty |
| LlmExecutor.Recover | src/llm/llm-executor.service.ts:225-266 | after a failed call: carry, observe, then throw, leave the model or wait, with the fence, trail and backoff total those of the specified run |
| LlmExecutor.CallProvider | src/llm/llm-executor.service.ts:181-266 | one attempt acts as `Called` says on the fence, the carried steps and the trail, on every script |
| LlmExecutor.Generate | src/llm/llm-executor.service.ts:145-274 | the nested loops compute the specified run, which the rows of `AttemptSequence` and `AttemptRecords` pin down: result, trail and backoff total; when it throws, the error carries all recorded evidence and nothing else |
| AttemptSequence.FirstCall | src/llm/llm-executor.service.ts:158-187 | the first call is attempt 1, from scratch, of the first candidate that can be called; without one the run throws |
| AttemptSequence.WhatFollows | src/llm/llm-executor.service.ts:225-266 | for any call of any run: an answer is returned; a failure that leaves a recorded action without its result ends the run; else one that may be retried with attempts left leads to the next attempt on the same model, and any other to attempt 1 of the next candidate that can be called, or to an error without one; the steps resumed are those up to the last tool message |
| AttemptSequence.WorldBetween | src/llm/llm-executor.service.ts:225-266 | a call starts where the failed one and the observation of its steps left the fence, after the wait if it is a retry; a run that throws reports the fence its last call left |
| AttemptRecords.ResultIsAssembled | src/llm/llm-executor.service.ts:218-224 | what is returned is the steps its last call resumed and those that call made, under that call's model |
| AttemptRecords.CreditIsRight | src/llm/llm-executor.service.ts:223-231 | every returned step is credited to the call that made it, whichever attempt or model that was |
| AttemptRecords.TrailTellsCalls | src/llm/llm-executor.service.ts:196-264 | the entries of the trail other than skipped candidates tell the calls one by one: model, attempt, resumed steps, ending, and the backoff exactly when the same model is called next |
| AttemptRecords.TrailInOrder | src/llm/llm-executor.service.ts:158-166 | the trail goes through the candidates in order, one skipped entry for each that cannot be called; a run that throws gets to the last one unless its last call left an action without its result |
| ExecutorGuarantees.BoundedAndAccounted | src/llm/llm-executor.service.ts:158-273 | at most (usable distinct candidates x attempt cap) provider calls; one success, in last position, on return and none on throw; attempt count and backoff total are those of the trail |
| ExecutorGuarantees.ProgressIsNeverLost | src/llm/llm-executor.service.ts:184-231 | each attempt's resumed prefix is a prefix of every later one's and of the returned steps, is empty or ends in a tool result; returned steps are credited to attempts in non-decreasing order |
| ExecutorGuarantees.AtMostOneEffectPerGenerate | src/llm/llm-executor.service.ts:156-174 | over all attempts, models and interleavings of one `generate`, each fenced tool has at most one execution with an effect or a throw |
| ExecutorGuarantees.NoReplayOverMissingResult | src/llm/llm-executor.service.ts:247-252 | if no tool call starts during a wait, every later attempt starts with all evidenced actions' results in its prefix; a call still in flight then has a result under its reused id |
| ReplayWindow.CoveredExactlyWhen | src/llm/tool-replay-fence.ts:35-71 | tool events keep every evidenced action covered by the given results if and only if each uncovered call they start also returns without effect |
| ReplayWindow.CallCanStartWhileWaiting | src/llm/llm-executor.service.ts:247-266 | a run of `generate` in which a booking starts during the wait, after the test for missing results, and the retry is made and delivered while its result is missing from the resumed prefix |
| ReplayWindow.ReplayWindowExactly | src/llm/llm-executor.service.ts:225-266 | every attempt after the first follows a failure with all results present; if there was a wait, that still holds at its start if and only if the wait left no call open |
| ForeignReasoning.ReasoningSentExactlyWhen | src/llm/llm-executor.service.ts:226-231 | in any run of `generate`, an attempt after the first sends reasoning parts if and only if the attempt before it was on the same model and the resumed steps hold some, whichever models made them |
| ForeignReasoning.FirstAttemptAfterSwitchIsStripped | src/llm/llm-executor.service.ts:748-750 | the first attempt after a change of model carries no reasoning part |
| ForeignReasoning.ForeignReasoningIsResentLater | src/llm/llm-executor.service.ts:227-231 | a run over models a and b in which b's first attempt sends a's step without its reasoning and b's second attempt sends it with it |
| ResumeTransparency.FailureStaysOnCourse | src/llm/llm-executor.service.ts:225-231 | a failure at a step request leaves only steps that are all resumed, on the course of the uninterrupted run |
| ResumeTransparency.SurvivorIsUninterrupted | src/llm/llm-executor.service.ts:181-267 | with one model and failures only at step requests, a run that returns has returned the steps of the loop run once without failure |
| ResumeTransparency.ResumeIsTransparent | src/llm/llm-executor.service.ts:181-267 | any two failure schedules that the same request survives return the same steps |
| NoticeDelivery.Classify | scripts/ops-release-notice/send-notice-card.js:312-336 | for the reply's own fields: delivered exactly for a 2xx JSON object with code 0, and code c exactly for one with c other than 0, where StatusCode counts only if code is no number |
| NoticeDelivery.AtMostOneDelivery | scripts/ops-release-notice/send-notice-card.js:58-99 | for any number of processes, interleavings and crashes: at most 4 POSTs, at most one delivery, and `.sent` only after one acknowledged delivery |
| NoticeDelivery.OneSenderForever | scripts/ops-release-notice/send-notice-card.js:76-88 | no two processes ever reach the POST loop, at whatever times |
| NoticeDelivery.UnknownOutcomeBlocks | scripts/ops-release-notice/send-notice-card.js:87-97 | a receipt other than success or a retryable rate limit leaves `.pending` for good, and no further POST is issued |
| NoticeDelivery.UnsettledBlocks | scripts/ops-release-notice/send-notice-card.js:73-81 | once the sender has stopped before `.sent`, for any reason, `.pending` stays and nothing is sent again |
| NoticeDelivery.TakeNotice | scripts/ops-release-notice/send-notice-card.js:58-86 | with other processes acting between its file operations, a process enters the POST loop exactly when it becomes the sender; left alone it does so exactly when neither marker exists |
| NoticeDelivery.PostUntilDecided | scripts/ops-release-notice/send-notice-card.js:88-97 | posts again exactly after a reply with code 11232 to one of the first three POSTs, and ends with success or stopped |
| NoticeDelivery.SendNotice | scripts/ops-release-notice/send-notice-card.js:58-100 | the program is one process of the system; it returns normally exactly after a reply with code 0, and then `.sent` exists; a reply with code 11232 to one of the first three POSTs is followed by another, any other is not; left alone with neither marker there it posts |
| ReviewAssessment.ChangesStillRequested | scripts/codex-review-approval.js:92-98 | the replay by id finds a request for changes exactly when some user's latest decision, legacy failures aside, requests changes |
| ReviewAssessment.Assess | scripts/codex-review-approval.js:23-107 | the loops compute the verdict that `ReviewRules` characterizes |
| ReviewRules.AssessedByRules | scripts/codex-review-approval.js:23-107 | over the snapshot's fields alone: the verdict denies for the first of the eleven rules that fails and is eligible exactly if none does |
| ReviewRules.EligibleCites | scripts/codex-review-approval.js:99-106 | an eligible verdict names the head that was read and cites the one summary, the latest completion among its rows and the first fresh thumb |
| ReviewAssessment.AssessIgnoresReviewOrder | scripts/codex-review-approval.js:79-98 | the verdict is the same for every order of the review list |
| ApprovalBridge.Synchronize | scripts/codex-review-approval.js:151-224 | the calls made are the intended ones, all of them or up to the first write that throws |
| BridgeRules.BridgeReports | scripts/codex-review-approval.js:151-224 | exactly when each outcome is reported: not eligible, changed before, withdrawn, approved, or a throw |
| BridgeRules.BridgeCalls | scripts/codex-review-approval.js:151-224 | the calls of a run with apply, in order: which own approvals are dismissed behind each read, when an approval is created and with what head and text, what is withdrawn when the last read throws, and that old failures of the workflow go only after the third agreeing read |
| ApprovalBridge.BridgeOutcome | scripts/codex-review-approval.js:174-223 | every return with apply either reports approved after three agreeing eligible reads, with an approval for that head and evidence, or leaves no own approval of the last state read undismissed |
| ApprovalBridge.ConfirmedStands | scripts/codex-review-approval.js:174-223 | if reads see own writes, a confirmed approval was not dismissed by the run that confirms it, and one that the run created and withdrew was |
| ApprovalBridge.UnverifiedIsDismissed | scripts/codex-review-approval.js:204-211 | if the read after writing throws, the approval relied on is dismissed, created or found |
| ApprovalBridge.PrunedExactly | scripts/codex-review-approval.js:161-173 | pruning dismisses every own approval that the verdict does not justify and nothing else |
| ReviewAssessment.BodyNames | scripts/codex-review-approval.js:157-160 | an approval body names its head and evidence: equal bodies have equal ones |
| ApprovalBridge.MatchedVerdictsAgree | scripts/codex-review-approval.js:163-167 | with the assessment and the text of the script, all eligible verdicts that one review matches agree on head and evidence |
| ApprovalBridge.BridgeFrame | scripts/codex-review-approval.js:174-222 | only own approvals are dismissed, and legacy failures after the third agreeing assessment; at most one approval is created, on a head assessed eligible twice |
| EditDistance.Levenshtein | scripts/audit-test-assets.js:175-193 | the in-place one-row table computes the recursive distance |
| EditDistance.DistanceIsMinimal | scripts/audit-test-assets.js:175-193 | the distance is the least number of inserts, deletes and replacements of any edit script from one text to the other |
| EditDistance.Symmetric | scripts/audit-test-assets.js:175-193 | the distance is symmetric |
| EditDistance.Bounded | scripts/audit-test-assets.js:175-193 | it lies between the length difference and the longer length |
| EditDistance.ZeroOnlyOnEqual | scripts/audit-test-assets.js:175-193 | it is zero exactly on equal texts |
| EditDistance.Triangle | scripts/audit-test-assets.js:175-193 | it satisfies the triangle inequality |
| EditDistance.IsSimilarSymmetric | scripts/audit-test-assets.js:164-173 | `isSimilar` does not depend on the order of its arguments |
| EditDistance.SimilarExactlyWhen | scripts/audit-test-assets.js:164-173 | two texts are similar exactly when neither is empty and they are equal, or both have 5 symbols and one is a stretch of the other, or the longer has 8 and they differ by at most 18 edits per 100 of its symbols |
| SseRewriter.FixPayload | src/providers/custom-openrouter.provider.ts:51-55 | each call with an empty type becomes a function call, and nothing else of any call changes |
| SseRewriter.Transform | src/providers/custom-openrouter.provider.ts:24-68 | for every chunking, the pieces enqueued add up to the whole-text form of the whole text |
| SseRewriter.RewritesLineByLine | src/providers/custom-openrouter.provider.ts:36-66 | the whole-text form has as many lines as the text and the same unterminated tail; a complete data line whose text is neither blank nor the end mark and parses to tool calls prints the same payload with empty types replaced by function, and every other line is unchanged |
| JsText.TrimIs | src/providers/custom-openrouter.provider.ts:41-44 | trimming leaves text without white space at its ends, and takes nothing but white space away |
| ReleaseVersions.BumpIsLeast | scripts/update-version-changelog.js:446-452 | a bump is the least version above the base at its place that leaves the places to its left alone |
| ReleaseVersions.BumpMonotone | scripts/update-version-changelog.js:343-355 | a higher level never gives a lower version |
| ReleaseVersions.HighestIsMaximum | scripts/update-version-changelog.js:345-355 | the level of a list is one of its levels and bounds all of them |
| ReleaseVersions.AnalyzeReleaseLevel | scripts/update-version-changelog.js:416-444 | major exactly if a commit that counts is breaking, else minor exactly if one is a feature, else patch exactly if any counts |
| ReleaseVersions.AggregateEntryLevels | scripts/update-version-changelog.js:346-355 | major exactly if an entry is major, else minor exactly if one is minor, else patch; none exactly for no entries |
| ReleaseVersions.UpsertsKeepLatest | scripts/update-version-changelog.js:1028-1035 | upserting arrivals one by one leaves, for each number, its last entry in its first-seen place |
| ReleaseState.Repository.Prepare | scripts/update-version-changelog.js:160-209 | sync, grade, upsert and bump take the state to the specified next state; with entries pending the package carries a version above the base |
| ReleaseState.GradedByCommits | scripts/update-version-changelog.js:171-176 | a merged pull request is graded by the pushed commits, as a patch if none of them counts |
| ReleaseState.NothingPendingToRelease | scripts/update-version-changelog.js:254-262 | with nothing pending a prepare leaves the published sections alone, forgets the last release only under a tag of another version than the base, and changes the package version only for an entry |
| ReleaseState.Repository.Finalize | scripts/update-version-changelog.js:211-247 | unless nothing is pending or the tag is of the version headed for, exactly the pending entries become the last release and are published, under the package version; else nothing changes |
| ReleaseState.RunConsistent | scripts/update-version-changelog.js:160-287 | after any run of prepares and finalizes: entry numbers are distinct, and while entries are pending the next version is the base bumped by their highest level, above the base |
| ReleaseState.PendingIsOutstanding | scripts/update-version-changelog.js:160-287 | after any run of prepares and finalizes under any tags or none, pending holds the last entry per number, in first-seen order, of the entries that arrived since pending was last emptied, and the next version is the base bumped by their highest level |
| ReleaseState.ReleaseTakesPending | scripts/update-version-changelog.js:211-247 | after any run, a finalize takes exactly the pending entries, under the version their levels call for |
| ReleaseState.TagReleasesPending | scripts/update-version-changelog.js:254-287 | after any run, a prepare under the tag that was headed for takes exactly the pending entries under the version they call for and leaves only its own entry on top; under any other tag nothing is released |
| ReleaseState.SyncIdempotent | scripts/update-version-changelog.js:249-287 | syncing to one tag twice is syncing once |
| ReleaseState.FinalizedNeedsNoSync | scripts/update-version-changelog.js:211-262 | the tag of a release finalized here, under whatever earlier tag, is already synced |
| ReleaseState.PreparesAccumulate | scripts/update-version-changelog.js:160-209 | pull requests merged after a tag, also when the tag releases what was pending: pending holds the last entry per number in first-seen order and the next version is the tag bumped by their highest level |
| ReleaseState.PreparesKeepReleased | scripts/update-version-changelog.js:254-284 | meanwhile the last release and the published sections stay as the sync to the tag left them |
| ReleaseVersions.BumpsCompare | scripts/update-version-changelog.js:446-452 | a bump at a level at least as high gives a version at least as high if and only if the places it keeps do |
| ReleaseState.NextVersionKeptExactlyWhen | scripts/update-version-changelog.js:178-188 | after any run that leaves entries pending, a prepare for a new pull request number does not lower the next version if and only if its tag releases what was pending or its base is not below the old one in the places the new highest level keeps |
| ReleaseState.NewNumbersNeverLower | scripts/update-version-changelog.js:178-188 | so it never does under the same tag, one not below the old base, or none |
| ReleaseState.OlderTagCanLower | scripts/update-version-changelog.js:178-188 | a run in which it does: three untagged patches head for 1.0.3, then the first tag is 1.0.1 and the fourth heads for 1.0.2 |
| ReleaseState.UntaggedPrepareClimbs | scripts/update-version-changelog.js:178-188 | before the first tag the base is the package version itself, so a prepare raises it exactly when entries are pending |
| Changelog.FindsFirst | scripts/update-version-changelog.js:1198-1202 | the search stops at the first match and nowhere else |
| Changelog.BuiltText | scripts/update-version-changelog.js:1178-1188 | the changelog is the header, the pending block between its markers if there is one, and the history, with a blank line between them |
| Changelog.RoundTripWithout | scripts/update-version-changelog.js:1178-1203 | without a pending block, history reads back unchanged if and only if it holds no start marker followed by an end marker |
| Changelog.QuotedMarkersAreLost | scripts/update-version-changelog.js:1178-1203 | such a history: released notes that quote both markers in bullets do not read back |
| Changelog.RoundTripWith | scripts/update-version-changelog.js:1178-1203 | with a pending block, history reads back unchanged if and only if no section heading follows the first end marker inside the block's text; markers in the history do no harm |
| Changelog.QuotedHeadingIsRead | scripts/update-version-changelog.js:1178-1203 | such a block: a note that quotes the end marker and goes on with a heading, with which no history reads back |
| Changelog.RoundTrip | scripts/update-version-changelog.js:1178-1203 | writing a changelog and reading its history back is the identity exactly under that condition |
| Changelog.PreparesKeepReleasedSections | scripts/update-version-changelog.js:160-209 | however often the pending block is rewritten under that condition, the released sections stay as they were |
| Changelog.RepositoryLayout | scripts/update-version-changelog.js:24-37 | the header and markers of the script meet the conditions of the round trip |
| RedisContent.ReadsEquallyExactlyWhen | scripts/cleanup-retired-redis-prefixes.js:7-19 | two supported contents read the same if and only if they are equal up to the order of hash fields and set members |
| RedisContent.ReadingRestores | scripts/cleanup-retired-redis-prefixes.js:7-19 | a reading loses nothing: every supported content, and no other, can be restored from what is read |
| RedisCleanup.Scan | scripts/cleanup-retired-redis-prefixes.js:58-68 | the keys are, without repetition, exactly those under a listed prefix on the pages up to the first zero cursor; it fails only on a lost page, the 201st page or more than 5000 keys |
| RedisCleanup.Snapshot | scripts/cleanup-retired-redis-prefixes.js:69-88 | keys are read once each in order, each at its own moment, and every one found is an entry; it fails only on an unsupported type or a lost request, and then always |
| RedisCleanup.DeleteUnchanged | scripts/cleanup-retired-redis-prefixes.js:98-104 | entries are compared once each in order, each atomically at its own moment, and the count is that of the removals; it fails only on an unsupported type or a lost request |
| RedisCleanup.CleanUp | scripts/cleanup-retired-redis-prefixes.js:24-115 | for exactly the scanned keys the log is reads, then the flush of all entries, then comparisons; nothing is compared in a dry run or without a written backup, and with apply every entry is; deleted and changed-or-expired add up to the number backed up; it fails only on bad arguments, a failed scan or backup, a lost request or an unsupported type |
| RedisCleanup.BackupBeforeDelete | scripts/cleanup-retired-redis-prefixes.js:20-22 | under arbitrary concurrent writers a key is compared only after its entry, read under a listed prefix, was flushed, and is removed if and only if its content at that moment is still what was read |
| RedisCleanup.BackupIsComplete | scripts/cleanup-retired-redis-prefixes.js:69-97 | every scanned key is read once before the flush, and if it is found the flushed backup holds an entry for it from which that content can be restored |
| RedisCleanup.ComparedOnce | scripts/cleanup-retired-redis-prefixes.js:98-104 | no key is compared, and so none deleted, twice |
| WorkerPool.ExactlyOnce | scripts/backfill-interview-passed-from-sponge.js:303-314 | there are max(1, concurrency) runners; for every interleaving the k-th claim is index k, one runner alone ever holds it, and no more items are in flight than there are runners |
| WorkerPool.ResultsInItemOrder | scripts/backfill-interview-passed-from-sponge.js:303-314 | when all runners are done the results are complete and at their items' places, whatever the schedule |
| WorkerPool.RejectionStopsOnlyItsRunner | scripts/backfill-interview-passed-from-sponge.js:307-312 | a rejected call does not stop the other runners: if one gets through, every item was claimed and only rejected ones lack a result |
| WorkerPool.MapWithConcurrency | scripts/backfill-interview-passed-from-sponge.js:303-314 | under any scheduler it resolves, with every result in item order, if and only if no call rejects |
| BackfillPlan.FirstRecords | scripts/backfill-interview-passed-from-sponge.js:462-469 | the filter keeps the specified first records |
| BackfillPlan.UniqueOrders | scripts/backfill-interview-passed-from-sponge.js:462-469 | one record per work order, and none lost |
| BackfillPlan.UniqueKeepsFirst | scripts/backfill-interview-passed-from-sponge.js:462-469 | each record kept is the first of its work order |
| BackfillPlan.BuildPlan | scripts/backfill-interview-passed-from-sponge.js:445-532 | the loop computes the specified plan, used ids and counts |
| BackfillPlan.RowsAreAssigned | scripts/backfill-interview-passed-from-sponge.js:471-530 | each row is that of its record: it takes the first booking of the same store, else of the same brand, else the first free one, else the first, with the booking's corporation, bot and chat where it has them; if that one is in use or there is none it stands alone under its own work order |
| BackfillPlan.KeysDistinct | scripts/backfill-interview-passed-from-sponge.js:500-506 | idempotency keys are pairwise distinct, one for each recovered work order |
| BackfillPlan.AssignmentIsInjective | scripts/backfill-interview-passed-from-sponge.js:471-498 | cohort ids of matched rows are pairwise distinct, not on record before, and from the user's own bookings |
| BackfillPlan.CountsAddUp | scripts/backfill-interview-passed-from-sponge.js:482-502 | each kind of row is counted exactly, and matched, duplicate and no-booking rows add up to the plan |
| BackfillPlan.FreeBookingMissedExactlyWhen | scripts/backfill-interview-passed-from-sponge.js:472-483 | a user with a free booking goes unmatched if and only if, among several bookings, the preferred store or brand match is in use |
| BackfillPlan.FreeBookingCanBeMissed | scripts/backfill-interview-passed-from-sponge.js:475-480 | such a ledger and record |
| BackfillPlan.RerunAddsNothing | scripts/backfill-interview-passed-from-sponge.js:500-502 | planning again after a plan was written proposes the same keys, all of them on record |

## Left out

- ExecutorGuarantees.NoReplayOverMissingResult: assumes that no tool call starts while `generate` waits to retry; `ReplayWindow.ReplayWindowExactly` drops the assumption and gives the exact condition.
- ResumeTransparency.SurvivorIsUninterrupted: the AI SDK is an assumption: its loop asks for another step only after a step whose calls all have results, its default stop condition is one step, and its response messages are those of the step itself.
- EditDistance.SimilarNormalized: the quotient is exact, not rounded to a double; `normalizeForCompare` is any function.
- LlmExecutor.Generate: result validation is part of how a call ends; vision, thinking and provider options, telemetry, error texts, structured output and the stream path are not modelled. A request with neither prompt nor messages is passed on unchanged, as in the source.
- ToolReplayFence.Fence.Enter: results are opaque text and classification is a total function; a classification that throws inside `execute` is a throw of the call, one that throws inside `observe` is not modelled. A missing policy is one that fences no tool.
- ToolReplayFence.Fence.Snapshot: the order of the map's entries is left open.
- Retry.BoundedModelAttempts: numbers are reals; NaN and infinities are the missing value. Error classification by message text is a parameter.
- NoticeDelivery.SendNotice: code 11232 is taken to mean not delivered and code 0 delivered; nobody edits the markers by hand. Notice validation, signing, the dry run, the HTTP transport and the length of sleeps are not part of this model.
- ReviewAssessment.Assess: table rows, dates and regular expressions are already parsed; review ids are distinct, as GitHub gives them.
- ApprovalBridge.ConfirmedStands: assumes what GitHub promises about its own writes: a dismissed approval is not listed as one, a created review has a new id and is listed as an approval, and an approval does not become a request for changes.
- ApprovalBridge.BridgeOutcome: the pagination of a read is inside it; a write whose response is lost is a write that throws. That a dismissal is effective at once is GitHub's part.
- SseRewriter.Transform: chunks are decoded text, so characters split across chunks are not modelled; JSON parsing and printing are functions, and a payload whose rewriting throws counts as unparsable.
- ReleaseState.Repository.Prepare: how `upsertReleaseSection` replaces a section is left open, because its pattern uses `\Z`, which is no end anchor in JavaScript; dates, commit ids and pull request parsing are parameters, versions are triples of numbers.
- Changelog.BuildFullChangelog: the text between the pending markers is any text.
- RedisCleanup.CleanUp: expiry times and capture times are not recorded; a request is lost at some step or answered; the pattern of permitted prefixes is a predicate, and the digest an injective function where that matters.
- RedisContent.Canonical: strings compare by character, where Lua compares bytes by locale.
- BackfillPlan.BuildPlan: work order ids are natural numbers; occurrence times, payload details and the writing itself are left out.
- WorkerPool.MapWithConcurrency: concurrency is an integer.
- Memory, sponge, observability and web parts of the repository, and the remaining scripts: orchestration over outside services or single-branch formatting.
