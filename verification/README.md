# Verification of the agent's durable protocols and patch engine

A Dafny model of the parts of the bounded agent whose correctness is hard to see by
reading: the resumable execution of a plan, the at-most-once ledger for external
effects, the unified-diff engine, the path from an approved coding run to the worker,
and the smaller stores and sweeps around them. `dafny verify dfyconfig.toml` checks
everything.

Files are durable cells that are replaced atomically, locks make a step atomic, and a
crash may fall between any two durable steps. SHA-256 is a free term: two digests are
equal exactly when everything digested is equal, and no digest is the empty string.
JSON is the identity, except that `sort_keys` reorders mappings where the order is read
back. Whatever the program asks of the outside (tools, transports, replanners, the
review of a diff, the clock, fresh lease ids) is a parameter that every theorem
quantifies over. The layout of a diff is the one of POSIX.1-2017, XCU `diff`, "Diff -u
or -U Output Format".

| file | what it models |
|---|---|
| `Text.dfy`, `DiffText.dfy`, `Sorting.dfy` | Python's `splitlines`, `strip`, decimal numbers, hunk headers, stable `sorted` |
| `PatchReview.dfy`, `PatchPlaces.dfy`, `PatchFiles.dfy`, `PatchAgreement.dfy`, `PatchContents.dfy` | the diff parser, hunks listed in any order, the applier, two validators, and how they agree |
| `HunkCounts.dfy` | the repair of hunk counts in model-written diffs |
| `ExecutionEngine.dfy`, `ExecutionTraces.dfy`, `ExecutionBudget.dfy`, `ExecutionRuns.dfy`, `EmptyStepId.dfy` | `execute_plan`: what a history of runs and crashes may hold, the moments a run makes, how often it issues an operation, the runs themselves, and steps without an id |
| `SideEffects.dfy`, `RestConnector.dfy`, `WriteProcesses.dfy` | the side-effect ledger, the REST retry loop, and any number of writing processes |
| `ActionLifecycle.dfy`, `LifecycleLedger.dfy` | the lifecycle table and its hash-chained ledger |
| `CodingBridge.dfy`, `CodingRaces.dfy`, `CodingAlone.dfy` | the approved-coding bridge, one process with crashes, then many at once, and what a process does that nobody disturbs |
| `CodingRunCodec.dfy`, `CodingRunManifest.dfy`, `CodingRunRoundTrip.dfy`, `CodingRunReads.dfy`, `CodingRunSample.dfy` | the stored form of a coding run |
| `AdaptiveExecution.dfy` | the retry and replan loop |
| `PostChangeGate.dfy`, `PostChangeOrder.dfy`, `PostChangeVerdict.dfy`, `PostChangeFindings.dfy` | the post-change verification gate |
| `Leases.dfy`, `ProjectMemory.dfy`, `Mission.dfy`, `MissionRuns.dfy`, `FreeTime.dfy`, `FreeTimeOffsets.dfy`, `IsoTime.dfy` | leases, project memory, mission graph and runs, the free-time sweep with a reader of ISO 8601 date-times |

Where the code differs from what its documentation or its own error messages suggest,
the model follows the code:

- The exact-content validator of a patch turns down what the applier itself wrote when
  the patched file is empty and the base ended in a newline, or when its last line is
  empty and the base did not (`PatchAgreement.AcceptsMaterialized`, with the file that
  shows it in `PatchAgreement.EmptiedFileRefused`).
- The count repair is not idempotent on a text that ends in a blank line
  (`HunkCounts.CanonicalIdempotent`, `HunkCounts.BlankLinesShrink`).
- A plan step whose id is the empty string is issued again after it was verified, exactly
  when the run is cut off between its audit record and the checkpoint
  (`EmptyStepId.EmptyIdIsReissued`, `EmptyStepId.ReissuedOnlyUnlisted`); cut off one moment
  later, the next run is refused (`EmptyStepId.UnnamedStep`).
- The side-effect ledger grants the claim that makes it one record too long to be read
  ever again, and nothing else closes it (`SideEffects.LastGrantCloses`,
  `SideEffects.ClosedExactlyWhen`, `SideEffects.OverfullForever`); a key with blanks around
  it is granted but never marked (`WriteProcesses.FinalState`, `WriteProcesses.UnmarkedForGood`).
- The redirect limit of the REST connector is never reached
  (`RestConnector.RedirectLimitUnreachable`).
- A coding run can be rejected while its worker runs, because run records are written
  without a lock (`CodingRaces.RejectedRunIsExecuted`); this needs another process that has
  read the record and not yet written it (`CodingRaces.LostUpdateExactlyWhen`).
- A crash can take a run away from its worker for good: behind any of the first three
  durable steps of an execution, of the first four of persisting, or the first of an
  approval, and nowhere else (`CodingBridge.LostExactlyWhen`). Behind the second step of an
  execution the record says EXECUTING for ever and no operation can touch it
  (`CodingBridge.DeadExecutorLeaves`, `CodingBridge.FinalExactlyWhen`).
- The execution ids of the adaptive executor's child runs join step id and tool with a
  colon, so two steps can share one (`AdaptiveExecution.ChildIdsAgree`,
  `AdaptiveExecution.SharedChildId`).
- The coding-run store writes records it then refuses to read
  (`CodingRunRoundTrip.WrittenButUnreadable`; two of them in
  `CodingRunSample.WrittenOutOfOrder` and `CodingRunSample.WrittenWithoutDigest`).
- The gate's test for a pull request at a commit other than the expected one comes behind the
  test that it agrees with the commit evidence, so its STALE result cannot occur
  (`PostChangeFindings.PullFinding`).
- The evidence digest of a gate report depends on the order of entries that contradict
  each other (`PostChangeOrder.EvidenceDigest`).
- Free time is swept in the order of the start texts, not of the start times, so that a slot
  can lie over an event (`FreeTimeOffsets.MisorderedTexts`) or reach out of the window
  (`FreeTimeOffsets.LateEvent`); when that happens is `FreeTime.ClashExactlyWhen` and `FreeTime.OutsideExactlyWhen`.
- The mission runner's "dependencies are not verified" result cannot occur for a plan with
  distinct step ids, whatever was completed before (`MissionRuns.NeverHeldUp`,
  `MissionRuns.DistinctBehind`); where a plan built by hand repeats an id it can, because the
  order takes the last node of that id and the run the first
  (`MissionRuns.HeldUpByDuplicate`).

## Model

| member | source | states |
|---|---|---|
| `Text.SplitAssemble` | autonomous_agent/patch_review.py:135-156 | joining lines, ending them with a newline when the base ended in one, and splitting again gives the lines back, except that the empty text gains a blank line and a last blank line without a newline is lost |
| `Text.AssembleSplit` | autonomous_agent/patch_review.py:195-202 | a text whose only line break is the newline is determined by its lines and by whether it ends in a newline |
| `DiffText.MatchHeaderSound` | autonomous_agent/patch_review.py:88-98 | a matched hunk header accounts for every character of its line |
| `DiffText.MatchHeaderText` | autonomous_agent/coding_provider.py:76-89 | a header written with explicit counts is read back with exactly those numbers and that tail |
| `PatchReview.ParseDiffHunks` | autonomous_agent/patch_review.py:65-116 | the line loop computes the parse of the diff; every file it reports has a hunk, and every hunk has the line counts its header promised |
| `PatchReview.ParsedDistinct` | autonomous_agent/patch_review.py:65-116 | no two parsed entries name the same file, however the headers alternate |
| `PatchReview.RebuildLines` | autonomous_agent/patch_review.py:140-155 | the cursor loop computes the rebuilt lines or stops at the first hunk that does not land |
| `PatchReview.RebuiltFits` | autonomous_agent/patch_review.py:140-155 | rebuilding succeeds exactly when the hunks lie one after another in the base and each finds its old text there |
| `PatchReview.RebuiltIsPatched` | autonomous_agent/patch_review.py:119-157 | the result is the one text whose length is the base's plus all growth, in which hunk k's new lines start at its old start shifted by the growth of the hunks before it, and in which every other line is the base's, in order |
| `PatchPlaces.AnyOrder` | autonomous_agent/patch_review.py:140-155 | a file's hunks, listed in any order, apply if and only if each lies in the base and finds its old text there and each ends before the next one by old start, new start and listing starts; the result is then the one text in which each hunk's new lines stand at its old start moved by the growth of the hunks before it and every other line is kept |
| `PatchFiles.MaterializePatchFileContents` | autonomous_agent/patch_review.py:119-157 | it succeeds exactly when the diff parses to at least one file, every file has a base and every file's hunks, listed in any order, stand in it without overlap; it returns the base with every hunk placed for every patched file and nothing else |
| `PatchFiles.ValidatePatchAppliesToBase` | autonomous_agent/patch_review.py:160-204 | the verdict is that the diff parses to exactly the supplied files, every file's hunks, listed in any order, stand in its base without overlap, and its result is, line by line and in how it ends, the base with every hunk placed |
| `PatchAgreement.AcceptsMaterialized` | autonomous_agent/patch_review.py:119-204 | the validator accepts what the applier wrote if and only if no base file beyond the patched ones was supplied, no patched file is empty where the base ended in a newline, and none ends in a blank line where the base did not |
| `PatchAgreement.AcceptedResults` | autonomous_agent/patch_review.py:160-204 | once one result is accepted, another is accepted exactly when it has the same files and each reads the same line by line |
| `PatchAgreement.AcceptedUnique` | autonomous_agent/patch_review.py:160-204 | for newline-only text at most one result is accepted per diff and base |
| `PatchAgreement.ParseWritten` | autonomous_agent/patch_review.py:65-116 | a single-file diff written from hunks with right counts parses back to exactly those hunks |
| `PatchAgreement.EmptiedFileRefused` | autonomous_agent/patch_review.py:135-204 | a one-line diff that empties a file is applied by one function and refused by the other |
| `PatchContents.ValidatePatchFileContents` | autonomous_agent/patch_review.py:207-250 | the second scanner accepts exactly when it finds a claim, the claimed paths are the supplied files, and every claim's lines stand in its file |
| `PatchContents.ScansAgree` | autonomous_agent/patch_review.py:65-116 | where the parser accepts a diff without blank body lines, the independent scanner sees the same hunks |
| `PatchContents.ClaimMet` | autonomous_agent/patch_review.py:245-249 | the slice the second validator takes by a new start that counts the growth of the hunks before it holds that hunk's new lines, wherever the hunk is listed |
| `PatchContents.ContentsExactlyWhen` | autonomous_agent/patch_review.py:119-250 | for diffs without blank body lines the second validator accepts what the applier wrote if and only if every hunk, looked up by its stated new start in the text written, shows what stands at its place in the patched lines |
| `PatchContents.ContentsOfMaterialized` | autonomous_agent/patch_review.py:119-250 | in particular it accepts correctly renumbered diffs whose files can be written back |
| `HunkCounts.CanonicalizeHunkCounts` | autonomous_agent/coding_provider.py:64-107 | the in-place scan computes the repair of every hunk header from the body below it |
| `HunkCounts.OnlyCountsChange` | autonomous_agent/coding_provider.py:71-91 | only matched hunk headers change, their starts and tails stay, and their counts become the numbers of old and new lines in their body |
| `HunkCounts.RepairIdempotent` | autonomous_agent/coding_provider.py:64-107 | repairing repaired lines changes nothing |
| `HunkCounts.CanonicalIdempotent` | autonomous_agent/coding_provider.py:66-107 | on texts the repair is idempotent exactly when the text does not end in a blank line after an earlier one |
| `HunkCounts.BlankLinesShrink` | autonomous_agent/coding_provider.py:66-107 | a text of two empty lines is repaired to something else the second time |
| `HunkCounts.CanonicalParses` | autonomous_agent/coding_provider.py:64-107 | a single-file diff with well-formed headers and marked body lines is parsed, after the repair and whatever its counts were, to one entry for its file with exactly the hunks of its headers: their starts, the counts of their bodies, and the bodies themselves |
| `ExecutionEngine.VerifiedStepsFromAudit` | autonomous_agent/execution_engine.py:75-84 | the scan returns the non-empty ids with a successful verified tool result of this execution |
| `ExecutionEngine.HasUnfinishedExecution` | autonomous_agent/execution_engine.py:92-103 | the scan finds out whether the last record of the execution is not a terminal one |
| `ExecutionRuns.Engine.ExecutePlan` | autonomous_agent/execution_engine.py:128-271 | a run cut off after any number of durable steps and operations has made exactly the moments of its trace up to there, and in them issued no operation more than once without retries, twice with one and three times with more; a run that ends returns the state its trace ends with, and the history of all runs is lawful with every tool result behind its operation |
| `ExecutionRuns.Engine.RunSteps` | autonomous_agent/execution_engine.py:185-271 | the step loop makes the moments of the plan from the first step on, and ends with the state that gates and answers determine or in a crash |
| `ExecutionRuns.Engine.RunStep` | autonomous_agent/execution_engine.py:223-265 | the attempt loop makes the moments of its step, and passes exactly when some attempt in budget verifies |
| `ExecutionBudget.IssuesBounded` | autonomous_agent/execution_engine.py:180-223 | however a run is cut off, it issues an operation at most once for no retries (or fewer than none), twice for one, and three times for any more |
| `ExecutionBudget.IssuedExactly` | autonomous_agent/execution_engine.py:223-265 | a step whose turn comes and whose gate is open is issued exactly up to its first verified success, its first attempt that cannot be afforded, or the last one allowed, with the number written out; without a verified success the run fails |
| `ExecutionBudget.StartsExactlyWhen` | autonomous_agent/execution_engine.py:92-103 | behind any history without a checkpoint an admitted request starts its execution if and only if no audit record names it or the last one that does says VERIFIED, FAILED or BLOCKED; otherwise it does nothing and returns RECOVERY_REQUIRED |
| `ExecutionBudget.TurnedAway` | autonomous_agent/execution_engine.py:132-167 | what every request comes to that is not executable, not admitted, or meets a checkpoint that is not its own or not running |
| `ExecutionTraces.EveryHistory` | autonomous_agent/execution_engine.py:128-271 | for every list of requests, tool worlds and cut-off points, the history the runs leave together is lawful |
| `ExecutionEngine.PlanVerified` | autonomous_agent/execution_engine.py:185-271 | an uninterrupted run verifies exactly when every open step passes its gate and has, among the one to three attempts its retries allow, a verified one with every attempt up to it afforded, and there are as many distinct done ids as steps |
| `ExecutionEngine.RepeatedIdNeverVerifies` | autonomous_agent/execution_engine.py:267-269 | a plan that repeats a step id never verifies |
| `ExecutionEngine.NeverReissued` | autonomous_agent/execution_engine.py:153-188 | in every history of runs and crashes, once a verified result of a step is audited, its operation is never issued again |
| `ExecutionEngine.RepeatWindow` | autonomous_agent/execution_engine.py:223-265 | an operation is issued twice only when the first time crashed before its audit record or was not a verified success |
| `ExecutionEngine.CheckpointBacked` | autonomous_agent/execution_engine.py:168-172 | every checkpoint ever saved lists only steps with audited evidence |
| `ExecutionEngine.RefusalOnlyForEmptyId` | autonomous_agent/execution_engine.py:168-174 | resuming a matching running checkpoint is never refused for missing evidence, unless a step id is empty |
| `ExecutionEngine.NothingAfterTheEnd` | autonomous_agent/execution_engine.py:156-163 | after a verified or failed result no later run issues an operation or replaces the checkpoint |
| `ExecutionEngine.VerifiedMeansEvidence` | autonomous_agent/execution_engine.py:69-73 | a verified result has audited evidence for every step of its plan before it |
| `ExecutionEngine.EvidenceFollowsIssue` | autonomous_agent/execution_engine.py:257-257 | every audited tool result stands directly behind the operation it reports |
| `ExecutionEngine.EmptyIdSealed` | autonomous_agent/execution_engine.py:185-188 | once a checkpoint lists the empty id, no step with it is issued again |
| `EmptyStepId.EmptyIdIsReissued` | autonomous_agent/execution_engine.py:75-84 | in every history, a run cut off right behind the audit record of a verified step without an id makes the next run issue that operation again, if its gate is open and its budget allows; the next moment would have been the checkpoint that lists it |
| `EmptyStepId.ReissuedOnlyUnlisted` | autonomous_agent/execution_engine.py:153-188 | whenever a verified operation is issued again in a history of runs, its step id is empty and no checkpoint had listed it |
| `EmptyStepId.UnnamedStep` | autonomous_agent/execution_engine.py:168-184 | on a plan of one step without an id: cut off behind the audit record the next run issues it again, cut off behind the checkpoint the next run is turned away for recovery |
| `SideEffects.ExternalSideEffectStore.Claim` | autonomous_agent/external_side_effects.py:180-204 | a claim is granted exactly for a new key of at most 512 characters, an operation of at most 256 and a digest of 64, on a ledger of at most 10,000 records; then that one record is added as RESERVED, and otherwise nothing changes |
| `SideEffects.ExternalSideEffectStore.Update` | autonomous_agent/external_side_effects.py:206-243 | a mark succeeds exactly for a RESERVED record of a ledger of at most 10,000; it moves that record to the given state with the result digest cut to 64 characters and the reason to 4,000, keeps its operation and digest, and touches no other |
| `SideEffects.ClaimKeeps` | autonomous_agent/external_side_effects.py:180-204 | a claim is granted exactly when it changes the ledger, which it does by reserving a key that was not there; no other record changes |
| `SideEffects.UpdateKeeps` | autonomous_agent/external_side_effects.py:206-234 | a mark changes at most the one record, away from RESERVED, and never its operation or digest |
| `SideEffects.OverfullForever` | autonomous_agent/external_side_effects.py:137-138 | a ledger above its record limit is left as it is by every sequence of claims and marks, and refuses each of them |
| `SideEffects.LastGrantCloses` | autonomous_agent/external_side_effects.py:193-197 | a call makes a readable ledger unreadable if and only if it is a well-formed claim of a new key on a ledger that is just full, and that claim is granted |
| `SideEffects.ClosedExactlyWhen` | autonomous_agent/external_side_effects.py:137-243 | over any sequence of claims and marks a readable ledger becomes unreadable if and only if one of them is such a claim |
| `RestConnector.Request` | autonomous_agent/rest_connector.py:225-335 | a safe request leaves the ledger alone and makes at most three calls; a write with a store makes one call if its claim is granted and none otherwise. Of a granted write with a stripped key on a ledger that stays readable the record ends EXECUTED with the body digest exactly for a response from 200 to 399, FAILED without one for any other response and UNKNOWN for none; without a store the write makes its one call unguarded |
| `RestConnector.WriteRecorded` | autonomous_agent/rest_connector.py:312-334 | for every sound ledger, claim and answer: what becomes of a granted write, with every other record as it was, and RESERVED left for a key with blanks around it or a grant that filled the ledger |
| `RestConnector.SafeOutcomeIs` | autonomous_agent/rest_connector.py:267-325 | a safe request goes on exactly behind an allowed redirect or a status 429, 500, 502, 503 or 504, up to three calls, and returns its last answer if that is a response |
| `RestConnector.CallsBounded` | autonomous_agent/rest_connector.py:267-325 | a request makes at most one call more than its retries, redirects included |
| `RestConnector.WriteOutcome` | autonomous_agent/rest_connector.py:267-335 | a write makes exactly one call and returns exactly the plain responses |
| `RestConnector.RedirectLimitUnreachable` | autonomous_agent/rest_connector.py:292-302 | for every sequence of answers the request loop has the outcome of the loop without a redirect limit |
| `WriteProcesses.AtMostOneGrantAndCall` | autonomous_agent/external_side_effects.py:180-204 | for every interleaving of processes that claim, call, mark or crash, each key is granted at most once and called at most once, and only after its grant |
| `WriteProcesses.RecordsAdvance` | autonomous_agent/external_side_effects.py:206-234 | over any run a record stays, keeps operation and digest, and leaves RESERVED at most once |
| `WriteProcesses.FinalState` | autonomous_agent/rest_connector.py:312-334 | while the ledger can be read, a process that ran to its end on a key without blanks around it left EXECUTED with the body digest exactly for a response from 200 to 399, FAILED exactly for any other response and UNKNOWN exactly for no response, both without a digest; one with blanks left RESERVED |
| `WriteProcesses.UnmarkedForGood` | autonomous_agent/rest_connector.py:312-334 | every key with blanks around it whose claim is well formed has a run that got its response and left the record RESERVED |
| `ActionLifecycle.OneForward` | autonomous_agent/action_lifecycle.py:24-57 | the transition table allows exactly one place forward or a move to BLOCKED, from a state that is not terminal |
| `LifecycleLedger.VerifyLedger` | autonomous_agent/lifecycle_ledger.py:54-108 | the loop with its three dictionaries accepts exactly the ledgers in which every event continues its own action's events |
| `LifecycleLedger.Ledger.AppendTransition` | autonomous_agent/lifecycle_ledger.py:111-168 | an append keeps a verified ledger verified, moves the action to the target, and leaves every other action's events alone |
| `LifecycleLedger.Ledger.RecordTransition` | autonomous_agent/lifecycle_integration.py:27-35 | a transition is persisted exactly when the ledger verifies and the transition is the action's next; otherwise nothing changes |
| `LifecycleLedger.PathContinues` | autonomous_agent/lifecycle_ledger.py:86-104 | in a verified ledger, interleaved actions or not, each event of an action continues the ones before it |
| `LifecycleLedger.PathRanks` | autonomous_agent/lifecycle_ledger.py:86-99 | an action's events are numbered from 1 along the road from PROPOSED, and BLOCKED ends it |
| `LifecycleLedger.PathBounds` | autonomous_agent/lifecycle_ledger.py:86-99 | an action has at most nine events and enters CLAIMED at most once |
| `LifecycleLedger.LastHashCommits` | autonomous_agent/lifecycle_ledger.py:100-104 | two verified ledgers that share an action's last hash share its whole history |
| `LifecycleLedger.RecoverStaleExecution` | autonomous_agent/lifecycle_recovery.py:33-42 | recovery ends an interrupted execution as BLOCKED and changes nothing else |
| `CodingBridge.Bridge.ExecutePersistedApprovedRun` | autonomous_agent/approved_coding_bridge.py:126-216 | for every crash point the stores are left as the checks of the call and the durable steps up to there determine; an execution that calls its worker and lives for six steps ends EXECUTED in record and ledger if the worker opened the draft, and FAILED and BLOCKED if not, and a draft is reported only in the first case |
| `CodingBridge.ExecuteEffect` | autonomous_agent/approved_coding_bridge.py:126-216 | the stores behind every step of an execution in plain states, also of one that is invalidated or refused |
| `CodingBridge.ApproveEffect` | autonomous_agent/approved_coding_bridge.py:67-82 | likewise for an approval |
| `CodingBridge.RejectEffect` | autonomous_agent/approved_coding_bridge.py:85-101 | likewise for a rejection |
| `CodingBridge.PersistEffect` | autonomous_agent/approved_coding_bridge.py:19-64 | likewise for persisting a run and taking its action through the four gates |
| `CodingBridge.RecoverEffect` | autonomous_agent/lifecycle_recovery.py:33-42 | likewise for the recovery of an interrupted action |
| `CodingBridge.RunsOneWay` | autonomous_agent/coding_run_store.py:67-75 | the run states go from READY to APPROVED to EXECUTING to an end, and a run is withdrawn only before it executes |
| `CodingBridge.ResultOfWorker` | autonomous_agent/approved_coding_bridge.py:191-216 | in every history from a new run, record or ledger say EXECUTED only if some attempt called the worker and it opened the draft, and the record says FAILED only if one called it and it did not |
| `CodingBridge.Bridge.MarkRunApproved` | autonomous_agent/approved_coding_bridge.py:67-82 | approval, likewise: the record, then the ledger |
| `CodingBridge.Bridge.MarkRunRejected` | autonomous_agent/approved_coding_bridge.py:85-101 | rejection, likewise |
| `CodingBridge.Bridge.PersistReadyRun` | autonomous_agent/approved_coding_bridge.py:19-64 | persisting, likewise: the record, then the four gates |
| `CodingBridge.Bridge.RecoverStaleRun` | autonomous_agent/lifecycle_recovery.py:33-42 | recovery, likewise: a CLAIMED or EXECUTED action is blocked, any other left alone |
| `CodingBridge.EveryHistory` | autonomous_agent/approved_coding_bridge.py:50-216 | for every sequence of persisting, approving, rejecting, executing and recovering, each cut off anywhere: a CLAIMED action has its marker and a run that is executing, executed or failed, an EXECUTED action an executed run, and the worker was called at most once |
| `CodingBridge.NothingTurnedDown` | autonomous_agent/lifecycle_integration.py:27-35 | from any state, no durable step that an operation's own checks let through is refused by the run states, the lifecycle table or the marker file |
| `CodingBridge.WorkerCalledExactlyWhen` | autonomous_agent/approved_coding_bridge.py:144-216 | an operation calls the worker exactly when it executes an approved run with passing checks, an approved action and no marker, and lives for four durable steps |
| `CodingBridge.MarkerEndsCalls` | autonomous_agent/coding_run_store.py:594-611 | once the marker exists, no sequence of operations and crashes calls the worker again |
| `CodingBridge.NeverCalledAgain` | autonomous_agent/coding_run_store.py:594-611 | in every history, a run whose worker was called keeps that one call, whatever operations follow |
| `CodingBridge.CalledExactlyWhenLive` | autonomous_agent/approved_coding_bridge.py:67-216 | from any state of record, marker and ledger, some sequence of operations and crashes calls the worker if and only if there is no marker and the run is new with its action unseen or past the gates, ready with its action past the gates, or approved with its action approved; from any other state none ever does |
| `CodingBridge.LostExactlyWhen` | autonomous_agent/approved_coding_bridge.py:50-216 | an operation takes such a run away from its worker for good, without a call, if and only if it rejects it, invalidates it for a failed check, or is cut off behind steps 1 to 4 of persisting, step 1 of an approval, or steps 1 to 3 of an execution |
| `CodingBridge.FinalExactlyWhen` | autonomous_agent/coding_run_store.py:70-78 | no sequence of operations changes anything any more if and only if the record is neither missing, READY nor APPROVED and the action is neither CLAIMED nor EXECUTED |
| `CodingBridge.MarkedRunIsStuck` | autonomous_agent/coding_run_store.py:598-611 | a run whose executor crashed between marker and state change is never executed by any later sequence of operations, and its record can only become rejected or invalidated |
| `CodingBridge.DeadExecutorLeaves` | autonomous_agent/coding_run_store.py:594-611 | an executor cut off behind its first step leaves a marked run, behind the second a run EXECUTING with its action only APPROVED, behind the third one EXECUTING with its action CLAIMED, and at no other point any of them |
| `CodingBridge.MarkedRunIsReached` | autonomous_agent/approved_coding_bridge.py:126-216 | each of these three states is reached from a new run |
| `CodingRaces.WorkerCalledOnce` | autonomous_agent/coding_run_store.py:594-611 | for every interleaving of executors, approvals, rejections, recoveries and crashes on unlocked records the worker is called at most once, CLAIMED implies the marker, and EXECUTED implies the call |
| `CodingRaces.ClaimedMeansStarted` | autonomous_agent/coding_run_store.py:573-587 | the sequential promise, a CLAIMED action has a started run, holds along every interleaving in which no other process holds an older record when an executor writes EXECUTING |
| `CodingRaces.LostUpdateExactlyWhen` | autonomous_agent/coding_run_store.py:573-587 | when the executor of an approved action writes EXECUTING, some continuation ends CLAIMED with a run that is not started if and only if another process is about to overwrite the record with what it read before |
| `CodingRaces.RejectedRunIsExecuted` | autonomous_agent/coding_run_store.py:573-587 | some interleaving ends with the action CLAIMED, its worker called and the run REJECTED |
| `CodingAlone.AloneIsSequential` | autonomous_agent/approved_coding_bridge.py:67-216 | a process of the races that nobody disturbs is the sequential operation: stopped behind any of its steps it has left the stores as the operation cut off behind some durable step, every such cut is met, and after twelve steps the operation is through |
| `CodingAlone.ResultOfCall` | autonomous_agent/approved_coding_bridge.py:191-216 | in every interleaving record or action say EXECUTED only if the worker was called and opened the draft, and the record says FAILED only if it was called and did not or an executor's claim was refused |
| `CodingRunCodec.ExtractChangedFiles` | autonomous_agent/patch_review.py:48-57 | the loop returns distinct paths, exactly the changed files some line of the diff mentions, in the order of their first mention |
| `CodingRunManifest.KeysAreTheManifest` | autonomous_agent/coding_run_store.py:390-394 | when distinct paths normalise, in order, to the reviewed files, they are those files, character for character |
| `CodingRunRoundTrip.RoundTrip` | autonomous_agent/coding_run_store.py:406-454 | a record the encoder accepts and whose fields are within bounds is read back unchanged if and only if the reviewed files are in ascending order and the digests of its attempts and its fingerprint are lower-case hexadecimal of length 64 |
| `CodingRunRoundTrip.WrittenButUnreadable` | autonomous_agent/coding_run_store.py:390-454 | otherwise, when the files are not ascending or an attempt carries no digest, the decoder refuses what the encoder wrote |
| `CodingRunSample.WrittenOutOfOrder` | autonomous_agent/coding_run_store.py:372-454 | a complete run of repository "o/r" with a full commit id, a branch of its own and ISO times, whose diff changes "b" before "a", is written and then refused |
| `CodingRunSample.WrittenWithoutDigest` | autonomous_agent/coding_run_store.py:406-454 | so is such a run in order whose first attempt carries no digest |
| `CodingRunRoundTrip.StoredManifest` | autonomous_agent/coding_run_store.py:392-394 | the sorted contents match the reviewed manifest exactly when it was ascending |
| `CodingRunReads.ReadExactly` | autonomous_agent/coding_run_store.py:262-454 | a stored record is read exactly when its fields are within the limits, written out as bytes and counts, and what they say is valid; it is read as it stands but for the case of its digests and commit and the blanks around its ids |
| `CodingRunReads.ReadIsReviewed` | autonomous_agent/coding_run_store.py:372-403 | a run that was read is ready for an approval it still needs, of the repository its proposal is about; its review is the one its diff gets, it holds exactly the files the diff mentions in their order with the lines the diff claims, its digests are those of its parts and none of its texts looks like a secret |
| `CodingRunReads.ReadAgain` | autonomous_agent/coding_run_store.py:406-454 | what was read is read as itself, and what was once written and could be read is written again exactly as it was read |
| `CodingRunReads.DigestIs` | autonomous_agent/coding_run_store.py:128-133 | a digest is read exactly when it is 64 hexadecimal digits, in lower case |
| `CodingRunReads.IdIs` | autonomous_agent/coding_run_store.py:111-115 | an id is read exactly when it is, without the blanks around it, 1 to 128 letters, digits, dots, dashes and underscores that start with a letter or digit, and then reads as itself |
| `CodingRunReads.Utf8LengthIs` | autonomous_agent/coding_run_store.py:118-125 | the length a text is measured by is one byte a character and one more for each of the bounds 0x80, 0x800 and 0x10000 it reaches |
| `AdaptiveExecution.ExecuteAdaptivePlan` | autonomous_agent/adaptive_execution.py:133-272 | the loop ends for every plan, tool and replanner, within (retries + 1) * (steps + 12 * replans) child runs of at most two retries and two replans; ids that start distinct stay distinct, no replan count, step id and attempt comes twice, every step listed or run is one of the plan or known and read-only or approved, a BLOCKED or RECOVERY_REQUIRED child is the last and its state the result, and VERIFIED means a verified successful child for every step of the final list |
| `AdaptiveExecution.ExhaustedFate` | autonomous_agent/adaptive_execution.py:220-261 | what follows a step whose attempts are used up: FAILED without a replanner or replans left, an exception for a replanner that comes back with nothing, BLOCKED for a replacement with an unknown or unapproved writing step, FAILED for an empty one, one of more than twelve steps, one with an id twice or with another step's id, all without another child run; and otherwise the execution of the list with the replacement in place |
| `AdaptiveExecution.RunsBounded` | autonomous_agent/adaptive_execution.py:145-261 | from any point of the loop at most (retries + 1) * (steps ahead + 12 * replans left) child runs follow |
| `AdaptiveExecution.ChildIdsAgree` | autonomous_agent/adaptive_execution.py:151-151 | two child runs have the same execution id if and only if replan count, attempt and the text of step id, colon and tool agree |
| `AdaptiveExecution.ChildIdsOnce` | autonomous_agent/adaptive_execution.py:145-151 | so no child execution id is used twice where no step id has a colon, or no tool has |
| `AdaptiveExecution.SharedChildId` | autonomous_agent/adaptive_execution.py:151-151 | step "a:b" with tool "c" and step "a" with tool "b:c" share one |
| `AdaptiveExecution.BoundReached` | autonomous_agent/adaptive_execution.py:145-261 | the bound is tight: for every non-empty plan, retry limit and number of full replacements with new ids some tools need exactly that many child runs |
| `AdaptiveExecution.AttemptStep` | autonomous_agent/adaptive_execution.py:150-213 | the attempts on one step stop at the first verified, blocked or recovery-required child, and their number is determined |
| `AdaptiveExecution.SpliceDistinct` | autonomous_agent/adaptive_execution.py:242-252 | a replacement that passes the two id checks keeps the ids of the list distinct |
| `PostChangeVerdict.EvaluateVerification` | autonomous_agent/post_change_verification.py:1115-1213 | the staged evaluation passes exactly when commit, pull request, snapshot and tests hold, reports the five stages in order, evaluates a stage exactly when all before it passed and blocks it otherwise |
| `PostChangeOrder.VerdictOrderFree` | autonomous_agent/post_change_verification.py:994-1213 | verdict, stages and summary are the same for every order of manifest, policy checks, snapshot entries and outcomes |
| `PostChangeOrder.RequestDigest` | autonomous_agent/post_change_verification.py:529-541 | the request digest is the same for two orders exactly when the manifest is declared unordered or its order is the same |
| `PostChangeOrder.EvidenceDigest` | autonomous_agent/post_change_verification.py:752-757 | the evidence digest is the same for every order exactly when no two entries disagree about a path and no two outcomes about a name |
| `PostChangeOrder.ReportOrderFree` | autonomous_agent/post_change_verification.py:1115-1213 | under those conditions the whole report is the same, both digests included |
| `PostChangeVerdict.PassesExactlyWhen` | autonomous_agent/post_change_verification.py:994-1213 | the gate passes if and only if the commit is as expected, the pull request is reviewable at it, the snapshot holds exactly the manifest's files and contents, and every required check has a passing outcome (and no unknown one where all must be reported) |
| `PostChangeVerdict.FirstFailureBlocksTheRest` | autonomous_agent/post_change_verification.py:1165-1189 | an evidence stage is evaluated exactly when all before it passed, and BLOCKED exactly when it is not evaluated |
| `PostChangeVerdict.StagesInOrder` | autonomous_agent/post_change_verification.py:940-947 | every report, also of malformed evidence, names the five stages in the authoritative order |
| `PostChangeVerdict.VerdictFollowsFirstFailure` | autonomous_agent/post_change_verification.py:1107-1205 | the verdict and the final stage say FAIL for a first finding of FAIL and BLOCKED for every other |
| `PostChangeFindings.CommitFinding` | autonomous_agent/post_change_verification.py:994-1008 | the commit stage is MISSING, FAIL or PASS exactly when the evidence is lacking, differs, or is as expected |
| `PostChangeFindings.PullFinding` | autonomous_agent/post_change_verification.py:1011-1035 | behind a commit as expected, when the pull request is MISSING, CONTRADICTORY, FAIL or PASS; it is never STALE |
| `PostChangeFindings.SnapshotFinding` | autonomous_agent/post_change_verification.py:1038-1068 | behind both, when the snapshot is MISSING, STALE, CONTRADICTORY, FAIL or PASS, in terms of the files it lists and the manifest's |
| `PostChangeFindings.TestFinding` | autonomous_agent/post_change_verification.py:1071-1100 | behind all three, when the tests are MISSING, STALE, CONTRADICTORY, MALFORMED, FAIL or PASS, in terms of the outcomes and the policy's checks |
| `PostChangeFindings.ReportAgrees` | autonomous_agent/post_change_verification.py:1147-1213 | verdict, last stage and summary agree in every report, and only malformed evidence is reported as malformed, with nothing of it kept and every later stage held |
| `PostChangeFindings.SnapshotNames` | autonomous_agent/post_change_verification.py:1050-1068 | a comparable snapshot that does not pass lists the five smallest of the manifest's paths it lacks, else of its paths the manifest lacks, else of those whose contents differ |
| `PostChangeFindings.TestNames` | autonomous_agent/post_change_verification.py:1084-1100 | reported tests that do not pass list the five smallest of the required checks without an outcome, else of the unknown ones where all must be known, else of the required ones that failed |
| `Leases.ExecutionLeaseStore.Acquire` | autonomous_agent/concurrency.py:83-97 | a lease is refused as busy exactly when an unexpired lease of the history holds the resource or the limit is reached; otherwise the lease granted is recorded |
| `Leases.ExecutionLeaseStore.Release` | autonomous_agent/concurrency.py:99-106 | a release succeeds exactly for a lease in force, and ends it |
| `Leases.ExecutionLeaseStore.Active` | autonomous_agent/concurrency.py:108-112 | the leases returned are those granted, not released and not expired, on different resources and within the limit |
| `Leases.HeldBounded` | autonomous_agent/concurrency.py:83-112 | over any history under a clock that does not go back, the leases in force name different resources and are at most `max_active` |
| `Leases.NotGrantedTwice` | autonomous_agent/concurrency.py:88-97 | a granted resource is granted again only after its lease was released or expired |
| `ProjectMemory.Load` | autonomous_agent/cross_project_memory.py:102-119 | the loop accepts exactly the chains in which each entry names its predecessor's digest and carries its own |
| `ProjectMemory.SealedLoads` | autonomous_agent/cross_project_memory.py:134-147 | every chain `_save` writes is accepted by `_load`, with the same events |
| `ProjectMemory.ChainIsSealed` | autonomous_agent/cross_project_memory.py:114-147 | every accepted chain is the one `_save` writes for its events |
| `ProjectMemory.KeepNewest` | autonomous_agent/cross_project_memory.py:123-132 | the loop from the newest event back keeps exactly the events with fewer than the cap of later ones in their project |
| `ProjectMemory.CappedCount` | autonomous_agent/cross_project_memory.py:123-132 | every project keeps as many events as it has, up to the cap |
| `ProjectMemory.RecordKeeps` | autonomous_agent/cross_project_memory.py:121-178 | after every record the stored events are, in order, a suffix of each project's recorded events, and the newest event is among them |
| `ProjectMemory.RetainedCaps` | autonomous_agent/cross_project_memory.py:121-132 | the global and the per-project cap hold after every save |
| `ProjectMemory.CrossProjectMemory.Record` | autonomous_agent/cross_project_memory.py:165-182 | recording on an intact file that can be written extends the history and keeps all of this; on a broken chain nothing is written |
| `ProjectMemory.CrossProjectMemory.RecordChange` | autonomous_agent/cross_project_memory.py:317-320 | a recorded change is the latest stored one of its subject, unless the file is broken or cannot be written, when nothing changes |
| `ProjectMemory.CrossProjectMemory.ChangeDetected` | autonomous_agent/cross_project_memory.py:301-315 | "unchanged" means that the fingerprint is the last one recorded for the subject in the whole history, retention notwithstanding |
| `ProjectMemory.StoredChangeIsLatest` | autonomous_agent/cross_project_memory.py:121-132 | a change found among the stored events is the latest ever recorded for its subject |
| `Mission.TopologicalOrder` | autonomous_agent/task_dag.py:39-53 | for any nodes, also with repeated ids (of which the last counts) and unknown dependencies, the layered order lists every id once and behind all it depends on; it fails exactly when some set of nodes waits for itself or for what is no node |
| `Mission.NotBoth` | autonomous_agent/task_dag.py:39-53 | a graph with a topological order has no such set |
| `MissionRuns.RunInOrder` | autonomous_agent/mission_orchestrator.py:101-149 | for any nodes every call of the runner is for a step not completed before, with all dependencies of its (first) node completed by then, and the result says how the run ended |
| `MissionRuns.Execute` | autonomous_agent/mission_orchestrator.py:85-149 | a run of any executable plan raises exactly when some set of nodes waits for itself or for what is no node, and is otherwise such a run, never held up by dependencies when the step ids are distinct |
| `MissionRuns.NeverHeldUp` | autonomous_agent/mission_orchestrator.py:107-114 | no step is held up by its dependencies, whatever was completed before, if and only if every node that is run stands in the order behind all it depends on |
| `MissionRuns.DistinctBehind` | autonomous_agent/task_dag.py:39-53 | which is so in a topological order of nodes with distinct ids |
| `MissionRuns.HeldUpByDuplicate` | autonomous_agent/mission_orchestrator.py:101-114 | and not where three nodes share two ids: the order takes the last, the run the first |
| `MissionRuns.VerifiedExactlyWhen` | autonomous_agent/mission_orchestrator.py:101-149 | a run verifies the mission exactly when it is not held up and every step not completed before verifies |
| `MissionRuns.VerifiedOnce` | autonomous_agent/mission_control.py:808-828 | over any chain of runs, each resumed from what the one before completed, a step once verified is never called again |
| `MissionRuns.SequentialOrder` | autonomous_agent/mission_orchestrator.py:43-55 | the specs of a sequential mission pass the planner's checks and their own order is topological |
| `FreeTime.FindFreeTime` | autonomous_agent/calendar_connector.py:57-69 | the loop computes the sweep's gaps for any listing; on a listing as the service promises it the slots are, in order and disjoint, the maximal free intervals of the window that are long enough: all of them, or the first twenty |
| `FreeTime.SweepExact` | autonomous_agent/calendar_connector.py:61-68 | when start texts sort in time order and events end after they start and start in the window, the sweep finds a gap if and only if it is a maximal free interval that is long enough |
| `FreeTime.ClashExactlyWhen` | autonomous_agent/calendar_connector.py:61-68 | for any listing a slot lies over a listed event if and only if an event that opens a long-enough gap is followed, in text order, by one that clashes with that gap |
| `FreeTime.OutsideExactlyWhen` | autonomous_agent/calendar_connector.py:66-68 | for any listing a slot reaches out of the window if and only if an event that starts behind the window opens a long-enough gap |
| `FreeTimeOffsets.MisorderedTexts` | autonomous_agent/calendar_connector.py:61-62 | two readable events inside the window, one with offset -05:00 and one with +02:00, whose text order is not their time order: a slot lies over one of them |
| `FreeTimeOffsets.LateEvent` | autonomous_agent/calendar_connector.py:66-68 | an event that starts behind the window makes a slot that reaches out of it |
| `IsoTime.NextDay` | autonomous_agent/calendar_connector.py:59-63 | the day numbers behind the reader of date-times count the days of the proleptic Gregorian calendar, over the ends of months and years |
| `IsoTime.DateIs` | autonomous_agent/calendar_connector.py:59-63 | of all texts exactly those of valid dates are read, as their day numbers (`ClockIs` and `OffsetIs` say the same of times and offsets) |

## Left out

- `\d` in the two hunk-header patterns matches the ASCII digits only.
- Diffs of several files: the parser closes a hunk only at `@@ ` or `+++ b/`, so their agreement with the validators is not claimed beyond what the theorems' conditions allow.
- review_patch: its refusals (size, forbidden paths, file operations) are a parameter of the coding-run store; only the changed files of an allowed review are modelled.
- The provider's other diff normalisation, the prompt and the HTTP calls of `coding_provider.py`.
- execute_plan: the gates of a step (registry, policy, authorization, tool validators) are one answer per step, and one operation stands for all capabilities; budgets, telemetry, project memory and the attempt counter are not modelled.
- execution_audit.py: the engine's audit is taken as untampered and readable; its hash chain has the shape of the lifecycle ledger's and the project memory's.
- Two runs of `execute_plan` at once: no lock covers them, and the engine's theorems are about runs one after another.
- Timestamps of the side-effect ledger, and the calendar and mail connectors' use of it, which is the REST connector's pattern.
- URL, header and credential checks of the REST connector are one yes or no before the claim.
- `action_state` and `require_state` on a ledger file that cannot be read; the JSON syntax of a ledger line.
- The approval queue, approval records and the worker's own claim marker: one yes or no in the bridge.
- The coding-run record's proposal keeps its project, its impact project and its fingerprint; its other fields are bounded texts, numbers and lists copied through. Execution metadata, the size limit of the file and the JSON schema checks are left out.
- `find_by_action` with several stored runs.
- The file names the adaptive executor makes from child execution ids by replacing characters; they can collide for ids that differ only there.
- The gate's construction-time field checks, the truncation of details, and their wording beyond the names they list.
- PostChangeOrder.VerdictOrderFree: asks for distinct manifest paths and distinct policy check names, which the constructors of the request enforce.
- Leases.ExecutionLeaseStore.Acquire: lease ids are a parameter, and a lease file that cannot be parsed is not modelled.
- Date-times: the sweep is proved for any reader of them; the one that is written out, in `IsoTime.dfy`, reads the form `YYYY-MM-DDThh:mm:ss` with `+hh:mm` or `-hh:mm` only.
- Redaction and truncation of recorded memory texts: an event is recorded as given.
- FreeTime.FindFreeTime: an all-day event, whose date has no time zone, makes the comparison fail in the source; here every readable time can be compared with every other.
- MissionRuns.VerifiedOnce: a crash between a verified step and the store of the mission's progress repeats that step; the chain is of runs that return.
- Browser, desktop, document, mail and application adapters, sandboxes, reports, dashboards, routing and budgets.
