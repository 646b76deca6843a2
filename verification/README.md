# Convergence verification

A Dafny model of the parts of the darkmatter group-messaging engine whose job is to make independent clients agree, and of the small protocols and data structures around them.

- **The convergence pass.** Every client receives commits, proposals and app messages in its own order, with duplicates. A pass deduplicates them, grows a graph of candidate branches to a fixed point, attaches app-message witnesses, selects a branch under a seven-key order, disposes of every message and gates outbound sends. `Convergence`, `SelectionTrace`, `Messages`, `Materialization`, `BranchPaths` and `Canonicalization` model it as functions. `Canonicalizer` models it as the engine runs it, with loops over mutable maps and lists, and proves the two equal. `OrderInvariance`, `LateCommits`, `Dispositions`, `DuplicateCopies`, `LargerBatches`, `ReplayedBranches`, `WitnessEpochs` and `PassLimits` hold the results about whole passes.
- **Step protocols.** `CatchUpDriver` is the start/stop handshake over two atomics, for any interleaving of any number of subscribers and tasks. `ComposeSession` and `ComposeLoop` are the live-preview session with late connect, bounded buffering, a latched error and cancel, over `TextChunks`. `InboundDelivery` is the drain loop that mixes live events and storage replay over one bounded cursor.
- **Authorization over runs.** `AdminGroup` holds the staged-commit gates and the SelfRemove auto-committer over a group of leaves and an admin list.
- **Structures and codecs.** `BoundedFifo`, `IdempotencyStore`, `SimulatorBus`, `EngineMetrics`, `ByteCodecs`, `AdminPolicyCodec` and `IdentityProofCodec`. `Orders` holds byte order, sorting and collecting.

`dafny verify dfyconfig.toml` checks the whole project.

## Properties that fail, and exactly when they hold

- Selection from a raw slice depends on the order of the slice when two candidates tie on all seven keys. `SelectOrderFreeIffUnshared` gives the exact condition, `TieGoesToTheLast` an instance. Inside a pass the slice is sorted by distinct ids, so the pass does not depend on arrival order.
- The order of `accepted_commits` depends on arrival when two or more commits name the selected branch without being on its path. `AcceptedOrderFreeIff` gives the exact condition, `LateCommitsInArrivalOrder` an instance.
- Which copy of an id is kept depends on arrival when two different pending messages share an unseen id. `KeptOrderFreeIff` gives the exact condition, `SharedIdDependsOnOrder` an instance where the result differs. The results about order hold for every rearrangement that keeps the same messages.
- With replayed candidates a commit can be both accepted and dropped. `ListsExclusiveIff` gives the exact condition, `SharedCommitAcceptedAndDropped` an instance.
- A second copy of an open commit marks its id as seen, and the pass settles. `CopiesChangeNothingIff` gives the exact condition under which copies change nothing, `SecondCopySettles` an instance.
- The admin list can become empty: an admin may stop requiring the policy component and then remove it. `GovernedIffPolicyStays` gives the exact condition on the proposals of one commit, `RunsStayGoverned` on those of a run, `AdminCanDissolve` an instance.
- The signed proof message is injective exactly for identities below 65536 bytes, whatever the key (`InjectiveBelowIff`). A varint round-trips exactly below two to the sixty-two.
- A replay that fails part-way has already recorded ids it never wrote out. `SilentRecordIff` says exactly when a step does so, `SuppressedUnseenIff` exactly which live events are then suppressed, and `PartialReplaySuppresses` gives an instance.
- A further commit can take the place of one that had entered and lower the winning score. `LaterMessagesEnlargeIff` says exactly when further messages leave the graph as it was, `LargerBatchSelectsNoLower` that the score then never falls, and `EarlierRivalTakesOver` gives an instance where it does.
- A finished session can report no error although the broker has seen nothing. `FinishTells` gives the exact condition, `FinishBeforeConnect` an instance.
- A persist task whose rename fails leaves the disk behind memory. `DiskIsNewestIff` gives the exact condition, `MissedRenameStaysBehind` an instance.
- The protocol text (`spec/protocol-core/convergence.md`) counts only witnesses above a branch's fork epoch and not above its tip. The code bounds neither side; the model follows the code. `PassAsWrittenIff` says exactly when this makes no difference to what selection reads, `OutsideWitnessDecides` gives inputs where another branch is selected.

## Model

| member | source | states |
|---|---|---|
| Convergence.GatherWitnessesByEpoch | crates/cgka-engine/src/convergence.rs:367-376 | The loop over app witnesses fills, per epoch, exactly the set of distinct senders seen at that epoch. |
| Convergence.WitnessSetDecides | crates/cgka-engine/src/convergence.rs:349-376 | Quorum and witness score depend only on which witnesses occur: order and repetition of (epoch, sender) change nothing. |
| Convergence.MoreWitnesses | crates/cgka-engine/src/convergence.rs:349-365 | A superset of witnesses never loses the quorum and never lowers the capped score. |
| Convergence.CompareScoresFlip | crates/cgka-engine/src/convergence.rs:129-138 | Swapping the sides reverses the answer, and comparing equal means agreeing on all seven keys. |
| Convergence.ScoreOrder | crates/cgka-engine/src/convergence.rs:129-138 | The seven-key comparison is a total order on scores. |
| Convergence.SelectIndex | crates/cgka-engine/src/convergence.rs:118-127 | Selection returns the last maximum among the eligible candidates, and nothing exactly when none is eligible. |
| Convergence.LastMaximumUnique | crates/cgka-engine/src/convergence.rs:118-127 | Conversely, any position that is a last maximum is the one selected. |
| Convergence.SelectedScorePermutation | crates/cgka-engine/src/convergence.rs:118-138 | The winning score of a slice does not depend on the order of the slice. |
| Convergence.SelectOrderFreeIffUnshared | crates/cgka-engine/src/convergence.rs:118-127 | The winning candidate of a raw slice is order-independent if and only if no two different eligible candidates share the best score. |
| Convergence.TieGoesToTheLast | crates/cgka-engine/src/convergence.rs:118-127 | An instance: of two eligible candidates that differ only in their ids, either order elects the later one. |
| Convergence.BoundedWitnessOverride | crates/cgka-engine/src/convergence.rs:341-347 | No eligible branch is deeper than the winner by more than the override depth, hence under a validated policy (lines 54-62) by more than the rewind horizon, and not at all unless the winner has a quorum; saturating arithmetic included. |
| Convergence.AddWitnessNeverLowers | crates/cgka-engine/src/convergence.rs:76-91 | One more witness never lowers a score; a repeated one leaves it unchanged. |
| Convergence.WinnerKeepsWinning | crates/cgka-engine/src/convergence.rs:118-138 | Giving the current winner one more witness does not deselect it. |
| SelectionTrace.BuildRuleTrace | crates/cgka-engine/src/convergence.rs:269-339 | The walk with its decided flag yields the seven evaluations with the first differing rule marked. |
| SelectionTrace.FirstDifferenceDecides | crates/cgka-engine/src/convergence.rs:129-138 | The first of the seven rules that differs gives the answer of the whole comparison. |
| SelectionTrace.FirstDifferenceExists | crates/cgka-engine/src/convergence.rs:269-339 | Two scores differ if and only if some rule is the first to differ. |
| SelectionTrace.TraceDecision | crates/cgka-engine/src/convergence.rs:265-339 | Against a score it does not lose to, exactly one rule is decisive and it favours the winner; none is exactly when the scores tie. |
| SelectionTrace.ReasonIsDecisiveRule | crates/cgka-conformance-simulator/src/policy_cases.rs:95-146 | The simulator's reason names the engine's decisive rule, and is "not winner" exactly when the comparison is not greater. |
| SelectionTrace.TraceMatchesSelection | crates/cgka-engine/src/convergence.rs:187-263 | The traced selection names the branch the plain one selects and compares it with the best eligible other branch; the rule trace is empty exactly when there is no such branch. |
| SelectionTrace.SimilarTrace | crates/cgka-engine/src/convergence.rs:206-263 | The whole audit trace of any slice reads witnesses only as a multiset. |
| SelectionTrace.TraceOrderFreeIff | crates/cgka-engine/src/convergence.rs:192-225 | Where ids tell candidates apart, the whole trace is independent of the order of the slice if and only if the best score is not shared. |
| Materialization.NothingMoreEnters | crates/cgka-engine/src/canonicalization.rs:459-534 | After one sweep over commits in source-epoch order no commit can still enter the graph. |
| Materialization.SecondSweepIdle | crates/cgka-engine/src/canonicalization.rs:459-534 | So the second turn of the fixed-point loop leaves the graph as it is. |
| Materialization.EntrantsResolve | crates/cgka-engine/src/canonicalization.rs:476-528 | The commits that enter satisfy the order-free description of a resolution. |
| Materialization.ResolutionUnique | crates/cgka-engine/src/canonicalization.rs:476-528 | That description has exactly one solution: which commits enter depends only on commits and roots. |
| Materialization.EntrantsAreLeastClosed | crates/cgka-engine/src/canonicalization.rs:448-534 | With distinct branch ids, what enters is the least set closed under "parent present and tip equals source epoch". |
| Materialization.UnfoundedNeverEnter | crates/cgka-engine/src/canonicalization.rs:476-534 | Commits whose parents are only each other (cycles) or nowhere (orphans) never enter. |
| LargerBatches.EntrantsGrow | crates/cgka-engine/src/canonicalization.rs:448-534 | With new and distinct branch ids, every commit that enters still enters when further commits join the batch. |
| LargerBatches.GraphGrowsIff | crates/cgka-engine/src/canonicalization.rs:448-545 | Of two batches, one within the other, the larger leaves every branch of the smaller graph unchanged if and only if every commit that entered still enters. |
| BranchPaths.BuiltReadout | crates/cgka-engine/src/canonicalization.rs:486-528 | What a chain of commits leaves in its branch: fork epoch, tip, commit path, branch path and consumed proposals, said without the recursion. |
| BranchPaths.GrownBranchWellFormed | crates/cgka-engine/src/canonicalization.rs:476-528 | Every grown branch has a chain behind it: no commit repeats in the chain, nor on the whole path exactly when the root path repeats none and shares none with the chain; each source epoch is the tip before it, the fork epoch is inherited from the root, and for branches grown from root commits the path is at most as long as the valid commit depth. |
| BranchPaths.PathNamesCommits | crates/cgka-engine/src/canonicalization.rs:486-528 | An id on a path that no root carries is a pending commit inside the rollback window. |
| BranchPaths.GraphStaysWithin | crates/cgka-engine/src/canonicalization.rs:476-528 | If the roots lie within the anchor and the rewind horizon, so does every branch. |
| Canonicalization.UniqueDistinct | crates/cgka-engine/src/canonicalization.rs:220-233 | Deduplication keeps pairwise distinct unseen ids, keeps only pending messages, and keeps one message for every unseen id. |
| Canonicalization.GraphCandidatesDistinct | crates/cgka-engine/src/canonicalization.rs:536-544 | The candidates handed to selection are sorted by pairwise distinct ids that are keys of the graph. |
| Canonicalizer.Deduplicate | crates/cgka-engine/src/canonicalization.rs:220-233 | The loop with its observed set computes the kept messages and the already-seen reports. |
| Canonicalizer.BuildRoots | crates/cgka-engine/src/canonicalization.rs:408-444 | Seeds and then replayed candidates fill the initial graph, later ones overriding. |
| Canonicalizer.Consider | crates/cgka-engine/src/canonicalization.rs:460-528 | One commit: the guards, the parent lookup and the insertion are exactly the admission rule. |
| Canonicalizer.Sweep | crates/cgka-engine/src/canonicalization.rs:459-529 | One turn of the loop computes the sweep and reports progress exactly when some commit entered. |
| Canonicalizer.MaterializeCandidateGraph | crates/cgka-engine/src/canonicalization.rs:403-545 | The loop terminates with the graph of a single sweep over the sorted commits. |
| Canonicalizer.FindCandidate | crates/cgka-engine/src/canonicalization.rs:600-636 | The first candidate with an id, or none when no candidate has it. |
| Canonicalizer.PushWitnesses | crates/cgka-engine/src/canonicalization.rs:600-636 | One app message pushes one witness per listed branch onto exactly the candidates it is valid for and not expired against. |
| Canonicalizer.AttachAppWitnesses | crates/cgka-engine/src/canonicalization.rs:600-636 | All messages together give every candidate exactly its witnesses. |
| Canonicalizer.DisposeAll | crates/cgka-engine/src/canonicalization.rs:315-356 | Handling the kept messages one by one fills each result list with the messages of its disposition, in arrival order. |
| Canonicalizer.DropEach | crates/cgka-engine/src/canonicalization.rs:747-773 | Each id not yet dropped is dropped once. |
| Canonicalizer.DropLosingCommits | crates/cgka-engine/src/canonicalization.rs:747-773 | The commits of every replayed branch other than the selected one end up dropped, once each. |
| Canonicalizer.Prepare | crates/cgka-engine/src/canonicalization.rs:216-256 | Deduplication, materialization and witnesses give the candidates that selection reads. |
| Canonicalizer.Decide | crates/cgka-engine/src/canonicalization.rs:216-357 | Everything before the status: selection, the accepted path, the dispositions and the drops of losing branches. |
| Canonicalizer.Run | crates/cgka-engine/src/canonicalization.rs:216-383 | The pass as written, loops and updates included, computes the pass function the other results are about. |
| OrderInvariance.OpenedSame | crates/cgka-engine/src/canonicalization.rs:216-314 | Batches of which the same messages are kept lead to the same selection, counts, errors and audit trace. |
| OrderInvariance.KeptOrderFreeIff | crates/cgka-engine/src/canonicalization.rs:220-233 | Every rearrangement of a batch keeps the same messages if and only if equal unseen ids mean equal messages. |
| OrderInvariance.SameKeptSameDecisions | crates/cgka-engine/src/canonicalization.rs:220-383 | Batches of which the same messages are kept agree on selection, accepts, drops, invalidations and trace, whatever copies they hold. |
| OrderInvariance.KeptOrSeen | crates/cgka-engine/src/canonicalization.rs:220-233 | Every pending message is either kept or reported as already seen, counted with multiplicity. |
| OrderInvariance.OrderInvariant | crates/cgka-engine/src/canonicalization.rs:216-383 | Any rearrangement of the pending messages that keeps the same ones gives the same whole result, accepted commits as a multiset. |
| DuplicateCopies.SameStatusSameOutcome | crates/cgka-engine/src/canonicalization.rs:358-381 | Batches of which the same messages are kept agree on all but the seen reports, accepted commits as a multiset, if and only if their status agrees. |
| DuplicateCopies.CopiesChangeNothingIff | crates/cgka-engine/src/canonicalization.rs:220-383 | Copies and order of the same kept messages change neither status nor outbound split nor any decision, accepted commits as a multiset, if and only if the window is not quiet yet or no unseen commit that alone bears its id is left open. |
| DuplicateCopies.ConsistentCopies | crates/cgka-engine/src/canonicalization.rs:220-233 | Where equal unseen ids mean equal messages, that covers every batch of the same messages and every unseen commit left open. |
| LateCommits.AcceptedOrderFreeIff | crates/cgka-engine/src/canonicalization.rs:878-889 | Over the rearrangements that keep the same messages the result is the same, accepted commits in order included, if and only if at most one kept commit names the selected branch without being on its path. |
| PassLimits.LateCommitsInArrivalOrder | crates/cgka-engine/src/canonicalization.rs:658-660 | An instance: two commits that name a seed branch are accepted in the order they came. |
| LateCommits.DistinctBranchesNoneLate | crates/cgka-engine/src/canonicalization.rs:658-660 | With new and distinct branch ids no commit is late. |
| LateCommits.DistinctBranchesFullInvariance | crates/cgka-engine/src/canonicalization.rs:216-383 | With new and distinct branch ids the result is identical for every rearrangement that keeps the same messages. |
| LargerBatches.LaterMessagesEnlargeIff | crates/cgka-engine/src/canonicalization.rs:220-242 | Messages that arrive later, copies included, keep every kept message and every branch of a pass if and only if every commit that entered still enters. |
| LargerBatches.DistinctBranchesEnlarge | crates/cgka-engine/src/canonicalization.rs:220-242 | With new and distinct branch ids they always do. |
| LargerBatches.LargerBatchSelectsNoLower | crates/cgka-engine/src/canonicalization.rs:234-242 | A batch that keeps more and changes no branch still selects, and never a branch that scores lower. |
| PassLimits.EarlierRivalTakesOver | crates/cgka-engine/src/canonicalization.rs:448-534 | An instance: a later commit that starts the same branch at an earlier epoch takes the place of the one that had entered, and the winning score falls. |
| Dispositions.Census | crates/cgka-engine/src/canonicalization.rs:638-773 | With or without replayed candidates: an id is accepted exactly when it is on the selected path or a kept message with that id is accepted, dropped exactly when a losing replayed branch carries it or a kept message is dropped, invalidated exactly when a kept message is. |
| Dispositions.ListsExclusiveIff | crates/cgka-engine/src/canonicalization.rs:638-773 | With or without replayed candidates, no id is in two lists if and only if no losing replayed branch shares a commit with the selected path, no kept message whose id is on the path is dropped or invalidated, and none that a losing branch carries is accepted or invalidated. |
| Dispositions.ListsExclusive | crates/cgka-engine/src/canonicalization.rs:315-356 | In a pass without replayed candidates no message id is in two of the accepted, dropped and invalidated lists. |
| Dispositions.StatusExact | crates/cgka-engine/src/canonicalization.rs:775-846 | With or without replayed candidates: Syncing exactly until quiescence; then Resolving exactly when some commit, unseen and standing once in the batch, is in the window, not on the selected path, does not name the selected branch, is outside the graph or faces no selection, and is no commit of a losing replayed branch; otherwise Settled; Blocked never. |
| Dispositions.IntentsConserved | crates/cgka-engine/src/canonicalization.rs:358-381 | Outbound intents go, all of them, to published when settled and to queued otherwise. |
| Dispositions.ReplaySettles | crates/cgka-engine/src/canonicalization.rs:220-233 | A batch of seen ids decides what an empty batch decides, reports every message as seen, and settles once quiet. |
| ReplayedBranches.ReplayedExclusiveIff | crates/cgka-engine/src/canonicalization.rs:747-773 | When no pending message is a replayed commit, the lists are exclusive if and only if no losing replayed branch shares a commit with the selected path. |
| PassLimits.SharedIdDependsOnOrder | crates/cgka-engine/src/canonicalization.rs:224-233 | An instance: two messages of different kinds under one unseen id give different results in the two orders. |
| PassLimits.SecondCopySettles | crates/cgka-engine/src/canonicalization.rs:787-838 | An orphan commit keeps a quiet pass in Resolving; a second copy of it lets the same pass settle. |
| PassLimits.SharedCommitAcceptedAndDropped | crates/cgka-engine/src/canonicalization.rs:747-773 | An instance: a commit replayed by the winner and by a loser is both accepted and dropped. |
| WitnessEpochs.GainedIff | crates/cgka-engine/src/canonicalization.rs:600-636 | A candidate has a witness from the pass if and only if a kept app message lists its id, is unexpired against its tip, and has that epoch and sender. |
| WitnessEpochs.GainedOutsideIff | crates/cgka-engine/src/canonicalization.rs:600-636 | It gains a witness at or below its fork epoch if and only if such a message has such an epoch, and likewise above its tip. |
| WitnessEpochs.PassAsWrittenIff | crates/cgka-engine/src/canonicalization.rs:600-636 | Selection reads only the witnesses the protocol text admits if and only if, for every branch of the graph, the witnesses it came with and the messages that speak for it lie above its fork epoch and not above its tip. |
| WitnessEpochs.OutsideWitnessDecides | crates/cgka-engine/src/canonicalization.rs:234-242 | A family of inputs where one message outside a branch's epochs makes the pass select a shorter branch than the text would. |
| CatchUpDriver.Handshake | crates/agent-connector/src/event_projection.rs:717-789 | At most one task owns the started flag, the flag is set exactly when one does, and a counted subscription without an owner still has a subscriber before its swap or a task before its decision. |
| CatchUpDriver.NoSubscriptionUndriven | crates/agent-connector/src/event_projection.rs:717-789 | Once all have swapped and decided, a held subscription has a driver. |
| CatchUpDriver.DriverInReach | crates/agent-connector/src/event_projection.rs:717-762 | From every reachable state with a counted subscriber, at most two steps of those pending put a driver in charge. |
| CatchUpDriver.FinishesOnlyWhenUnneeded | crates/agent-connector/src/event_projection.rs:726-744 | A task ends its loop only when nobody is subscribed or another task owns the flag. |
| TextChunks.SplitTextDeltas | crates/transport-quic-stream/src/send.rs:107-129 | The splitting loop computes the chunk function. |
| TextChunks.SplitJoins | crates/transport-quic-stream/src/send.rs:107-129 | Chunks join to the text, none is empty, and one exceeds the bound only as a single character; no chunk exactly for empty text. |
| ComposeSession.AppendLiveKeeps | crates/agent-stream-compose/src/lib.rs:520-542 | Appending a record keeps "published then pending equals the history" while no error is latched, with the caps and the byte count right. |
| ComposeSession.FlushDelivers | crates/agent-stream-compose/src/lib.rs:587-602 | Flushing hands the buffer over in order, or latches an error having handed over a prefix. |
| ComposeSession.ConnectKeeps | crates/agent-stream-compose/src/lib.rs:134-309 | A late connect, successful or not, keeps that invariant; a connected publisher has nothing pending. |
| ComposeSession.RunningInv | crates/agent-stream-compose/src/lib.rs:134-309 | The invariant holds at every point of every run before it ends, whatever the broker answers. |
| ComposeSession.LatchedStaysSilent | crates/agent-stream-compose/src/lib.rs:520-602 | From the point of any run where an error is latched, every continuation keeps it latched and sends nothing more. |
| ComposeSession.ReportMatchesHistory | crates/agent-stream-compose/src/lib.rs:430-586 | On every run report text, chunk count and transcript are those of the handled commands: broker answers, connects and failures do not enter. |
| ComposeSession.TranscriptContiguous | crates/agent-stream-compose/src/lib.rs:380-402 | Transcript entries are numbered one by one from one. |
| ComposeSession.TranscriptSaysRecords | crates/agent-stream-compose/src/lib.rs:380-402 | The joined chunks of the transcript are the joined texts of the records. |
| ComposeSession.BrokerSeesPrefix | crates/agent-stream-compose/src/lib.rs:544-678 | At the end the broker holds records, then at most an abort, then at most a close; the records are a prefix of the history, all of it when closed without an abort. |
| ComposeSession.FinishTells | crates/agent-stream-compose/src/lib.rs:544-586 | After any run the report of a finish shows exactly a latched error; it shows none over a wire without a close if and only if the session was still connecting without one, and then the broker has seen nothing. |
| ComposeSession.FinishBeforeConnect | crates/agent-stream-compose/src/lib.rs:544-586 | An instance: text appended and the session finished before the broker answers. |
| ComposeLoop.ComposeTask.AppendRecordText | crates/agent-stream-compose/src/lib.rs:380-394 | The transcript loop appends the numbered chunks of a record. |
| ComposeLoop.ComposeTask.AppendLiveRecord | crates/agent-stream-compose/src/lib.rs:520-542 | The live append step on the session object is the step function. |
| ComposeLoop.ComposeTask.FlushPending | crates/agent-stream-compose/src/lib.rs:587-602 | The flush loop on the session object is the flush function. |
| ComposeLoop.ComposeTask.HandleCommand | crates/agent-stream-compose/src/lib.rs:430-518 | A command on the session object is one step of the run. |
| ComposeLoop.ComposeTask.HandleConnect | crates/agent-stream-compose/src/lib.rs:134-309 | A finished connect is one step of the run. |
| ComposeLoop.ComposeTask.HandleFinish | crates/agent-stream-compose/src/lib.rs:544-586 | Finish is one step of the run and answers with the final report. |
| ComposeLoop.ComposeTask.CloseLive | crates/agent-stream-compose/src/lib.rs:570-576 | Closing the live side: one close on the wire, or a latched error, and nothing when no publisher is live. |
| ComposeLoop.ComposeTask.HandleCancel | crates/agent-stream-compose/src/lib.rs:644-678 | Cancel is one step of the run. |
| ComposeLoop.RunSession | crates/agent-stream-compose/src/lib.rs:134-309 | The session loop over any sequence of inputs ends in the state the run function gives. |
| AdminGroup.RejectAdminSelfRemoves | crates/cgka-engine/src/app_components.rs:326-350 | Refuses exactly when some queued SelfRemove comes from a listed admin or the policy does not read. |
| AdminGroup.IsAllowedNonAdminCommit | crates/cgka-engine/src/app_components.rs:405-432 | True exactly for commits anyone may make: SelfRemoves only, or an own path update. |
| AdminGroup.RequireAdminForStagedCommit | crates/cgka-engine/src/app_components.rs:202-218 | Passes exactly when the commit is open to all or its sender is a listed admin. |
| AdminGroup.ResultingAccounts | crates/cgka-engine/src/app_components.rs:247-285 | Collects exactly the 32-byte accounts that have a leaf after the commit. |
| AdminGroup.ValidateAdminLeafCoupling | crates/cgka-engine/src/app_components.rs:234-298 | Passes exactly when every admin of the resulting policy has a leaf after the commit. |
| AdminGroup.AcceptedStaysCoupled | crates/cgka-engine/src/app_components.rs:234-298 | After an accepted commit every listed admin has a leaf. |
| AdminGroup.PolicyAfterIff | crates/cgka-engine/src/app_components.rs:545-581 | A commit leaves a policy if and only if there was one and no proposal takes it without a later one putting it back, or there was none and a proposal puts one that no later one takes. |
| AdminGroup.GovernedIffPolicyStays | crates/cgka-engine/src/app_components.rs:234-298 | An accepted commit leaves a non-empty, coupled admin list if and only if there was a policy and no proposal of the commit takes it away for good. |
| AdminGroup.PolicyStaysIff | crates/cgka-engine/src/app_components.rs:545-581 | While the component is required, a commit that passes the component checks can take the policy away only by replacing the group-context extensions without it, and does so if and only if it puts none after. |
| AdminGroup.NonAdminCommit | crates/cgka-engine/src/app_components.rs:405-432 | A commit from a non-admin changes neither admin list nor requirements, and removes exactly the leaves of the SelfRemove senders. |
| AdminGroup.AdminsDoNotSelfRemove | crates/cgka-engine/src/app_components.rs:326-350 | No listed admin leaves by SelfRemove. |
| AdminGroup.AdminLeavesStay | crates/cgka-engine/src/app_components.rs:326-350 | A commit accepted from a non-admin takes no leaf from any listed admin. |
| AdminGroup.RunsStayGoverned | crates/cgka-engine/src/app_components.rs:202-298 | Over every run of accepted commits all admins keep a leaf, and the list is non-empty at the end if and only if no commit of the run takes the policy away for good: once gone it never comes back. |
| AdminGroup.OnlyAdminsChangeAdmins | crates/cgka-engine/src/app_components.rs:202-218 | A run of commits by non-admins leaves the admin bytes as they were and adds or changes no leaf. |
| AdminGroup.AdminCanDissolve | crates/cgka-engine/src/app_components.rs:566-581 | An admin can empty the list in two accepted commits, whoever proposed what they commit: stop requiring the policy, then remove it. |
| AdminGroup.DecidedCommitsPass | crates/cgka-engine/src/auto_committer.rs:57-141 | Whatever the auto-committer decides to commit passes every gate, for any committing member, one proposal or many. |
| AdminGroup.DecisionIsTheGates | crates/cgka-engine/src/auto_committer.rs:57-160 | The auto-committer commits a proposal if and only if it is a SelfRemove of another member's leaf whose identity reads and the gates accept its commit. |
| ByteCodecs.ReadVarint | crates/traits/src/app_components/codec.rs:77-100 | The byte loop computes the varint decoder, with its truncation and minimality errors. |
| ByteCodecs.VarintRoundTrip | crates/traits/src/app_components/codec.rs:62-100 | Decoding an encoded value returns it if and only if it is below two to the sixty-two. |
| ByteCodecs.VarintCanonical | crates/traits/src/app_components/codec.rs:77-100 | An accepted prefix is the encoder's own output. |
| AdminPolicyCodec.WriteAdminPolicy | crates/cgka-engine/src/app_components.rs:464-481 | Sort, dedup and the append loop compute the encoder, refusing the empty list. |
| AdminPolicyCodec.ReadKeys | crates/cgka-engine/src/app_components.rs:502-506 | The chunk loop cuts the body into its 32-byte keys. |
| AdminPolicyCodec.ReadAdminPolicy | crates/cgka-engine/src/app_components.rs:483-516 | The decoder as written, in the order of its checks. |
| AdminPolicyCodec.DecodeEncodePolicy | crates/cgka-engine/src/app_components.rs:464-516 | Decoding an encoded list gives its sorted, duplicate-free form with the same members. |
| AdminPolicyCodec.EncodeSeesOnlyTheSet | crates/cgka-engine/src/app_components.rs:464-481 | Order and repetition of the admins do not reach the bytes. |
| AdminPolicyCodec.EncodeDecodePolicy | crates/cgka-engine/src/app_components.rs:483-516 | Accepted bytes hold a non-empty ascending list whose encoding is those very bytes. |
| IdentityProofCodec.ProofRoundTrip | crates/cgka-engine/src/account_identity_proof.rs:236-279 | A proof decodes to itself if and only if its identity has 32 bytes and its key fits a 16-bit length. |
| IdentityProofCodec.ProofCanonical | crates/cgka-engine/src/account_identity_proof.rs:248-306 | Encoding an accepted proof returns the very bytes. |
| IdentityProofCodec.CanonicalMessageInjective | crates/cgka-engine/src/account_identity_proof.rs:55-68 | Two requests with the same signed message are equal, whatever the keys, when their identity lengths agree in the part the 16-bit length loses; in particular when they are equal or both below 65536. |
| IdentityProofCodec.InjectiveBelowIff | crates/cgka-engine/src/account_identity_proof.rs:55-68 | The signed message tells all requests with identities below n bytes apart if and only if n is at most 65536. |
| IdentityProofCodec.CanonicalMessageCollision | crates/cgka-engine/src/account_identity_proof.rs:55-68 | A family of pairs of different requests that sign the same message: an identity of 65536 bytes trades places with a key of 65536 bytes. |
| BoundedFifo.BoundedIdSet.Insert | crates/cgka-engine/src/bounded_id_set.rs:76-92 | Keeps members, order and generation equal to what the whole history of inserts says. |
| BoundedFifo.DeliveredInboundCursor.Record | crates/agent-connector/src/event_projection.rs:677-688 | Evict-then-insert keeps order and members equal to what the history of inserts says: the same function as the engine cache. |
| BoundedFifo.HeldFacts | crates/cgka-engine/src/bounded_id_set.rs:76-92 | What is held never repeats and never exceeds the capacity. |
| BoundedFifo.HeldIsLastEffective | crates/cgka-engine/src/bounded_id_set.rs:76-92 | What is held is the last `capacity` effective inserts, in order. |
| BoundedFifo.GenerationTellsChange | crates/cgka-engine/src/bounded_id_set.rs:94-99 | With fewer than two to the sixty-four effective inserts in between, generations agree exactly when nothing changed, and then contents agree. |
| InboundDelivery.ReplayMissedInbound | crates/agent-connector/src/inbound.rs:253-300 | The replay loop over accounts and rows records and returns exactly the missed ids in order, or fails at the first unreadable account. |
| InboundDelivery.ReplayAccount | crates/agent-connector/src/inbound.rs:265-299 | The row loop of one account records and collects exactly the rows not yet held. |
| InboundDelivery.StreamInboundEvents | crates/agent-connector/src/inbound.rs:61-245 | The drain loop writes what the step machine says. |
| InboundDelivery.RunTracks | crates/agent-connector/src/inbound.rs:61-300 | On every run the cursor holds the last `capacity` recorded ids, which are spaced that far apart. |
| InboundDelivery.RepeatNeedsFullWindow | crates/agent-connector/src/inbound.rs:152-243 | Between two records of one id at least `capacity` other, pairwise distinct ids were recorded. |
| InboundDelivery.DeliveredTwiceNeedsFullWindow | crates/agent-connector/src/inbound.rs:152-243 | Between two durable events of one id in the output at least `capacity` other, pairwise distinct ids were recorded. |
| InboundDelivery.OutputIsEmitted | crates/agent-connector/src/inbound.rs:152-243 | The durable events written out are, in order, the records marked as emitted. |
| InboundDelivery.SilentRecordIff | crates/agent-connector/src/inbound.rs:213-300 | A step records an id without writing it out if and only if it is a replay within the window that meets a fresh relevant row and later an account it cannot read; it then writes exactly one resynchronization notice. |
| InboundDelivery.SuppressedUnseenIff | crates/agent-connector/src/inbound.rs:152-243 | On every run a relevant live event is suppressed although its id was not written out within the window if and only if the window holds a silent record of that id. |
| InboundDelivery.PartialReplaySuppresses | crates/agent-connector/src/inbound.rs:253-300 | A replay that fails at a later account leaves earlier ids recorded, and their live events are then suppressed. |
| IdempotencyStore.SendIdempotency.Get | crates/agent-connector/src/stream_session.rs:114-122 | Answers the recorded ids only for the recorded fingerprint. |
| IdempotencyStore.SendIdempotency.Record | crates/agent-connector/src/stream_session.rs:128-150 | First write wins; at capacity the oldest key leaves all three structures; a persist is due exactly for a new key. |
| IdempotencyStore.SendIdempotency.SnapshotEntries | crates/agent-connector/src/stream_session.rs:219-235 | The entries to persist, in key order. |
| IdempotencyStore.SendIdempotency.LoadFrom | crates/agent-connector/src/stream_session.rs:279-301 | Loading entries is recording them into an empty store. |
| IdempotencyStore.AnyFileLoadsValid | crates/agent-connector/src/stream_session.rs:279-301 | Whatever entries a file holds, the loaded store is bounded, duplicate-free and its three structures agree. |
| IdempotencyStore.FirstRecordWins | crates/agent-connector/src/stream_session.rs:114-150 | Over every run that does not evict a key, it answers the ids of its first record for that record's fingerprint and nothing for any other. |
| IdempotencyStore.HoldsTheNewest | crates/agent-connector/src/stream_session.rs:128-150 | The keys held are the last 1024 new ones, oldest first: the bounded-FIFO function of the keys recorded. |
| IdempotencyStore.PersistThenLoad | crates/agent-connector/src/stream_session.rs:219-301 | Loading what was persisted rebuilds exactly the same order and maps. |
| IdempotencyStore.RunsStayOrdered | crates/agent-connector/src/stream_session.rs:144-266 | Over every interleaving of records and persist tasks, disk is no newer than the last copy taken, which is no newer than memory, and memory beyond that copy has a task waiting. |
| IdempotencyStore.RestartNeverGoesBack | crates/agent-connector/src/stream_session.rs:219-266 | A restart at any moment loads exactly a state memory once had, never one older than an earlier restart would have loaded. |
| IdempotencyStore.DiskIsNewestIff | crates/agent-connector/src/stream_session.rs:219-266 | The file is that of the newest memory if and only if a task that copied after the last record has renamed its file. |
| IdempotencyStore.MissedRenameStaysBehind | crates/agent-connector/src/stream_session.rs:219-266 | An instance: the only task misses its rename, and a restart loads the state before the record. |
| IdempotencyStore.QuietDiskIsMemory | crates/agent-connector/src/stream_session.rs:219-266 | Once all tasks have ended and the last one renamed, a restart loads what memory holds. |
| SimulatorBus.TakeBatchConserves | crates/cgka-conformance-simulator/src/bus.rs:273-310 | Under all three policies batch and rest are the queue as a multiset, the batch has the asked length, and the first two policies keep the stated order. |
| SimulatorBus.WholeQueueFacts | crates/cgka-conformance-simulator/src/bus.rs:149-160 | A batch of the whole queue leaves nothing: the queue itself, its reverse, or a permutation of it. |
| SimulatorBus.EveryoneElseHears | crates/cgka-conformance-simulator/src/bus.rs:123-145 | Without a partition and with broadcast welcomes a client gets all messages of others in order and none of its own. |
| SimulatorBus.SilentWhenBarred | crates/cgka-conformance-simulator/src/bus.rs:123-145 | A client outside the partition, or not addressed by a welcome, gets nothing. |
| SimulatorBus.TransportBus.Step | crates/cgka-conformance-simulator/src/bus.rs:107-146 | Every mailbox is extended by the batch filtered by sender, partition and envelope, in batch order. |
| SimulatorBus.TransportBus.DeliverAll | crates/cgka-conformance-simulator/src/bus.rs:149-160 | Terminates with an empty queue, having delivered the whole queue as one batch. |
| SimulatorBus.TransportBus.Mailbox | crates/cgka-conformance-simulator/src/bus.rs:163-166 | Returns and empties one mailbox. |
| SimulatorBus.TransportBus.Inject | crates/cgka-conformance-simulator/src/bus.rs:180-185 | Appends to a known client's mailbox and ignores an unknown one. |
| SimulatorBus.TransportBus.DropQueued | crates/cgka-conformance-simulator/src/bus.rs:204-211 | Removes one queued message, or refuses an index out of range. |
| SimulatorBus.TransportBus.DuplicateQueued | crates/cgka-conformance-simulator/src/bus.rs:215-222 | Puts the copy directly behind the original, or refuses. |
| SimulatorBus.TransportBus.DelayQueued | crates/cgka-conformance-simulator/src/bus.rs:225-233 | Moves one queued message under a tag, or refuses. |
| SimulatorBus.TransportBus.ReleaseDelayed | crates/cgka-conformance-simulator/src/bus.rs:236-243 | Moves a tag's messages to the end of the queue, or refuses an unknown tag. |
| SimulatorBus.TransportBus.ReorderQueued | crates/cgka-conformance-simulator/src/bus.rs:248-264 | Succeeds if and only if the order is a permutation of the queue's positions, and then picks by it; otherwise changes nothing. |
| SimulatorBus.NothingMadeOrLost | crates/cgka-conformance-simulator/src/bus.rs:89-264 | Over every run and policy, sent plus duplicated equals queued plus delayed plus dropped plus carried as multisets, and what each client has read or will read is the carried messages that reach it since it attached, in order, interleaved with those injected for it. |
| SimulatorBus.ToldExactly | crates/cgka-conformance-simulator/src/bus.rs:107-166 | Without injections a client reads exactly the carried messages that reach it since it attached, in order. |
| SimulatorBus.PickedConserves | crates/cgka-conformance-simulator/src/bus.rs:248-264 | Reordering by a permutation only rearranges. |
| SimulatorBus.PermutationIffRange | crates/cgka-conformance-simulator/src/bus.rs:248-264 | An order is a permutation exactly when it rearranges 0..n. |
| SimulatorBus.ShuffledOrder | crates/cgka-conformance-simulator/src/family.rs:1165-1173 | The in-place shuffle yields a permutation of its length for any draws. |
| SimulatorBus.DrawsDecideTheOrder | crates/cgka-conformance-simulator/src/family.rs:1161-1173 | Different draws give different orders. |
| SimulatorBus.FixedOrdersPermute | crates/cgka-conformance-simulator/src/family.rs:1153-1159 | Reversed and rotated orders are permutations of their length. |
| EngineMetrics.Bucket | crates/cgka-engine/src/engine_metrics.rs:77-85 | A sample belongs to the first bucket whose bound it does not exceed, or to the overflow. |
| EngineMetrics.BucketHistogram.Record | crates/cgka-engine/src/engine_metrics.rs:77-85 | The search loop counts the sample there and nowhere else. |
| EngineMetrics.TotalIsAtMost | crates/cgka-engine/src/engine_metrics.rs:62-85 | Adding up the buckets through a bound counts exactly the recorded samples within that bound. |
| EngineMetrics.EverySampleCounted | crates/cgka-engine/src/engine_metrics.rs:127-129 | The sample count is the number of samples ever recorded. |
| EngineMetrics.ApproxPercentile | crates/cgka-engine/src/engine_metrics.rs:139-154 | The accumulating loop reads the bound of the first bucket that reaches the target, and nothing exactly without samples or when none does. |
| EngineMetrics.ReachesIsLeastCovering | crates/cgka-engine/src/engine_metrics.rs:139-154 | That bucket's bound is the least bound with at least the target number of samples within it, and conversely. |
| EngineMetrics.ReadsLeastCovering | crates/cgka-engine/src/engine_metrics.rs:139-154 | A percentile reads the least bound with at least the target number of recorded samples within it, and nothing exactly when there is none. |
| EngineMetrics.PercentilesOfReorgs | crates/cgka-engine/src/engine_metrics.rs:43-53 | After any log the percentiles of both histograms, with the bucket edges the engine uses, read the least edge that covers the target number of reorgs. |
| EngineMetrics.PercentileMonotone | crates/cgka-engine/src/engine_metrics.rs:139-154 | A higher percentile never reads a lower bound, and reads nothing where a lower one already lies in the overflow. |
| EngineMetrics.Recorder.NoteAppliedSelection | crates/cgka-engine/src/engine_metrics.rs:233-269 | After any log of applied selections, counters, both histograms and the per-group record are exactly those of the log. |
| EngineMetrics.ReorgsLagSettles | crates/cgka-engine/src/engine_metrics.rs:233-269 | Reorgs plus the number of groups that ever settled is at most the number of settles. |
| EngineMetrics.BothHistogramsCountReorgs | crates/cgka-engine/src/engine_metrics.rs:243-256 | Both histograms hold one sample per reorg, and every rewind is at least one commit deep. |

## Left out

- OrderInvariance.OrderInvariant: for rearrangements that keep the same messages; `KeptOrderFreeIff` says when that is all of them.
- ReplayedBranches.ReplayedExclusiveIff: assumes that no pending message is itself one of the replayed commits; `ListsExclusiveIff` covers the general case.
- AdminPolicyCodec.DecodeEncodePolicy: for lists shorter than two to the sixty-two bytes, the range of the length prefix.
- AdminGroup.PolicyAfterIff: the effects of a commit's proposals are folded in queue order, also where new group-context extensions and component updates stand in one commit; the source hands the component updates to OpenMLS as one set.
- EngineMetrics.ApproxPercentile: percentiles are reals, so floating-point rounding and NaN are not modelled.
- SimulatorBus.TakeBatchConserves: holds for any hash of seed and position; the bus itself runs the seeded FNV-1a of the source, and its sort by that hash is stable.
- SimulatorBus.ShuffledOrder: the generator's draws are a parameter.
- CatchUpDriver.Handshake: steps are sequentially consistent; weak memory orders and overflow of the subscriber counter are not modelled.
- The branch graph is one map of records; the source keeps four maps with the same keys.
- Rule values in the audit trace are kept as values, not rendered as text.
- Digests, signatures, exporter secrets and storage are opaque bytes or parameters; OpenMLS groups, leaves, proposals and staged commits are plain datatypes.
- Broker answers, connect outcomes, deadlines, clocks and file-system failures are inputs of the steps.
- The transcript hash is the hashed record list itself.
- JSON, file permissions and the version check of the idempotency file.
- The order in which the bus visits clients, which no mailbox shows.
- The proof decoder threads its cursor through function results instead of updating it in place.
- Counters of the metrics are unbounded.
- Mention scanning, media tags and the projection of events and records.
- The scenario minimizer, scenario builders and reports of the simulator.
- Control-protocol dispatch, bootstrap and QUIC plumbing.
