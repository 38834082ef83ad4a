# Verified model of the backend's document protocols

This Dafny project models the stateful protocols of the backend's database layer and proves what they
keep over every run. Each protocol is a set of documents updated by transactions that run one at a time, in
any order, by any number of callers; the statements below quantify over all such interleavings.

* **Conversation finalization outbox**: a job per (conversation, revision) with dispatch generations, lease
  epochs, an external fanout, a bring-your-own-key (BYOK) lane, replay, abandonment, and dashboard counters
  spread over 16 shards (`Finalization*.dfy`); the bounded recovery sweep, its shared cursor and what it discovers
  (`RecoverySweep.dfy`, `SweepDiscovery.dfy`).
* **Candidates**: proposals with idempotency aliases, semantic coalescing, direct resolution, the crash-resumable
  legacy promotion claim and the integration outbox (`Candidate*.dfy`).
* **Proactive chat intents**: delivery with fetch, rejection and deferral budgets, dead letters and one repair
  requeue (`Intent*.dfy`).
* **Desktop release channels**: Beta admission control, channel pointers, immutable manifests, break-glass (`Channel*.dfy`).
* **In-memory cache**: byte-bounded LRU with lifetimes (`Lru*.dfy`) and the per-key singleflight lock protocol with its
  nested calls (`Singleflight.dfy`, `NestedFlight.dfy`).
* **Chat journal**: revision arbitration (`ChatRevisions.dfy`), reconcile paging and the history window (`ChatPaging.dfy`).

Each protocol has the same layers: values and transaction functions; what each transaction answers and writes, exactly
when, spelled out on the stored documents (`*Answers.dfy`); theorems over runs (`*Runs.dfy`, `*Laws.dfy`); and a
class whose fields are the documents and whose methods make the checks and writes of the code in its order. Each method
is proved equal to its transaction function, so the theorems are about what the methods do.

Modelling choices. Time is an integer given to each step. In the outbox the clock never runs backwards; candidates
need that only for creations, intents and channels not at all. Ids derived by hashing are injective constructors.
Lifecycle admission, content and relationship checks, budget availability, acquired sessions and chat-row lookups are
inputs with arbitrary values. Documents start empty. Writes by code outside a protocol (conversations, tasks, account
generation, cache invalidation) are arbitrary steps.

Where code and documentation disagree, the code is modelled. The findings, each with its exact condition and a reachable
case: a recovery sweep whose limit falls inside a short last page wraps past an unexamined tail (`SkipsTailExactlyWhen`),
so the promised eventual discovery is false: new arrivals can starve an eligible row for ever although every returned row
is settled at once (`SettledArrivalsStarveARow`), and so can deletions of the cursor document (`LostPlacesStarveARow`).
A row is discovered iff from some sweep on none misses it in one of these two ways (`ReturnedExactlyWhenMissedNoMore`);
a backlog below the limit suffices (`SmallBacklogIsDiscovered`), and skips do no lasting harm where no row arrives,
none becomes eligible and returned rows are settled (`EveryWaitingRowIsReturned`). A `fetch_fn` that calls the cache again
can deadlock (`SameKeyNestingNeverReturns`), exactly when calls wait for one another only (`DrainsExactlyWhenDeadlockFree`).
The fanout completion write needs no claim (`CompletionWasClaimedIff`,
`SuccessWithoutFanoutClaim`); the completion write answers true on a fenced row (`CompleteTrueMeansSuccessUnlessFenced`,
`CompletionAnswersTrueWhenFenced`); a delivered cold-start intent can be delivered again (`RedeliveredIff`,
`ColdStartIsRedelivered`); the repair age can count from before the death (`RepairWaitsAfterDeathIff`,
`RepairedWithoutWaiting`); content blocks can depend on delivery order (`BlocksConverge`, `BlocksDivergeUnlessSettled`);
the history over-fetch does not always fill the window (`HistoryIsFullIff`, `ManyReportsHideHistory`).

Rows marked "Helper" state one step or one record; the other rows are the results they serve.

`dafny verify dfyconfig.toml` checks the whole project.

## Model

| member | source | states |
|---|---|---|
| `FinalizationRuns.ProjectionIsExact` | backend/database/conversation_finalization_jobs.py:221-242 | In every run from an empty outbox, although each transaction only adds its literal increments, each counter of each of the 16 shards equals the number of stamped jobs of that shard with that status or outcome, and accepted = the five statuses, completed = success + stale, dead letters = failures |
| `FinalizationRuns.SummaryIsExact` | backend/database/conversation_finalization_jobs.py:2033-2072 | The sum over the shards counts every stamped job exactly once, for every gauge, and keeps the same identities |
| `FinalizationStore.OutboxStore.Summary` | backend/database/conversation_finalization_jobs.py:2046-2072 | The summary loop reads only shards, yet returns for every gauge the exact number of stamped jobs |
| `FinalizationRuns.StepKeepsInv` | backend/database/conversation_finalization_jobs.py:284-392 | Every transaction, at any later instant, keeps the whole invariant (exact counters, recovery lane, truthful outcome) and lets each job only evolve |
| `FinalizationRuns.RunKeepsInv` | backend/database/conversation_finalization_jobs.py:284-392 | So does every interleaving of transactions, due queries and foreign conversation writes |
| `FinalizationRuns.SupersededTokenNeverActs` | backend/database/conversation_finalization_jobs.py:174-179 | Once a (generation, epoch) token is superseded, no continuation lets completion, fencing, retry, burial or a fanout write with it change anything |
| `FinalizationRuns.ClaimEpochsIncrease` | backend/database/conversation_finalization_jobs.py:506-543 | Of two successful claims with anything in between, the later epoch is strictly larger and fences the earlier token |
| `FinalizationRuns.AtMostOneTerminalWrite` | backend/database/conversation_finalization_jobs.py:572-603 | Over any run at most one write ends a job; completed and dead letter are absorbing with their outcome |
| `FinalizationRuns.SettledFanoutNeverReclaimed` | backend/database/conversation_finalization_jobs.py:709-760 | After fanout is recorded completed, or the job ended (BYOK abandonment included), no later call returns claimed and the fanout key is the same |
| `FinalizationRuns.TerminalOutcomesAreTruthful` | backend/database/conversation_finalization_jobs.py:586-601 | In every reachable state success implies recorded fanout, stale implies fenced fanout, failure is exactly dead letter |
| `FinalizationRuns.ReconcileInstantMarksPlatformJobs` | backend/database/conversation_finalization_jobs.py:850-854 | In every reachable state a job carries a reconcile instant iff it is queued or leased and not BYOK, and the due query never hands a BYOK job to replay |
| `FinalizationRuns.DueJobsAreRequeued` | backend/database/conversation_finalization_jobs.py:1271-1319 | Whenever a reconcile instant is due, query and replay really requeue the job with the next generation, superseding every token issued before |
| `FinalizationRuns.FinalWritesCloseTheConversation` | backend/database/conversation_finalization_jobs.py:884-948 | Helper (one transaction): a final failure or an abandonment never leaves the bound conversation processing (unless deferred), and touches no conversation bound elsewhere |
| `FinalizationJobLaws.CompletionStepsGood` | backend/database/conversation_finalization_jobs.py:572-649 | Helper: completing and fencing keep the job invariant and are a legal evolution of the job |
| `FinalizationJobLaws.FailureStepsGood` | backend/database/conversation_finalization_jobs.py:829-948 | Helper: likewise retry and dead letter |
| `FinalizationJobLaws.FanoutStepsGood` | backend/database/conversation_finalization_jobs.py:709-807 | Helper: likewise the two fanout writes |
| `FinalizationJobLaws.ClaimGood` | backend/database/conversation_finalization_jobs.py:478-543 | Helper: likewise a claim |
| `FinalizationJobLaws.RecoveryStepsGood` | backend/database/conversation_finalization_jobs.py:1861-1971 | Helper: likewise resume, receipt and abandonment |
| `FinalizationJobLaws.ReplayGood` | backend/database/conversation_finalization_jobs.py:1292-1319 | Helper: likewise replay of a platform-key job |
| `FinalizationJobLaws.SupersededForever` | backend/database/conversation_finalization_jobs.py:174-179 | Helper: a token that lost its lease never becomes current again along any evolution |
| `FinalizationJobLaws.SupersededIsInert` | backend/database/conversation_finalization_jobs.py:586-601 | Helper: each of the six worker writes leaves the job unchanged under such a token |
| `FinalizationJobLaws.CommitSupersedes` | backend/database/conversation_finalization_jobs.py:506-534 | Helper: every committed claim, retry, replay and terminal write supersedes every token issued so far |
| `FinalizationJobLaws.DueIsRequeued` | backend/database/conversation_finalization_jobs.py:1292-1316 | Helper: a due job satisfies the replay guard: the armed instant is never earlier than what the guard asks |
| `FinalizationJobLaws.LanesPartitionOpenJobs` | backend/database/conversation_finalization_jobs.py:1337-1347 | Once its instants passed, an open job is due iff it is not BYOK and abandonable iff it is: no job in no lane, none in both |
| `FinalizationJobLaws.ReplayWindowCondition` | backend/database/conversation_finalization_jobs.py:1298-1302 | If the configured window changed since arming, a due queued job is requeued iff the dispatch is older than the new window |
| `FinalizationJobLaws.ReplayBreaksByokLane` | backend/database/conversation_finalization_jobs.py:1271-1319 | The replay transaction itself does not test BYOK: on a BYOK job the invariant survives iff the guard refuses |
| `FinalizationJobLaws.FanoutClaimedExactlyWhen` | backend/database/conversation_finalization_jobs.py:697-760 | A fanout claim succeeds iff nothing is settled, the lease is current and the conversation is completed, undiscarded and at the same revision; fenced off iff the last fails |
| `FinalizationJobLaws.FanoutCompletedWithoutClaim` | backend/database/conversation_finalization_jobs.py:784-807 | The current lease may record completion of any uncompleted fanout, claimed or not; repeating the write is answered true iff the last claim was made under that epoch |
| `FinalizationFanout.CompletionWasClaimedIff` | backend/database/conversation_finalization_jobs.py:784-807 | In every reachable state with an uncompleted fanout, the current lease can record completion, and it had claimed the fanout somewhere in the run iff the stored fanout epoch is its own |
| `FinalizationFanout.FanoutEpochIsLastClaim` | backend/database/conversation_finalization_jobs.py:741-760 | Over any run the fanout epoch is the greatest epoch under which the fanout was claimed |
| `FinalizationFanout.SuccessWithoutFanoutClaim` | backend/database/conversation_finalization_jobs.py:784-807 | A run from the empty outbox that ends in success with no fanout claim in it |
| `FinalizationFanout.CompletionAnswersTrueWhenFenced` | backend/database/conversation_finalization_jobs.py:580-589 | A run from the empty outbox after which the completion write answers true on a stale job |
| `FinalizationJobLaws.CompleteTrueMeansSuccessUnlessFenced` | backend/database/conversation_finalization_jobs.py:586-589 | A true answer from the completion write means success iff the row was not already fenced |
| `FinalizationProjection.IncrementsAreUnitDifferences` | backend/database/conversation_finalization_jobs.py:535-536 | Helper: the literal increments of each status move equal the difference of what the job contributed and contributes |
| `FinalizationProjection.DeltaKeepsFaithful` | backend/database/conversation_finalization_jobs.py:221-242 | The literal increments written with a creation or a status move keep every counter of every shard equal to the population |
| `FinalizationProjection.SumCountsStampedJobs` | backend/database/conversation_finalization_jobs.py:2060-2072 | Adding shards counts the stamped jobs, each once |
| `FinalizationProjection.FaithfulIsBalanced` | backend/database/conversation_finalization_jobs.py:2047-2058 | Faithful counters of consistent jobs satisfy the dashboard identities |
| `FinalizationStore.OutboxStore.CreateOrGet` | backend/database/conversation_finalization_jobs.py:284-392 | In place: jobs, conversations, shard counters and reply equal the transaction on values, and counters stay exact. Admits or returns the bound job; jobs, conversation and reply as specified, counters exact |
| `FinalizationStore.OutboxStore.Resume` | backend/database/conversation_finalization_jobs.py:435-463 | In place: jobs, conversations, shard counters and reply equal the transaction on values, and counters stay exact. Resumes a blocked BYOK job without arming the platform lane |
| `FinalizationStore.OutboxStore.Claim` | backend/database/conversation_finalization_jobs.py:478-543 | In place: jobs, conversations, shard counters and reply equal the transaction on values, and counters stay exact. Issues the lease under the next epoch or gives the exact refusal |
| `FinalizationStore.OutboxStore.MarkCompleted` | backend/database/conversation_finalization_jobs.py:572-603 | In place: jobs, conversations, shard counters and reply equal the transaction on values, and counters stay exact. Success only for the current lease with recorded fanout |
| `FinalizationStore.OutboxStore.MarkFenced` | backend/database/conversation_finalization_jobs.py:622-649 | In place: jobs, conversations, shard counters and reply equal the transaction on values, and counters stay exact. Stale terminal only before fanout |
| `FinalizationStore.OutboxStore.ClaimFanout` | backend/database/conversation_finalization_jobs.py:709-760 | In place: jobs, conversations, shard counters and reply equal the transaction on values, and counters stay exact. Claims, or fences off an obsolete binding as stale |
| `FinalizationStore.OutboxStore.MarkFanoutCompleted` | backend/database/conversation_finalization_jobs.py:784-807 | In place: jobs, conversations, shard counters and reply equal the transaction on values, and counters stay exact. Records delivery for the lease holder |
| `FinalizationStore.OutboxStore.MarkRetryable` | backend/database/conversation_finalization_jobs.py:829-859 | In place: jobs, conversations, shard counters and reply equal the transaction on values, and counters stay exact. Requeues and re-arms only the platform lane |
| `FinalizationStore.OutboxStore.MarkDeadLetter` | backend/database/conversation_finalization_jobs.py:884-948 | In place: jobs, conversations, shard counters and reply equal the transaction on values, and counters stay exact. Ends the job and closes the still-processing conversation |
| `FinalizationStore.OutboxStore.ClaimReplay` | backend/database/conversation_finalization_jobs.py:1271-1319 | In place: jobs, conversations, shard counters and reply equal the transaction on values, and counters stay exact. Requeues an expired or stale row under the next generation |
| `FinalizationStore.OutboxStore.AbandonByok` | backend/database/conversation_finalization_jobs.py:1861-1971 | In place: jobs, conversations, shard counters and reply equal the transaction on values, and counters stay exact. Ends an idle BYOK job under all fences and reports what became of the conversation |
| `FinalizationAnswers.LiveLeaseExcludesClaims` | backend/database/conversation_finalization_jobs.py:506-511 | A live lease excludes every other worker: after a claim that lasts until x, whatever runs, a later claim before x is granted only if the first holder itself gave the lease back with its own token |
| `FinalizationAnswers.RunKeepsLease` | backend/database/conversation_finalization_jobs.py:506-511 | Until it lapses, a lease its holder does not give back keeps generation, epoch and expiry through every run, or the job ends |
| `FinalizationAnswers.ClaimedExactlyWhen` | backend/database/conversation_finalization_jobs.py:489-534 | A claim is granted iff the row is the expected one, queued or leased under a lapsed lease, at the presented generation, and its key may be served; what it then writes |
| `FinalizationAnswers.ClaimRefusals` | backend/database/conversation_finalization_jobs.py:489-513 | Which of the refusals answers a claim, the first obstacle in order |
| `FinalizationAnswers.CompletedExactlyWhen` | backend/database/conversation_finalization_jobs.py:579-600 | Success is written iff by the current lease of a job with recorded fanout; a repeat is confirmed iff by the same epoch |
| `FinalizationAnswers.FencedExactlyWhen` | backend/database/conversation_finalization_jobs.py:638-649 | The fence ends exactly a current lease with untouched fanout |
| `FinalizationAnswers.FanoutAnswers` | backend/database/conversation_finalization_jobs.py:724-760 | Every answer of a fanout claim with the conditions spelled out on job and conversation, and the stale ending when the conversation is no longer bound |
| `FinalizationAnswers.FanoutRecordedExactlyWhen` | backend/database/conversation_finalization_jobs.py:791-807 | Delivery is recorded iff by the current lease of a job not yet recorded |
| `FinalizationAnswers.RetriedExactlyWhen` | backend/database/conversation_finalization_jobs.py:838-859 | Only the current lease gives the job back; only a platform job is armed |
| `FinalizationAnswers.FinalFailureHidesConversation` | backend/database/conversation_finalization_jobs.py:894-948 | A final failure ends exactly the conversation still waiting for this job as failed and discarded, in the same write |
| `FinalizationAnswers.AbandonedExactlyWhen` | backend/database/conversation_finalization_jobs.py:1896-1918 | An abandonment is written iff the BYOK row is still as scanned, idle since the cutoff and under no live lease |
| `FinalizationAnswers.AbandonmentKeepsRecording` | backend/database/conversation_finalization_jobs.py:1972-1990 | Unlike a failure it ends that conversation completed and not discarded, unless deferred; the reply names the case |
| `FinalizationAnswers.ReplayedExactlyWhen` | backend/database/conversation_finalization_jobs.py:1289-1318 | A replay acts iff on a lapsed lease or a stale queued dispatch |
| `FinalizationAnswers.DueExactlyWhen` | backend/database/conversation_finalization_jobs.py:1337-1347 | Helper: what the due query selects |
| `FinalizationAnswers.ResumedExactlyWhen` | backend/database/conversation_finalization_jobs.py:447-463 | A resume frees exactly a blocked BYOK job |
| `FinalizationAnswers.CreatedExactlyWhen` | backend/database/conversation_finalization_jobs.py:297-392 | When a creation makes a job, returns the bound or the derived one, or refuses, and with which reason |
| `FinalizationAnswers.CreatedJob` | backend/database/conversation_finalization_jobs.py:345-392 | Helper: what a created job starts as |
| `FinalizationAnswers.ReceiptRecordedExactlyWhen` | backend/database/conversation_finalization_jobs.py:976-1082 | A meeting verdict is recorded once, on the named, bound or next job, never on a job of another conversation, and moves no counter |
| `FinalizationAnswers.ReceiptOnlyJob` | backend/database/conversation_finalization_jobs.py:976-1082 | Helper: the ended, uncounted job made only to hold a verdict |
| `RecoverySweep.Sweep` | backend/database/conversation_finalization_jobs.py:1393-1451 | The sweep loop examines the contiguous run right after its cursor, returns exactly its eligible rows in order and resumes after the last one unless it reports the tail |
| `RecoverySweep.SweepFrom` | backend/database/conversation_finalization_jobs.py:1404-1445 | Helper: the loop over pages from a resolved cursor |
| `RecoverySweep.ExaminePage` | backend/database/conversation_finalization_jobs.py:1405-1444 | One page of that loop, with the limit and the scan budget |
| `RecoverySweep.SkipsTailExactlyWhen` | backend/database/conversation_finalization_jobs.py:1405-1451 | A wrap drops unexamined rows iff the limit is hit strictly inside a short last page |
| `RecoverySweep.TailReportedExactlyWhen` | backend/database/conversation_finalization_jobs.py:1405-1451 | A sweep tells its caller to start over iff it ran out of rows, or stopped in a short page at its limit or at the last row; never without a limit and a budget |
| `RecoverySweep.WrapSkipsARow` | backend/database/conversation_finalization_jobs.py:1405-1451 | A five-row collection where that happens |
| `RecoverySweep.SkippedWhileUnchanged` | backend/database/conversation_finalization_jobs.py:1405-1451 | While the collection does not change, that is while the returned rows stay eligible, a tail skipped from the top is examined by no later sweep |
| `RecoverySweep.ReadThenCommitAdvances` | backend/database/conversation_finalization_jobs.py:1483-1505 | After any interleaving, a pod that reads the cursor and commits next advances it by exactly its own sweep |
| `SweepDiscovery.ReturnedExactlyWhenMissedNoMore` | backend/database/conversation_finalization_jobs.py:1380-1386 | Eventual discovery while rows arrive, leave and change eligibility at will (paths bounded): a row that waits until it is returned is returned by some sweep iff from some sweep on none misses it, that is wraps with the row still ahead, or starts over before it because the cursor document is gone |
| `SweepDiscovery.ReturnedUnlessMissed` | backend/database/conversation_finalization_jobs.py:1380-1386 | The half that asks nothing of the row once returned: if from some sweep on none misses it, some sweep returns it, from any cursor, with any limit and scan bound |
| `SweepDiscovery.SteadySweepsReturnEveryRow` | backend/database/conversation_finalization_jobs.py:1383-1385 | In particular if from some sweep on none skips a tail and the cursor documents exist |
| `SweepDiscovery.SmallBacklogIsDiscovered` | backend/database/conversation_finalization_jobs.py:1405-1444 | In particular if from some sweep on fewer rows wait than the limit and the cursor documents exist |
| `SweepDiscovery.SweepApproaches` | backend/database/conversation_finalization_jobs.py:1405-1451 | Helper: a sweep that neither returns nor passes over a waiting row moves its cursor strictly towards it, or wraps once past it |
| `SweepDiscovery.SettledArrivalsStarveARow` | backend/database/conversation_finalization_jobs.py:1380-1386 | The promised discovery is false: a run where all returned rows are gone before the next sweep, every sweep starts at the top and wraps, and a row that stays eligible is returned by none |
| `SweepDiscovery.LostPlacesStarveARow` | backend/database/conversation_finalization_jobs.py:1398-1403 | Starting over when the cursor document is gone is not always a safe re-scan: a run without any wrap in which an eligible row is never reached |
| `SweepDiscovery.FleetFollowsTheSweeps` | backend/database/conversation_finalization_jobs.py:1483-1505 | The sweeps that win their advance in a fleet of pods are such a sequence, so the discovery results hold of it |
| `SweepDiscovery.EveryWaitingRowIsReturned` | backend/services/conversation_finalization.py:217-280 | The case where skips are allowed: if no row arrives and none becomes eligible between sweeps, each returned row leaves or loses eligibility before the next sweep, and cursor documents stay, then every row that stays eligible is returned by some sweep |
| `SweepDiscovery.SweepShrinks` | backend/services/conversation_finalization.py:217-280 | Helper, under the same hypothesis (no row arrives, none becomes eligible): a sweep that does not return a waiting row leaves fewer rows waiting, or begins a lap with nothing eligible behind it, or has less ahead of it |
| `RecoverySweep.LapCoversEveryRowOnce` | backend/database/conversation_finalization_jobs.py:1380-1386 | Chained sweeps examine each row once, in order, and the whole remaining collection iff no sweep skips |
| `RecoverySweep.UnderLimitNeverSkips` | backend/database/conversation_finalization_jobs.py:1380-1386 | In particular when no stretch of rows holds `limit` candidates |
| `RecoverySweep.SweepsMakeALap` | backend/database/conversation_finalization_jobs.py:1460-1480 | Following persisted paths is following positions: finitely many sweeps make exactly one lap and wrap |
| `RecoverySweep.CursorDocument.Advance` | backend/database/conversation_finalization_jobs.py:1483-1505 | Compare-and-swap: one advance wins per generation |
| `RecoverySweep.FleetSweepsLikeOnePod` | backend/database/conversation_finalization_jobs.py:1483-1505 | In any interleaving of reads, failed reads, sweeps and late commits, while the collection and the existing documents change at will, the cursor is where one pod making the winning sweeps in order would leave it: no advance lost, repeated or rewound |
| `CandidateRuns.StartedPromotionIsCrashSafe` | backend/database/candidates.py:1302-1382 | Once a promotion began with task t, after any further operations at any times the candidate is pending or accepted with t; every later begin hands out t and the same kind; no rejection succeeds and no direct resolution is new |
| `CandidateRuns.LanesAreExclusive` | backend/database/candidates.py:873-975 | In every reachable state no candidate has both a queued direct creation and a started legacy mutation; a started claim is active iff its candidate is pending, and consumed iff accepted with its task |
| `CandidateRuns.ResolvedAtMostOnce` | backend/database/candidates.py:849-977 | Over any run at most one call reports a new resolution, none after the candidate is resolved |
| `CandidateRuns.RepeatedResolutionReturnsSameReceipt` | backend/database/candidates.py:873-882 | Repeating an accepted resolution in any later state returns the same task and instant, not new, or a generation error; nothing else resolves it |
| `CandidateRuns.RepeatedRejectionReturnsSameReceipt` | backend/database/candidates.py:1127-1136 | Likewise a rejection or expiry; only that status is ever confirmed |
| `CandidateRuns.OneReadablePerIdentity` | backend/database/candidates.py:439-469 | In every reachable state and at every later instant, the un-lapsed pending candidates of one identity and generation are at most one: the one the pending claim names |
| `CandidateRuns.RepeatedCaptureJoins` | backend/database/candidates.py:562-672 | A repeated capture joins that candidate: none is minted, its identity and deadline stay, annotations are merged |
| `CandidateRuns.KeyMeansOneCandidate` | backend/database/candidates.py:524-560 | An idempotency key that produced a candidate answers with it for ever and refuses every other proposal |
| `CandidateRuns.DeliveredAtMostOnce` | backend/database/candidates.py:1036-1082 | Over any run the integration of one accepted task is reported delivered at most once, never after it settled |
| `CandidateRuns.SupersededDispatchIsInert` | backend/database/candidates.py:1069-1070 | A dispatch token that is not current is refused for ever |
| `CandidateRuns.StepKeepsInv` | backend/database/candidates.py:490-690 | Every transaction keeps alias, slot, pending, claim, outbox and token invariants, and lets candidates only evolve |
| `CandidateRuns.RunKeepsInv` | backend/database/candidates.py:490-690 | So does every run |
| `CandidateRuns.AcceptanceCreatesOneTask` | backend/database/candidates.py:891-975 | Helper (one transaction): a new acceptance of a create writes exactly its own task with the candidate content (unless already written) and queues its dispatch; nothing else changes |
| `CandidateRuns.AcceptancePatchesOneTask` | backend/database/candidates.py:825-846 | Helper (one transaction): a new acceptance of a change rewrites exactly its task: the status of the action with an agreeing completion flag, each field the change sets and no other, all evidence, the generation |
| `CandidateRuns.AnnotatedTaskOnlyGains` | backend/database/candidates.py:640-667 | Joining an accepted candidate keeps the task and loses no confidence, priority or evidence |
| `CandidateRuns.BeginReservesOpenTask` | backend/database/candidates.py:1354-1382 | Helper (one transaction): the first begin reserves the preferred task iff it is open and nothing was committed, otherwise the own task, and leaves the candidate fenced |
| `CandidateModel.MergeEvidenceLoop` | backend/database/candidates.py:300-314 | The merge loop returns the first 20 distinct references of both lists, in order |
| `CandidateModel.MergeIsIdempotent` | backend/database/candidates.py:300-346 | Redelivering a merged capture changes nothing, capped or not |
| `CandidateModel.MergeKeepsUnionIffUnderCap` | backend/database/candidates.py:304-314 | Evidence is lost iff the distinct union exceeds the cap; none is invented |
| `CandidateModel.MergeTakesStrongest` | backend/database/candidates.py:288-352 | Of two confidences or priorities the stronger wins, a missing one never hides a given one, and compatibility data is overwritten field by field |
| `CandidateModel.MergeOrderIrrelevant` | backend/database/candidates.py:58-67 | Helper: confidences and priority do not depend on arrival order and never fall |
| `CandidateStore.Documents.CreateCandidate` | backend/database/candidates.py:490-690 | In place: all documents and the reply equal the transaction on values (alias, coalesce or insert) |
| `CandidateStore.Documents.JoinExisting` | backend/database/candidates.py:607-677 | In place: all documents and the reply equal the transaction on values (the merge writes) |
| `CandidateStore.Documents.ReadSlot` | backend/database/candidates.py:562-606 | In place: all documents and the reply equal the transaction on values (the reuse test) |
| `CandidateStore.Documents.ResolveTaskCandidate` | backend/database/candidates.py:849-977 | In place: all documents and the reply equal the transaction on values (acceptance with exactly one task) |
| `CandidateStore.Documents.CreateTaskOf` | backend/database/candidates.py:891-912 | In place: all documents and the reply equal the transaction on values (acceptance of a create) |
| `CandidateStore.Documents.ChangeTaskOf` | backend/database/candidates.py:913-944 | In place: all documents and the reply equal the transaction on values (acceptance of a change) |
| `CandidateStore.Documents.ResolveWithoutMutation` | backend/database/candidates.py:1102-1157 | In place: all documents and the reply equal the transaction on values (rejection and expiry) |
| `CandidateStore.Documents.ReconcileMigrated` | backend/database/candidates.py:1160-1229 | In place: all documents and the reply equal the transaction on values (import of a legacy outcome) |
| `CandidateStore.Documents.ClaimForPromotion` | backend/database/candidates.py:1232-1299 | In place: all documents and the reply equal the transaction on values (claim, resume and reclaim) |
| `CandidateStore.Documents.BeginPromotion` | backend/database/candidates.py:1302-1382 | In place: all documents and the reply equal the transaction on values (the non-expiring fence) |
| `CandidateStore.Documents.ClaimDispatch` | backend/database/candidates.py:980-1033 | In place: all documents and the reply equal the transaction on values (dispatch lease) |
| `CandidateStore.Documents.CompleteDispatch` | backend/database/candidates.py:1036-1082 | In place: all documents and the reply equal the transaction on values (dispatch completion) |
| `CandidateStore.PatchTask` | backend/database/candidates.py:825-846 | The patch of an accepted change |
| `CandidateAnswers.OpenWorkIsProposedOnce` | backend/database/candidates.py:582-606 | While accepted work stays open and unchanged, whatever else runs, no second proposal for it is minted and every new capture of it joins the accepted candidate |
| `CandidateAnswers.CaptureMintsExactlyWhen` | backend/database/candidates.py:562-690 | A capture of a task under a fresh key mints iff its slot names neither a readable pending candidate nor an accepted one whose task exists, is open for the generation and is the same work; otherwise it answers the named one |
| `CandidateAnswers.JoinedCaptureAnnotates` | backend/database/candidates.py:607-677 | A joined capture only adds annotations to the named candidate, and to its open task if it was accepted |
| `CandidateAnswers.OtherCaptureMints` | backend/database/candidates.py:679-690 | A proposal that is not a task creation always mints under a fresh key |
| `CandidateAnswers.KnownKeyAnswers` | backend/database/candidates.py:524-560 | Blank key, other generation, known alias and known candidate: which answer, and when a conflict |
| `CandidateAnswers.CreateAcceptedExactlyWhen` | backend/database/candidates.py:866-977 | An acceptance of a create newly resolves iff the candidate waits, the legacy lane does not hold it and its task id is free or its own |
| `CandidateAnswers.ChangeAcceptedExactlyWhen` | backend/database/candidates.py:913-944 | An acceptance of a change newly resolves iff it waits and its task, links, status change and relationships are as expected; each refusal in order |
| `CandidateAnswers.OtherAcceptanceAnswers` | backend/database/candidates.py:885-886 | Helper: unknown candidates and workstream proposals |
| `CandidateAnswers.RejectedExactlyWhen` | backend/database/candidates.py:1112-1157 | A rejection or expiry newly resolves iff the candidate waits and the legacy lane does not hold it |
| `CandidateAnswers.ReconciledExactlyWhen` | backend/database/candidates.py:1173-1229 | A legacy outcome is imported iff the lane does not hold the candidate and no token is given, or by the token of the unexpired claim that started this very task |
| `CandidateAnswers.PromotionClaimAnswers` | backend/database/candidates.py:1253-1299 | What a second promotion worker is answered: conflict under a live lease unless it resumes, takeover of a started task under a new token, else a new claim |
| `CandidateAnswers.BegunExactlyWhen` | backend/database/candidates.py:1325-1382 | A promotion is begun iff by the token of the unexpired claim of a waiting candidate |
| `CandidateAnswers.BegunReserves` | backend/database/candidates.py:1352-1368 | Which task a first begin reserves |
| `CandidateAnswers.TakeoverSupersedes` | backend/database/candidates.py:1276-1290 | After a takeover the replaced token can neither begin nor import anything, in any continuation |
| `CandidateAnswers.SupersededPromotionIsInert` | backend/database/candidates.py:1276-1290 | The same from any state in which the token is not the current one |
| `CandidateAnswers.DispatchClaimAnswers` | backend/database/candidates.py:995-1033 | A dispatch is handed out iff its row is open and no delivery is under way within the lease |
| `CandidateAnswers.DispatchCompletionAnswers` | backend/database/candidates.py:1050-1082 | A delivery is recorded iff by the token that holds the row |
| `IntentRuns.DeliveryIsBounded` | backend/database/chat_first_intents.py:709-759 | In every run, every intent (cold starts included) is handed out at most 38 times over its whole life and advanced at most 40 times, plus once per time it is minted over its own dead letter |
| `IntentFinality.BoundsAreAttained` | backend/database/chat_first_delivery_attempts.py:159-208 | A run reaches exactly 40 and 38 |
| `IntentFinality.RemintBoundIsAttained` | backend/database/chat_first_intents.py:506-524 | For every n, a run advances a cold start 40 times and n times more by minting it n times over its dead letter |
| `IntentRuns.BudgetIsTouchedOnce` | backend/database/chat_first_intents.py:452-463 | In every run and for every intent, turn budget is reserved at most once and accounted at most as often |
| `IntentRuns.CreatedIdsAreCareful` | backend/database/chat_first_intents.py:418-452 | Ids that only create_intent mints are never minted over their dead letter, in any run |
| `IntentRuns.ReraisedIdsAreCareful` | backend/database/chat_first_intents.py:1358-1411 | So do re-raised intents, in every run that does not call create_intent with their source: a waiting deferral has no intent yet |
| `IntentRuns.ReleaseRaisesTheQuestion` | backend/database/chat_first_intents.py:1391-1409 | Helper (one transaction): a release records its intent, raises the stored question unless the intent exists, and touches no other intent |
| `IntentRuns.NothingToSalvage` | backend/database/chat_first_intents.py:1157-1164 | From a store without one, no run leaves an active row marked dead, so the branch of the acknowledgement that repairs one serves rows of older revisions only |
| `IntentRuns.ReachableLife` | backend/database/chat_first_intents.py:418-465 | An intent never minted over its dead letter is never active and dead at once; budget is accounted iff delivered; each death is backed by its counters |
| `IntentFinality.AcknowledgementIsFinal` | backend/database/chat_first_intents.py:1137-1183 | If no revivable dead letter of the intent exists, its acknowledgement is final in every continuation: same record, counters and accounting, answered iff the receipt matches |
| `IntentFinality.RedeliveredIff` | backend/database/chat_first_delivery_attempts.py:159-208 | A delivered intent can be opened for delivery again, or changed at all, iff a transient, never requeued dead letter with a repair clock was left behind |
| `IntentFinality.CarefulDeliveryIsFinal` | backend/database/chat_first_intents.py:1150-1156 | An intent never minted over its dead letter leaves none behind, so its delivery is final |
| `IntentFinality.DeadForGoodLasts` | backend/database/chat_first_intents.py:1020-1057 | A death beyond repair never changes again while no creator that ignores dead letters can mint the id |
| `IntentFinality.DeadForGoodIff` | backend/database/chat_first_intents.py:1391-1409 | It can change iff the id is a cold start, or a re-raised question whose deferral was not released yet |
| `IntentRuns.RevivedAtMostOnce` | backend/database/chat_first_delivery_attempts.py:159-208 | In every run, every intent (cold starts included) returns from its dead letter at most once |
| `IntentRuns.CoexistenceComesFromOverwriting` | backend/database/chat_first_intents.py:506-524 | A step makes an intent active and dead iff a cold start or a release mints it over its dead letter |
| `IntentFinality.ColdStartIsRedelivered` | backend/database/chat_first_intents.py:468-526 | A run from the empty store in which a delivered cold-start intent is opened again by repair |
| `IntentRuns.ReleasedAtMostOnce` | backend/database/chat_first_intents.py:1270-1284 | A deferral is released at most once |
| `IntentRuns.StepKeepsLife` | backend/database/chat_first_intents.py:675-767 | Every transaction keeps the life invariant of every intent it does not mint over a dead letter |
| `IntentRuns.StepPays` | backend/database/chat_first_intents.py:675-767 | Every transaction, with no condition on how the intent was minted, pays each advancement and hand-out from potentials that only re-minting can raise, by one fetch |
| `IntentLife.FetchKeepsInv` | backend/database/chat_first_intents.py:709-759 | Helper: an advancing fetch keeps the life invariant |
| `IntentLife.RequeueKeepsInv` | backend/database/chat_first_delivery_attempts.py:159-208 | Helper: so does a requeue |
| `IntentLife.RejectKeepsInv` | backend/database/chat_first_intents.py:1024-1057 | Helper: so does a rejection |
| `IntentLife.DeferKeepsInv` | backend/database/chat_first_intents.py:1089-1115 | Helper: so does a deferral |
| `IntentLife.AcknowledgeKeepsInv` | backend/database/chat_first_intents.py:1165-1181 | Helper: so does an acknowledgement |
| `IntentLife.AcknowledgePays` | backend/database/chat_first_intents.py:1157-1181 | Helper: an acknowledgement, also one that repairs an active row marked dead and so spends its one return, never adds to what was left |
| `IntentLife.FetchPays` | backend/database/chat_first_intents.py:709-759 | Helper: a fetch strictly lowers the fetches left and pays for a hand-out |
| `IntentLife.RequeuePays` | backend/database/chat_first_delivery_attempts.py:159-208 | Helper: a requeue happens once and never adds to what was left |
| `IntentLife.MintPays` | backend/database/chat_first_intents.py:506-524 | Helper: minting never refills the counters |
| `IntentLife.RepairWaitsAfterDeathIff` | backend/database/chat_first_delivery_attempts.py:166-168 | Repair waits six hours after the death iff no rejection is recorded from before it |
| `IntentFinality.RepairedWithoutWaiting` | backend/database/chat_first_delivery_attempts.py:166-168 | A run in which a dead letter is repaired at the very instant of its death |
| `IntentStore.BatchIsARun` | backend/database/chat_first_intents.py:919-956 | A fetch batch is a run of at most one advancement per scanned candidate and nothing else |
| `IntentStore.BatchChargesOnce` | backend/database/chat_first_intents.py:919-956 | It charges no intent twice and never a deferred or foreign one |
| `IntentStore.BatchAnswers` | backend/database/chat_first_intents.py:919-956 | It answers a subsequence of the candidates, in order, of at most `limit` |
| `IntentStore.Scanned` | backend/database/chat_first_intents.py:879-920 | The scan window is a prefix of at most twice the limit |
| `IntentStore.RepairIsBounded` | backend/database/chat_first_delivery_attempts.py:213-264 | One repair pass revives at most `limit` intents, each only when repairable |
| `IntentStore.Documents.CreateIntent` | backend/database/chat_first_intents.py:384-465 | In place: all documents and the reply equal the transaction on values (creation) |
| `IntentStore.Documents.GetOrCreateColdStart` | backend/database/chat_first_intents.py:468-526 | In place: all documents and the reply equal the transaction on values (cold start) |
| `IntentStore.Documents.MoveToDeadLetters` | backend/database/chat_first_delivery_attempts.py:109-132 | In place: all documents and the reply equal the transaction on values (burial) |
| `IntentStore.Documents.AdvanceFetched` | backend/database/chat_first_intents.py:675-767 | In place: all documents and the reply equal the transaction on values (advancing fetch) |
| `IntentStore.Documents.RecordRejection` | backend/database/chat_first_intents.py:992-1059 | In place: all documents and the reply equal the transaction on values (rejection) |
| `IntentStore.Documents.RecordDeferralOf` | backend/database/chat_first_intents.py:1062-1117 | In place: all documents and the reply equal the transaction on values (deferral) |
| `IntentStore.Documents.AcknowledgeMaterialization` | backend/database/chat_first_intents.py:1120-1183 | In place: all documents and the reply equal the transaction on values (acknowledgement, including the repair of an active row marked dead) |
| `IntentStore.Documents.Deliver` | backend/database/chat_first_intents.py:1165-1181 | In place: all documents and the reply equal the transaction on values (the writes of an acknowledgement) |
| `IntentStore.Documents.RequeueTransient` | backend/database/chat_first_delivery_attempts.py:135-208 | In place: all documents and the reply equal the transaction on values (requeue) |
| `IntentStore.Documents.RecordDeferral` | backend/database/chat_first_intents.py:1186-1237 | In place: all documents and the reply equal the transaction on values (deferred question) |
| `IntentStore.Documents.ReleaseDeferral` | backend/database/chat_first_intents.py:1358-1411 | In place: all documents and the reply equal the transaction on values (release) |
| `IntentStore.Documents.FetchReadyBatch` | backend/database/chat_first_intents.py:828-956 | One poll: generation fence, repair pass and fetch loop equal the specified transactions |
| `IntentStore.Documents.AdvanceBatch` | backend/database/chat_first_intents.py:916-956 | The fetch loop equals the batch function |
| `IntentStore.PollIsFencedAndBounded` | backend/database/chat_first_intents.py:840-862 | A poll under another generation changes nothing; any other answers at most `limit` intents and opens an intent only by repair |
| `IntentStore.Documents.RepairTransient` | backend/database/chat_first_delivery_attempts.py:213-264 | The repair loop equals the repair function |
| `IntentPolls.PollDeliversExactlySeen` | backend/database/chat_first_intents.py:919-956 | A poll marks an intent delivered iff it advanced it, it had been fetched at least twice and its chat row exists; without a row an advanced intent is handed out, or buried by its twentieth fetch |
| `IntentPolls.SyntheticReceiptMeansChatRow` | backend/database/chat_first_intents.py:709-733 | In every run of polls and other operations, a receipt made up from the chat row means that some poll saw that row, or a device presented such a receipt itself |
| `IntentPolls.BatchTreats` | backend/database/chat_first_intents.py:919-956 | The loop treats its candidates in order, each once, changes and hands out nothing else, and stops early only with a full batch |
| `IntentPolls.RepairTreats` | backend/database/chat_first_delivery_attempts.py:240-261 | The repair pass brings back every dead letter that is due, in order, counts them, and stops early only at its limit |
| `IntentPolls.PollTreats` | backend/database/chat_first_intents.py:842-956 | What one poll does to any one intent, in its repair and fetch passes |
| `IntentPolls.WindowIsTwiceTheLimit` | backend/database/chat_first_intents.py:879-920 | Helper: the scan window |
| `IntentAnswers.MintedExactlyWhen` | backend/database/chat_first_intents.py:417-465 | A creation stores an intent iff no active document or dead letter has its id and budget suffices; a known id is confirmed iff source and content agree |
| `IntentAnswers.ColdStartedExactlyWhen` | backend/database/chat_first_intents.py:508-526 | A cold start is stored iff none is active under its id |
| `IntentAnswers.DeferralRecordedExactlyWhen` | backend/database/chat_first_intents.py:1215-1237 | A deferred question is stored once and confirmed iff it is the same question |
| `IntentAnswers.ReleasedExactlyWhen` | backend/database/chat_first_intents.py:1386-1411 | A waiting deferral is released as its own question; when that is a conflict |
| `IntentAnswers.AdvancedExactlyWhen` | backend/database/chat_first_intents.py:689-767 | An advancing fetch acts iff the intent waits under this generation; delivered, buried or handed out, and when each |
| `IntentAnswers.RejectedExactlyWhen` | backend/database/chat_first_intents.py:1007-1057 | A rejection counts iff the code is permanent and the intent waits; the third one buries it |
| `IntentAnswers.DeferredExactlyWhen` | backend/database/chat_first_intents.py:1077-1115 | A deferral counts iff the intent waits; after a week of deferrals it buries it |
| `IntentAnswers.AcknowledgedExactlyWhen` | backend/database/chat_first_intents.py:1137-1183 | A receipt delivers iff the intent waits or is an active row dead for a transient reason that never returned; when a repeat is confirmed |
| `IntentAnswers.RequeuedExactlyWhen` | backend/database/chat_first_delivery_attempts.py:148-208 | A dead letter returns iff its reason is transient, it never returned, and six hours passed by its repair clock |
| `ChannelRuns.AdmissionNeedsUnchangedControl` | backend/database/desktop_update_channels.py:408-419 | The control checks of an admission pass with a captured generation iff no reservation, pause, resume or break-glass changed the control since |
| `ChannelRuns.CommittedAdmissionSawNoChange` | backend/database/desktop_update_channels.py:395-445 | An admission that commits saw the control document exactly as captured, and carries the captured tag |
| `ChannelRuns.ReservationsRollForward` | backend/database/desktop_update_channels.py:110-128 | Over any run the reserved candidate is unchanged or has a strictly higher build and no lower version |
| `ChannelRuns.BreakGlassVoidsCaptures` | backend/database/desktop_beta_breakglass.py:146-158 | A committed break-glass disables admission, and no earlier capture is ever admitted again, with any manifest |
| `ChannelRuns.RequestCommitsOnce` | backend/database/desktop_beta_breakglass.py:93-94 | A request id commits at most one break-glass |
| `ChannelRuns.PointersResolve` | backend/database/desktop_update_channels.py:231-310 | In every reachable state both pointers name a stored manifest with the same version and build, Stable never an emergency one, and generations count the real changes |
| `ChannelRuns.StepMovesPointer` | backend/database/desktop_update_channels.py:249-310 | A step leaves a pointer or moves it to another release by one generation; promotion, admission and emergency rollout strictly raise the build; each operation reaches one channel |
| `ChannelRuns.GenerationCountsChanges` | backend/database/desktop_update_channels.py:282-310 | Over any run the generation grows by the number of changes |
| `ChannelRuns.ManifestsAreImmutable` | backend/database/desktop_update_channels.py:204-221 | A stored manifest never changes, and another record under its id is refused everywhere |
| `ChannelRuns.EmergencyOnlyByRollout` | backend/database/desktop_beta_breakglass.py:106-127 | Beta comes to name an emergency manifest iff by a break-glass rollout |
| `ChannelRuns.ControlGenerationCounts` | backend/database/desktop_update_channels.py:93-170 | The control generation counts control changes |
| `ChannelStore.Documents.ReserveBetaCandidate` | backend/database/desktop_update_channels.py:93-128 | In place: every document and the reply equal the transaction on values (reservation), and the invariant is kept |
| `ChannelStore.Documents.SetBetaAdmissionEnabled` | backend/database/desktop_update_channels.py:138-170 | In place: every document and the reply equal the transaction on values (pause and resume), and the invariant is kept |
| `ChannelStore.Documents.CaptureBetaAdmission` | backend/database/desktop_update_channels.py:180-193 | In place: every document and the reply equal the transaction on values (capture) |
| `ChannelStore.Documents.RegisterReleaseManifest` | backend/database/desktop_update_channels.py:204-221 | In place: every document and the reply equal the transaction on values (registration), and the invariant is kept |
| `ChannelStore.Documents.PromoteStable` | backend/database/desktop_update_channels.py:313-392 | In place: every document and the reply equal the transaction on values (promotion and repoint), and the invariant is kept |
| `ChannelStore.Documents.AdmitQualifiedBeta` | backend/database/desktop_update_channels.py:395-445 | In place: every document and the reply equal the transaction on values (admission), and the invariant is kept |
| `ChannelStore.Documents.BreakGlass` | backend/database/desktop_beta_breakglass.py:77-158 | In place: every document and the reply equal the transaction on values (rollback and rollout), and the invariant is kept |
| `ChannelAnswers.OneSwapPerGeneration` | backend/database/desktop_update_channels.py:289-291 | Over any run, of all repoints, promotions and break-glass calls that present the same expected generation of a channel, at most one moves its pointer |
| `ChannelAnswers.LateRepointMovesNothing` | backend/database/desktop_update_channels.py:375-376 | After a repoint moved Stable, whatever runs, a repoint still presenting the old generation moves nothing |
| `ChannelAnswers.StableMovesExactlyWhen` | backend/database/desktop_update_channels.py:249-348 | Stable moves iff the release is stored, macOS, normally qualified and another one, every given expectation about the current pointer is met (a repoint gives both), and a promotion raises the build |
| `ChannelAnswers.PromotionRefusals` | backend/database/desktop_update_channels.py:268-299 | Which refusal answers a promotion, the first failed expectation in order |
| `ChannelAnswers.AdmittedExactlyWhen` | backend/database/desktop_update_channels.py:405-445 | Beta is admitted iff control is enabled at the captured generation with this reservation, the manifest collides with no other and is normally qualified, and the build rises or Beta is there already |
| `ChannelAnswers.AdmissionRefusals` | backend/database/desktop_update_channels.py:408-429 | Which refusal answers an admission, in order |
| `ChannelAnswers.BreakGlassExactlyWhen` | backend/database/desktop_beta_breakglass.py:89-158 | Break-glass commits iff the request is unused, names the current Beta release and generation, and its target is a normal manifest (rollback) or a higher, uncolliding emergency one (rollout); all it writes |
| `ChannelAnswers.BreakGlassRefusals` | backend/database/desktop_beta_breakglass.py:93-125 | Which refusal answers a break-glass request, in order |
| `ChannelAnswers.ReservedExactlyWhen` | backend/database/desktop_update_channels.py:95-128 | A reservation is taken iff the tag is well formed and is the reserved one or rolls forward |
| `ChannelAnswers.EnabledExactlyWhen` | backend/database/desktop_update_channels.py:138-170 | When pausing and resuming change the control document |
| `ChannelAnswers.CapturedExactlyWhen` | backend/database/desktop_update_channels.py:180-193 | A capture succeeds iff admission is enabled for this reservation |
| `ChannelAnswers.RegisteredExactlyWhen` | backend/database/desktop_update_channels.py:204-221 | A manifest is registered iff its id is free, and confirmed iff identical |
| `LruRuns.ReachableInv` | backend/database/cache_manager.py:143-209 | After any calls the stored size is the sum of the entries, within the limit unless one oversized entry is alone |
| `LruRuns.GetReturnsLastSet` | backend/database/cache_manager.py:68-94 | A get answers nothing or the last value set for the key, unexpired and not removed since |
| `LruRuns.HitsExactlyWhenAlive` | backend/database/cache_manager.py:68-94 | Without eviction of the key, a get hits iff the last set is unexpired |
| `LruRuns.SlotsAreOrderedByUse` | backend/database/cache_manager.py:91-94 | The dictionary order is the order of last set or hit |
| `LruRuns.EvictionIsLeastRecentlyUsed` | backend/database/cache_manager.py:198-209 | Every key a set pushes out was used before every key it keeps |
| `LruRuns.StatisticsAreExact` | backend/database/cache_manager.py:65-94 | Hits and misses split the lookups since the last clear, and evictions count every entry pushed out since |
| `LruCache.SurplusIsShortest` | backend/database/cache_manager.py:198-209 | The evicted prefix is the shortest that makes room |
| `LruCache.GetKeepsInv` | backend/database/cache_manager.py:68-94 | What a get finds, and that it changes no other key |
| `LruCache.SetKeepsInv` | backend/database/cache_manager.py:143-166 | What is stored after a set, for every key |
| `LruCache.DeleteKeepsInv` | backend/database/cache_manager.py:187-196 | A delete removes its key alone |
| `LruRuns.InMemoryCache.Get` | backend/database/cache_manager.py:68-94 | In place: state, counters and answer equal the specification |
| `LruRuns.InMemoryCache.Set` | backend/database/cache_manager.py:143-166 | In place; ends within the limit or with only the new entry |
| `LruRuns.InMemoryCache.EvictIfNeeded` | backend/database/cache_manager.py:198-209 | The eviction loop drops exactly the shortest sufficient prefix |
| `LruRuns.InMemoryCache.Delete` | backend/database/cache_manager.py:168-176 | In place |
| `LruRuns.InMemoryCache.Clear` | backend/database/cache_manager.py:178-185 | In place |
| `Singleflight.FetchIsExclusive` | backend/database/cache_manager.py:111-141 | In every interleaving no two threads are inside fetch_fn for one key, even across deletion and recreation of the lock |
| `Singleflight.TablesAreExact` | backend/database/cache_manager.py:111-141 | Both tables have the same keys, the refcount is the number of threads inside, no entry leaks, and each such thread holds the lock object of the table |
| `Singleflight.LeaveIsAlwaysEnabled` | backend/database/cache_manager.py:135-141 | The decrement always finds its key |
| `Singleflight.NoDeadlock` | backend/database/cache_manager.py:111-141 | Calls whose fetch_fn does not call back: in every reachable state with a thread inside a key, some thread inside that key can take its next step, even across deletion and recreation of the lock (NestedFlight treats calls that nest) |
| `Singleflight.EveryKeyDrains` | backend/database/cache_manager.py:124-141 | Likewise from every such state all threads inside can leave by their own steps alone, after which both tables have forgotten the key |
| `NestedFlight.DrainsExactlyWhenDeadlockFree` | backend/database/cache_manager.py:124-141 | With fetch functions that call get_or_fetch again (directly or through threads they wait for), in every reachable state all calls can still return iff no non-empty set of calls waits only for itself |
| `NestedFlight.RankedNestingDrains` | backend/database/cache_manager.py:124-141 | If every nested call asks for a key of higher rank than the one being fetched, under any ranking, no reachable state deadlocks and all calls can return |
| `NestedFlight.DeadlockLasts` | backend/database/cache_manager.py:124-141 | A set of calls that waits only for itself is frozen in every continuation |
| `NestedFlight.SameKeyNestingNeverReturns` | backend/database/cache_manager.py:124-131 | A fetch_fn that asks for the key it is fetching never returns, in any continuation |
| `NestedFlight.NestedRunsAreFlat` | backend/database/cache_manager.py:111-141 | Every run with nesting is a run of the flat protocol, so exclusion, exact tables and the bound on fetches hold of it |
| `NestedFlight.MovingOnStaysFree` | backend/database/cache_manager.py:124-141 | Helper: a call that moves on deadlocks nobody |
| `Singleflight.NoThunderingHerd` | backend/database/cache_manager.py:96-105 | Over any run fetch_fn starts at most once more than the value was lost or not obtained |
| `Singleflight.CachedExactlyWhen` | backend/database/cache_manager.py:126-134 | A value is cached exactly from the fetch or store that brought it until it is lost; a fetch that returns none caches nothing |
| `NestedFlight.SameKeyNestingDeadlocks` | backend/database/cache_manager.py:124-131 | Helper: such a call and its caller wait for one another |
| `Singleflight.StepKeepsInv` | backend/database/cache_manager.py:111-141 | Every thread step keeps the invariant |
| `ChatRevisions.RevisionsConverge` | backend/database/chat.py:1128-1187 | If the payload is a function of the revision, any order and repetition of saves ends with the text, metadata, digest and revision of the greatest one, counted once |
| `ChatRevisions.BlocksConverge` | backend/database/chat.py:1174-1183 | The blocks are order-independent if the greatest revision carries blocks or none does |
| `ChatRevisions.BlocksDivergeUnlessSettled` | backend/database/chat.py:1174-1183 | Otherwise two orders of the same saves leave different blocks |
| `ChatRevisions.SaveKeepsGreater` | backend/database/chat.py:1128-1187 | One save keeps the greater revision; what it replaces and what it reports |
| `ChatAnswers.ConflictExactlyWhen` | backend/database/chat.py:1142-1187 | After any saves under one id, the next is refused iff it claims another identity or session, or must repeat the last accepted save (no revision, or the stored one) and differs from it in author or payload; a refusal changes nothing |
| `ChatAnswers.RetryConfirmedIffRepeat` | backend/database/chat.py:1142-1160 | A save without a revision under a known id is confirmed iff it repeats the last accepted one |
| `ChatAnswers.SaveAnswers` | backend/database/chat.py:1019-1187 | One save on any stored message: created, confirmed, updated or refused, and exactly when |
| `ChatRevisions.ChatJournal.SaveMessage` | backend/database/chat.py:989-1109 | In place: the document and reply as specified, other messages untouched, only creation counts in a live session |
| `ChatRevisions.ChatJournal.ApplyExistingRevision` | backend/database/chat.py:1112-1187 | In place: the arbitration transaction |
| `ChatPaging.ReconcilePage` | backend/database/chat.py:355-439 | The page method with its nested scan equals the page specification |
| `ChatPaging.PageBehind` | backend/database/chat.py:397-439 | Helper: the page behind a resolved cursor, and the cursor it hands out |
| `ChatPaging.ScanPage` | backend/database/chat.py:397-434 | Batches of 100 within the budget scan exactly the specified rows; has_more iff the page is full or the budget spent |
| `ChatPaging.PagingIsComplete` | backend/database/chat.py:363-370 | A client that asks again with each returned cursor is never refused and collects every unreported message once and in order, whatever newer messages arrive between pages |
| `ChatPaging.FollowCollectsAll` | backend/database/chat.py:384-434 | The same from any cursor of the scope |
| `ChatPaging.RefusedOnlyAtTheStart` | backend/database/chat.py:371-395 | A client is refused iff its limit or its first cursor is invalid, never later |
| `ChatPaging.ShortPageSpentBudget` | backend/database/chat.py:397-434 | A page that promises more without being full inspected its whole budget: 100 rows, or four per message asked for |
| `ChatPaging.MoreMeansProgress` | backend/database/chat.py:407-439 | has_more implies rows were inspected and a cursor was returned; otherwise the scope is exhausted |
| `ChatPaging.CursorSurvivesArrivals` | backend/database/chat.py:384-399 | The cursor still points right behind the last inspected row after newer rows arrive |
| `ChatPaging.WindowStartsOnEpochs` | backend/database/chat.py:294-309 | The history window holds 10 to 17 messages and its start moves only when an epoch of eight is full |
| `ChatPaging.HistoryIsFullIff` | backend/database/chat.py:312-351 | The window is the newest visible messages iff the raw page has no more reported rows than its slack |
| `ChatPaging.FewReportsMeanFullHistory` | backend/database/chat.py:342-345 | Always so with at most 50 reported rows |
| `ChatPaging.ManyReportsHideHistory` | backend/database/chat.py:318-322 | Sixty reported rows hide an older visible message |

## Left out

- Firestore, Redis and Cloud Tasks mechanics, contention retries, encryption, hashing and schema validation: each transaction is atomic and records are well formed.
- Meeting receipts in the class: receipt recording is modelled on values (`FinalizationOutbox.RecordReceipt`) and in every run theorem, but has no in-place method; the receipt delivery and backfill lanes are not modelled.
- The deferred-enrichment lane, processing-lease renewal, orphan completion and the oldest-age gauge of the finalization file; the `force_process` and extra conversation fields of an intent; purely informational timestamps of a job.
- Jobs without a projection stamp from before the counters existed, and documents written by older revisions or malformed ones, including the malformed-attempt reset.
- The stale window of the finalization reconciler is constant within a run; `FinalizationJobLaws.ReplayWindowCondition` says what a change does to one job.
- The bodies of `reserve_budget` and `account_materialization`: only the number of calls per intent is kept, and whether budget is available is an input.
- IntentStore.Documents.FetchReadyBatch: the candidate query and its priority sort are not modelled; the ordered list of ids is an input, because the query is the document store's.
- IntentStore.Documents.RepairTransient: likewise the repair query; its ordered list of ids is an input.
- The agent-judgment admission, the cold-start sequence terminal receipt and stall reporting of the intents file.
- The relationship check of an accepted task, its `superseded_by` link and informational timestamps; compatibility scores and listing of candidates.
- The regular expressions of release tags and incident links: a tag is given with its version and build; manifest validation is not part of this model.
- Floating-point clocks and `sys.getsizeof`: cache times are integers and sizes are inputs; a stored `None` is not distinguished from other data by the cache.
- The singleflight protocol is modelled on values, as steps of many threads or nested calls; its class would need threads.
- Singleflight.NoDeadlock: per-key progress is stated for calls that do not nest; with nesting it fails for some keys, and `NestedFlight.DrainsExactlyWhenDeadlockFree` says when.
- Legacy chat rows without a payload digest, message deletion between read and arbitration, and conversations and files attached to messages.
- Plain storage modules, routing, audio, and device code of the repository: no cross-function invariants to state here.
