/**
  One conversation-finalization job and the transitions a transaction may make on it
  (backend/database/conversation_finalization_jobs.py). Each function below is the part of a
  transaction that decides over a single job document: it returns the job unchanged when the
  transaction refuses.
*/
module FinalizationJob {
  import opened Wrappers

  const SHARD_COUNT: nat := 16

  datatype JobStatus = Queued | Leased | BlockedByok | Completed | DeadLetter
  datatype FanoutStatus = FanoutPending | FanoutLeased | FanoutCompleted | FanoutFenced
  datatype TerminalOutcome = Success | Stale | Failure
  datatype Verdict = Fenced | ByokAbandoned | ReceiptOnly

  /** `Derived` is the injective id of one (uid, conversation, revision); `Given` is any other id a caller may name. */
  datatype JobId = Derived(uid: string, conversation: string, revision: nat) | Given(name: string)

  datatype Job = Job(
    // fixed at creation
    uid: string,
    conversation: string,
    revision: nat,
    requiresByok: bool,
    fanoutKey: string,
    shard: Option<nat>,          // projection stamp; None means "never counted"
    createdAt: Time,
    // moved by the transactions
    status: JobStatus,
    fanout: FanoutStatus,
    fanoutEpoch: nat,
    generation: nat,
    epoch: nat,
    attempts: nat,
    dispatchedAt: Option<Time>,
    leaseExpiresAt: Option<Time>,
    reconcileAfter: Option<Time>,
    updatedAt: Time,
    outcome: Option<TerminalOutcome>,
    verdict: Option<Verdict>,
    failure: Option<string>,
    retries: int,
    receipt: Option<bool>)

  datatype ConversationStatus = InProgress | Processing | ConversationCompleted | ConversationFailed | Merging

  datatype Conversation = Conversation(
    status: ConversationStatus,
    discarded: bool,
    deferred: bool,
    jobId: Option<JobId>,
    revision: nat,
    finalizationStatus: Option<JobStatus>)

  predicate Terminal(status: JobStatus) {
    status == Completed || status == DeadLetter
  }

  /** The ownership fence every worker write must present. */
  predicate IsCurrentLease(j: Job, generation: int, epoch: int) {
    j.status == Leased && j.generation == generation && j.epoch == epoch
  }

  predicate LiveLease(j: Job, now: Time) {
    j.leaseExpiresAt.Some? && j.leaseExpiresAt.value > now
  }

  // ----- creation -----

  function NewJob(uid: string, conversation: string, revision: nat, requiresByok: bool, fanoutKey: string,
                  shard: nat, staleAfter: nat, now: Time): Job
  {
    Job(uid, conversation, revision, requiresByok, fanoutKey, Some(shard), now,
        if requiresByok then BlockedByok else Queued, FanoutPending, 0, 1, 0, 0,
        Some(now), None, if requiresByok then None else Some(now + staleAfter), now,
        None, None, None, 0, None)
  }

  /** A meeting receipt for a conversation that never had a job: already terminal and never counted. */
  function ReceiptJob(uid: string, conversation: string, revision: nat, eligible: bool, now: Time): Job {
    Job(uid, conversation, revision, false, "conversation:" + conversation + ":finalization", None, now,
        Completed, FanoutCompleted, 0, 1, 0, 1,
        None, None, None, now,
        Some(Success), Some(ReceiptOnly), None, 0, Some(eligible))
  }

  // ----- BYOK resume -----

  function Resume(j: Job, now: Time): Job {
    if j.status == BlockedByok && j.requiresByok then
      j.(status := Queued, updatedAt := now, reconcileAfter := None)
    else j
  }

  // ----- worker lease -----

  datatype ClaimRequest = ClaimRequest(
    generation: int, allowByok: bool, leaseSeconds: int,
    expectedUid: Option<string>, expectedConversation: Option<string>)

  datatype ClaimReply =
    | Claimed(epoch: nat, attempts: nat, createdAt: Time)
    | NoJob | IdentityMismatch | AlreadyFenced | AlreadyTerminal(status: JobStatus)
    | NeedsByok | StaleGeneration | LeaseHeld

  function ClaimVerdict(j: Job, q: ClaimRequest, now: Time): ClaimReply {
    if q.expectedUid.Some? && j.uid != q.expectedUid.value then IdentityMismatch
    else if q.expectedConversation.Some? && j.conversation != q.expectedConversation.value then IdentityMismatch
    else if j.status == Completed && j.verdict == Some(Fenced) then AlreadyFenced
    else if Terminal(j.status) then AlreadyTerminal(j.status)
    else if j.requiresByok && !q.allowByok then NeedsByok
    else if j.status == BlockedByok then NeedsByok
    else if j.generation != q.generation then StaleGeneration
    else if j.status == Leased && LiveLease(j, now) then LeaseHeld
    else Claimed(j.epoch + 1, j.attempts + 1, j.createdAt)
  }

  function Claim(j: Job, q: ClaimRequest, now: Time): Job {
    if ClaimVerdict(j, q, now).Claimed? then
      var expiry := now + q.leaseSeconds;
      j.(status := Leased, leaseExpiresAt := Some(expiry), epoch := j.epoch + 1,
         reconcileAfter := if j.requiresByok then None else Some(expiry),
         updatedAt := now, attempts := j.attempts + 1)
    else j
  }

  // ----- terminal writes of the lease holder -----

  function FencedJob(j: Job, now: Time): Job {
    j.(status := Completed, updatedAt := now, leaseExpiresAt := Some(now), reconcileAfter := None,
       failure := None, verdict := Some(Fenced), outcome := Some(Stale), fanout := FanoutFenced)
  }

  function Complete(j: Job, generation: int, epoch: int, now: Time): (Job, bool) {
    if j.status == Completed then (j, j.epoch == epoch)
    else if !IsCurrentLease(j, generation, epoch) || j.fanout != FanoutCompleted then (j, false)
    else
      (j.(status := Completed, outcome := Some(Success), updatedAt := now, leaseExpiresAt := Some(now),
          reconcileAfter := None, failure := None), true)
  }

  function Fence(j: Job, generation: int, epoch: int, now: Time): (Job, bool) {
    if j.status == Completed then (j, j.verdict == Some(Fenced) && j.epoch == epoch)
    else if !IsCurrentLease(j, generation, epoch) || j.fanout != FanoutPending then (j, false)
    else (FencedJob(j, now), true)
  }

  function Retry(j: Job, generation: int, epoch: int, code: string, staleAfter: nat, now: Time): (Job, bool) {
    if !IsCurrentLease(j, generation, epoch) then (j, false)
    else
      (j.(status := Queued, updatedAt := now, leaseExpiresAt := Some(now),
          reconcileAfter := if j.requiresByok then None else Some(now + staleAfter),
          failure := Some(code)), true)
  }

  function Bury(j: Job, generation: int, epoch: int, retries: int, now: Time): (Job, bool) {
    if !IsCurrentLease(j, generation, epoch) then (j, false)
    else
      (j.(status := DeadLetter, updatedAt := now, outcome := Some(Failure), leaseExpiresAt := Some(now),
          reconcileAfter := None, retries := retries, failure := Some("final_attempt_failed")), true)
  }

  // ----- external fanout -----

  datatype FanoutReply =
    | FanoutNoJob
    | FanoutClaimed(key: string)
    | FanoutAlreadyDone(key: string)
    | FanoutLeaseConflict(key: string)
    | FanoutFencedOff(key: string)

  /** The immutable binding still names a completed, undiscarded conversation at this revision. */
  predicate AdmitsFanout(conversation: Option<Conversation>, j: Job, id: JobId) {
    && j.uid != "" && j.conversation != ""
    && conversation.Some?
    && !conversation.value.discarded
    && conversation.value.status == ConversationCompleted
    && conversation.value.jobId == Some(id)
    && conversation.value.revision == j.revision
  }

  function ClaimFanout(j: Job, id: JobId, conversation: Option<Conversation>, generation: int, epoch: int, now: Time)
    : (Job, FanoutReply)
  {
    if j.fanout == FanoutCompleted then (j, FanoutAlreadyDone(j.fanoutKey))
    else if !IsCurrentLease(j, generation, epoch) then (j, FanoutLeaseConflict(j.fanoutKey))
    else if !AdmitsFanout(conversation, j, id) then (FencedJob(j, now), FanoutFencedOff(j.fanoutKey))
    else (j.(fanout := FanoutLeased, fanoutEpoch := j.epoch, updatedAt := now), FanoutClaimed(j.fanoutKey))
  }

  function CompleteFanout(j: Job, generation: int, epoch: int, now: Time): (Job, bool) {
    if j.fanout == FanoutCompleted then (j, j.fanoutEpoch == epoch)
    else if !IsCurrentLease(j, generation, epoch) then (j, false)
    else (j.(fanout := FanoutCompleted, updatedAt := now), true)
  }

  // ----- recovery lanes -----

  /** The replay transaction acts exactly on an expired lease or on a stale queued dispatch. */
  predicate Replayable(j: Job, staleAfter: nat, now: Time) {
    || (j.status == Leased && !LiveLease(j, now))
    || (j.status == Queued && !(j.dispatchedAt.Some? && j.dispatchedAt.value > now - staleAfter))
  }

  function Replay(j: Job, staleAfter: nat, now: Time): Job {
    if Replayable(j, staleAfter, now) then
      j.(status := Queued, generation := j.generation + 1, dispatchedAt := Some(now), updatedAt := now,
         leaseExpiresAt := Some(now), reconcileAfter := Some(now + staleAfter))
    else j
  }

  /** What the due query of the reconciler selects. */
  predicate Due(j: Job, now: Time) {
    j.reconcileAfter.Some? && j.reconcileAfter.value <= now && j.status in {Queued, Leased}
  }

  datatype AbandonRequest = AbandonRequest(status: JobStatus, generation: int, epoch: int, cutoff: Time)

  predicate Abandonable(j: Job, q: AbandonRequest, now: Time) {
    && j.requiresByok
    && j.status in {Queued, Leased}
    && j.status == q.status
    && j.generation == q.generation
    && j.epoch == q.epoch
    && !(j.status == Leased && LiveLease(j, now))
    && j.updatedAt <= q.cutoff
  }

  function Abandon(j: Job, q: AbandonRequest, now: Time): Job {
    if Abandonable(j, q, now) then
      j.(status := DeadLetter, updatedAt := now, outcome := Some(Failure), verdict := Some(ByokAbandoned),
         leaseExpiresAt := Some(now), reconcileAfter := None, fanout := FanoutFenced,
         failure := Some("byok_session_abandoned"))
    else j
  }

  function WithReceipt(j: Job, eligible: bool): Job {
    if j.receipt.Some? then j else j.(receipt := Some(eligible))
  }
}
