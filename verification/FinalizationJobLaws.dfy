/** What one transition may do to a job, and what holds of a job at every instant. */
module FinalizationJobLaws {
  import opened Wrappers
  import opened FinalizationJob
  import opened FinalizationProjection

  /**
    `b` is a possible later value of job `a`. Identity, lane, fanout key and projection stamp never
    change; generation and epoch never fall; terminal rows are frozen; and a lease that is current in
    `b` under an unchanged epoch was already current in `a`, so a lost lease never comes back.
  */
  ghost predicate Evolves(a: Job, b: Job) {
    && b.uid == a.uid && b.conversation == a.conversation && b.revision == a.revision
    && b.requiresByok == a.requiresByok && b.fanoutKey == a.fanoutKey && b.shard == a.shard
    && b.createdAt == a.createdAt
    && a.generation <= b.generation && a.epoch <= b.epoch
    && (a.receipt.Some? ==> b.receipt == a.receipt)
    && (Terminal(a.status) ==> b == a.(receipt := b.receipt))
    && (a.fanout == FanoutCompleted ==> b.fanout == FanoutCompleted || b.status == DeadLetter)
    && (b.epoch == a.epoch && b.status == Leased ==> a.status == Leased && b.generation == a.generation)
  }

  lemma EvolvesTransitive(a: Job, b: Job, c: Job)
    requires Evolves(a, b) && Evolves(b, c)
    ensures Evolves(a, c)
  {
  }

  /** Invariant of a stored job at instant `clock`, for a reconciler window of `staleAfter` seconds. */
  ghost predicate JobInv(j: Job, staleAfter: nat, clock: Time) {
    && j.generation >= 1
    && j.updatedAt <= clock
    && (j.shard.Some? ==> j.shard.value < SHARD_COUNT)
    && (j.status == BlockedByok ==> j.requiresByok)
    && RecoveryInv(j, staleAfter, clock)
    && OutcomeInv(j)
  }

  /** A job is visible to the credential-free reconciler exactly when that reconciler can act on it. */
  ghost predicate RecoveryInv(j: Job, staleAfter: nat, clock: Time) {
    && (j.reconcileAfter.Some? <==> j.status in {Queued, Leased} && !j.requiresByok)
    && (j.status == Leased ==> j.leaseExpiresAt.Some? && j.epoch >= 1)
    && (j.status == Leased && !j.requiresByok ==> j.reconcileAfter == j.leaseExpiresAt)
    && (j.dispatchedAt.Some? ==> j.dispatchedAt.value <= clock)
    && (!Terminal(j.status) ==> j.dispatchedAt.Some?)
    && (j.status == Queued && !j.requiresByok ==>
          j.dispatchedAt.value + staleAfter <= j.reconcileAfter.value)
  }

  /** Terminal outcome, status, verdict and fanout agree. */
  ghost predicate OutcomeInv(j: Job) {
    && (j.outcome.Some? <==> Terminal(j.status))
    && (j.status == DeadLetter <==> j.outcome == Some(Failure))
    && (j.outcome == Some(Success) ==> j.fanout == FanoutCompleted)
    && (j.outcome == Some(Stale) <==> j.verdict == Some(Fenced))
    && (j.outcome == Some(Stale) ==> j.fanout == FanoutFenced)
    && j.fanoutEpoch <= j.epoch
  }

  /** The invariant only speaks of instants up to now, so it survives the passage of time. */
  lemma JobInvLater(j: Job, staleAfter: nat, clock: Time, later: Time)
    requires JobInv(j, staleAfter, clock) && clock <= later
    ensures JobInv(j, staleAfter, later)
  {
  }

  // ----- one lemma per transition: the invariant is kept and the job only evolves -----

  ghost predicate GoodStep(a: Job, b: Job, staleAfter: nat, now: Time) {
    JobInv(b, staleAfter, now) && Evolves(a, b) && Moves(a.status, b.status)
  }

  lemma CompletionStepsGood(j: Job, generation: int, epoch: int, staleAfter: nat, now: Time)
    requires JobInv(j, staleAfter, now)
    ensures GoodStep(j, Complete(j, generation, epoch, now).0, staleAfter, now)
    ensures GoodStep(j, Fence(j, generation, epoch, now).0, staleAfter, now)
  {
  }

  lemma FailureStepsGood(j: Job, generation: int, epoch: int, code: string, retries: int, staleAfter: nat, now: Time)
    requires JobInv(j, staleAfter, now)
    ensures GoodStep(j, Retry(j, generation, epoch, code, staleAfter, now).0, staleAfter, now)
    ensures GoodStep(j, Bury(j, generation, epoch, retries, now).0, staleAfter, now)
  {
  }

  lemma FanoutStepsGood(j: Job, id: JobId, conversation: Option<Conversation>, generation: int, epoch: int,
                        staleAfter: nat, now: Time)
    requires JobInv(j, staleAfter, now)
    ensures GoodStep(j, ClaimFanout(j, id, conversation, generation, epoch, now).0, staleAfter, now)
    ensures GoodStep(j, CompleteFanout(j, generation, epoch, now).0, staleAfter, now)
  {
  }

  lemma ClaimGood(j: Job, q: ClaimRequest, staleAfter: nat, now: Time)
    requires JobInv(j, staleAfter, now)
    ensures GoodStep(j, Claim(j, q, now), staleAfter, now)
  {
  }

  lemma RecoveryStepsGood(j: Job, q: AbandonRequest, eligible: bool, staleAfter: nat, now: Time)
    requires JobInv(j, staleAfter, now)
    ensures GoodStep(j, Resume(j, now), staleAfter, now)
    ensures GoodStep(j, Abandon(j, q, now), staleAfter, now)
    ensures GoodStep(j, WithReceipt(j, eligible), staleAfter, now)
  {
  }

  lemma ReplayGood(j: Job, staleAfter: nat, now: Time)
    requires JobInv(j, staleAfter, now) && !j.requiresByok
    ensures GoodStep(j, Replay(j, staleAfter, now), staleAfter, now)
  {
  }

  // ----- fencing of a worker's (generation, epoch) token -----

  /** The token is not the current lease and, by `SupersededForever`, never will be again. */
  ghost predicate Superseded(j: Job, generation: int, epoch: int) {
    || j.epoch > epoch
    || (j.epoch == epoch && !IsCurrentLease(j, generation, epoch))
  }

  lemma SupersededForever(a: Job, b: Job, generation: int, epoch: int)
    requires Evolves(a, b) && Superseded(a, generation, epoch)
    ensures Superseded(b, generation, epoch)
  {
  }

  /** A superseded token leaves the job exactly as it is, whichever write presents it. */
  lemma SupersededIsInert(j: Job, id: JobId, conversation: Option<Conversation>, generation: int, epoch: int,
                          code: string, retries: int, staleAfter: nat, now: Time)
    requires Superseded(j, generation, epoch)
    ensures Complete(j, generation, epoch, now).0 == j
    ensures Fence(j, generation, epoch, now).0 == j
    ensures Retry(j, generation, epoch, code, staleAfter, now) == (j, false)
    ensures Bury(j, generation, epoch, retries, now) == (j, false)
    ensures ClaimFanout(j, id, conversation, generation, epoch, now).0 == j
    ensures !ClaimFanout(j, id, conversation, generation, epoch, now).1.FanoutClaimed?
    ensures CompleteFanout(j, generation, epoch, now).0 == j
  {
  }

  /**
    Every committed claim, retry and replay supersedes every token issued so far, and so does every
    committed terminal write: a token is issued with the epoch current at its claim.
  */
  lemma CommitSupersedes(j: Job, q: ClaimRequest, generation: int, epoch: int, code: string,
                         staleAfter: nat, now: Time, g: int, e: int)
    requires e <= j.epoch
    ensures Claim(j, q, now) != j ==> Superseded(Claim(j, q, now), g, e)
    ensures Retry(j, generation, epoch, code, staleAfter, now).1 ==>
              Superseded(Retry(j, generation, epoch, code, staleAfter, now).0, g, e)
    ensures Replay(j, staleAfter, now) != j ==> Superseded(Replay(j, staleAfter, now), g, e)
    ensures Terminal(j.status) ==> Superseded(j, g, e)
  {
  }

  // ----- no stranding -----

  /**
    The reconciler's promise: a job its due query selects is really requeued, under a fresh dispatch
    generation that fences the old one, and is not immediately due again.
  */
  lemma DueIsRequeued(j: Job, staleAfter: nat, now: Time, g: int, e: int)
    requires JobInv(j, staleAfter, now) && Due(j, now) && e <= j.epoch
    ensures Replayable(j, staleAfter, now)
    ensures var r := Replay(j, staleAfter, now);
            && r.status == Queued && r.generation == j.generation + 1
            && r.dispatchedAt == Some(now) && r.reconcileAfter == Some(now + staleAfter)
            && Superseded(r, g, e)
  {
  }

  /** Every open job is in exactly one recovery lane, and that lane can act on it once enough time passed. */
  lemma LanesPartitionOpenJobs(j: Job, staleAfter: nat, clock: Time, later: Time)
    requires JobInv(j, staleAfter, clock)
    requires j.status in {Queued, Leased}
    requires clock <= later
    requires j.leaseExpiresAt.Some? ==> j.leaseExpiresAt.value <= later
    requires j.reconcileAfter.Some? ==> j.reconcileAfter.value <= later
    ensures Due(j, later) <==> !j.requiresByok
    ensures Abandonable(j, AbandonRequest(j.status, j.generation, j.epoch, later), later) <==> j.requiresByok
  {
  }

  /**
    The reconcile window must not grow between arming and replay: with a longer window the due row is
    refused. Stated on the guard itself, for a queued due job.
  */
  lemma ReplayWindowCondition(j: Job, armed: nat, staleAfter: nat, now: Time)
    requires JobInv(j, armed, now) && Due(j, now) && j.status == Queued
    ensures Replayable(j, staleAfter, now) <==> j.dispatchedAt.value + staleAfter <= now
    ensures staleAfter <= armed ==> Replayable(j, staleAfter, now)
  {
  }

  /** The replay transaction itself does not look at BYOK: called on such a row it re-arms the platform lane. */
  lemma ReplayBreaksByokLane(j: Job, staleAfter: nat, now: Time)
    requires JobInv(j, staleAfter, now) && j.requiresByok
    ensures JobInv(Replay(j, staleAfter, now), staleAfter, now) <==> !Replayable(j, staleAfter, now)
  {
  }

  // ----- fanout -----

  /** Nothing is left to deliver: fanout was recorded completed, or the job is terminal. */
  ghost predicate FanoutSettled(j: Job) {
    j.fanout == FanoutCompleted || Terminal(j.status)
  }

  lemma FanoutSettledForever(a: Job, b: Job)
    requires Evolves(a, b) && FanoutSettled(a)
    ensures FanoutSettled(b)
  {
  }

  /** A fanout claim succeeds exactly for the current lease of an unsettled job whose conversation still admits it. */
  lemma FanoutClaimedExactlyWhen(j: Job, id: JobId, conversation: Option<Conversation>, generation: int, epoch: int, now: Time)
    ensures ClaimFanout(j, id, conversation, generation, epoch, now).1 == FanoutClaimed(j.fanoutKey) <==>
              && !FanoutSettled(j)
              && IsCurrentLease(j, generation, epoch)
              && AdmitsFanout(conversation, j, id)
    ensures ClaimFanout(j, id, conversation, generation, epoch, now).1.FanoutFencedOff? <==>
              && j.fanout != FanoutCompleted
              && IsCurrentLease(j, generation, epoch)
              && !AdmitsFanout(conversation, j, id)
  {
  }

  /**
    "Fanout completed" does not mean that the lease that records it ever claimed it: the completion write asks
    only for the job lease. The record keeps the epoch of the last claim, and repeating the write is answered
    true exactly when that claim was made under the presented epoch.
  */
  lemma FanoutCompletedWithoutClaim(j: Job, generation: int, epoch: int, now: Time, later: Time)
    requires IsCurrentLease(j, generation, epoch) && j.fanout != FanoutCompleted
    ensures var (done, ok) := CompleteFanout(j, generation, epoch, now);
            && ok && done.fanout == FanoutCompleted && done.fanoutEpoch == j.fanoutEpoch
            && (CompleteFanout(done, generation, epoch, later).1 <==> j.fanoutEpoch == epoch)
  {
  }

  /** `true` from the completion write means success exactly when the row was not already fenced. */
  lemma CompleteTrueMeansSuccessUnlessFenced(j: Job, generation: int, epoch: int, staleAfter: nat, now: Time)
    requires JobInv(j, staleAfter, now)
    requires Complete(j, generation, epoch, now).1
    ensures Complete(j, generation, epoch, now).0.outcome == Some(Success) <==> j.verdict != Some(Fenced)
  {
    if j.status == Completed {
      assert j.outcome.Some? && j.outcome.value != Failure;
      assert j.outcome.value == Success || j.outcome.value == Stale;
    }
  }
}
