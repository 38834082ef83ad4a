/**
  What each outbox transaction answers and writes, exactly when, spelled out on the stored documents; and the lease
  exclusion that follows over whole runs.
*/
module FinalizationAnswers {
  import opened Wrappers
  import opened FinalizationJob
  import opened FinalizationJobLaws
  import opened FinalizationProjection
  import opened FinalizationOutbox
  import opened FinalizationRuns

  // ----- 1. the worker lease -----

  /**
    A claim is granted exactly when the row is the expected one, queued or leased under a lapsed lease, at the presented
    dispatch generation, and the claimer may serve its key; it then takes the next epoch and leaves everything else alone.
  */
  lemma ClaimedExactlyWhen(s: Store, id: JobId, q: ClaimRequest, now: Time)
    ensures var (t, reply) := ClaimTxn(s, id, q, now);
            reply.Claimed? <==>
              && id in s.jobs
              && (q.expectedUid.Some? ==> s.jobs[id].uid == q.expectedUid.value)
              && (q.expectedConversation.Some? ==> s.jobs[id].conversation == q.expectedConversation.value)
              && (|| s.jobs[id].status == Queued
                  || (s.jobs[id].status == Leased && (s.jobs[id].leaseExpiresAt.Some? ==> s.jobs[id].leaseExpiresAt.value <= now)))
              && s.jobs[id].generation == q.generation
              && (s.jobs[id].requiresByok ==> q.allowByok)
    ensures var (t, reply) := ClaimTxn(s, id, q, now);
            && (!reply.Claimed? ==> t == s)
            && (reply.Claimed? ==>
                  var j, x := s.jobs[id], now + q.leaseSeconds;
                  && reply == Claimed(j.epoch + 1, j.attempts + 1, j.createdAt)
                  && t.conversations == s.conversations
                  && t.jobs == s.jobs[id := j.(status := Leased, epoch := j.epoch + 1, attempts := j.attempts + 1,
                                               leaseExpiresAt := Some(x), updatedAt := now,
                                               reconcileAfter := if j.requiresByok then None else Some(x))])
  {
  }

  /** Each refusal of a claim says exactly what stands in its way, the first reason in this order. */
  lemma ClaimRefusals(s: Store, id: JobId, q: ClaimRequest, now: Time)
    requires id in s.jobs && !ClaimTxn(s, id, q, now).1.Claimed?
    ensures var j, reply := s.jobs[id], ClaimTxn(s, id, q, now).1;
            if (q.expectedUid.Some? && q.expectedUid.value != j.uid)
               || (q.expectedConversation.Some? && q.expectedConversation.value != j.conversation) then reply == IdentityMismatch
            else if j.status == Completed && j.verdict == Some(Fenced) then reply == AlreadyFenced
            else if j.status == Completed || j.status == DeadLetter then reply == AlreadyTerminal(j.status)
            else if j.status == BlockedByok || (j.requiresByok && !q.allowByok) then reply == NeedsByok
            else if j.generation != q.generation then reply == StaleGeneration
            else reply == LeaseHeld && j.leaseExpiresAt.Some? && now < j.leaseExpiresAt.value
  {
  }

  /** The lease taken with `generation` and `epoch` until `expiry`, untouched since, or the job has ended. */
  ghost predicate HeldOrEnded(j: Job, generation: int, epoch: int, expiry: Time) {
    || (j.status == Leased && j.generation == generation && j.epoch == epoch && j.leaseExpiresAt == Some(expiry))
    || j.status == Completed || j.status == DeadLetter
  }

  /** The holder itself gives the lease back for a retry. */
  ghost predicate GivesBack(s: Store, op: Op, id: JobId, generation: int, epoch: int) {
    op.OpRetry? && op.id == id && op.generation == generation && op.epoch == epoch && RetryTxn(s, id, generation, epoch, op.code, op.now).1
  }

  ghost predicate GivenBack(s: System, ops: seq<Op>, id: JobId, generation: int, epoch: int)
    decreases |ops|
  {
    ops != [] && (GivesBack(s.store, ops[0], id, generation, epoch) || GivenBack(Step(s, ops[0]), ops[1..], id, generation, epoch))
  }

  /** What a single-job transaction does to the held job before the lease lapses. */
  lemma WriteKeepsLease(s: Store, op: Op, generation: int, epoch: int, expiry: Time)
    requires !op.OpIntent? && !op.OpReceipt? && !op.OpDueQuery? && !op.OpConversation? && op.id in s.jobs
    requires HeldOrEnded(s.jobs[op.id], generation, epoch, expiry) && op.now < expiry
    ensures HeldOrEnded(Written(s, op), generation, epoch, expiry) || GivesBack(s, op, op.id, generation, epoch)
  {
  }

  lemma StepKeepsLease(s: Store, op: Op, id: JobId, generation: int, epoch: int, expiry: Time)
    requires id in s.jobs && HeldOrEnded(s.jobs[id], generation, epoch, expiry) && op.now < expiry
    requires !GivesBack(s, op, id, generation, epoch)
    ensures id in Effect(s, op).jobs && HeldOrEnded(Effect(s, op).jobs[id], generation, epoch, expiry)
  {
    match op
    case OpIntent(now, r) => CreationLeavesJobs(s, r, now, id);
    case OpReceipt(now, uid, conversation, given, eligible) => ReceiptLeavesJobs(s, uid, conversation, given, eligible, now, id);
    case OpDueQuery(_, _) =>
    case OpConversation(_, _, _) =>
    case _ =>
      SingleJobEffect(s, op);
      if op.id == id { WriteKeepsLease(s, op, generation, epoch, expiry); }
  }

  lemma ReceiptLeavesJobs(s: Store, uid: string, conversation: string, given: Option<JobId>, eligible: bool, now: Time, id: JobId)
    requires id in s.jobs
    ensures var t := RecordReceipt(s, uid, conversation, given, eligible, now);
            id in t.jobs && t.jobs[id] == s.jobs[id].(receipt := t.jobs[id].receipt)
  {
  }

  lemma CreationLeavesJobs(s: Store, r: IntentRequest, now: Time, id: JobId)
    requires id in s.jobs
    ensures id in CreateOrGet(s, r, now).0.jobs && CreateOrGet(s, r, now).0.jobs[id] == s.jobs[id]
  {
  }

  /** Until it lapses, a lease that its holder does not give back stays as it was, or the job ends. */
  lemma {:induction false} RunKeepsLease(s: System, ops: seq<Op>, id: JobId, generation: int, epoch: int, expiry: Time)
    requires Inv(s) && Runs(s, ops) && After(s, ops).clock < expiry
    requires id in s.store.jobs && HeldOrEnded(s.store.jobs[id], generation, epoch, expiry)
    requires !GivenBack(s, ops, id, generation, epoch)
    ensures id in After(s, ops).store.jobs && HeldOrEnded(After(s, ops).store.jobs[id], generation, epoch, expiry)
    decreases |ops|
  {
    if ops != [] {
      var t := Step(s, ops[0]);
      StepKeepsInv(s, ops[0]);
      RunKeepsInv(t, ops[1..]);
      StepKeepsLease(s.store, ops[0], id, generation, epoch, expiry);
      RunKeepsLease(t, ops[1..], id, generation, epoch, expiry);
    }
  }

  /**
    A live lease excludes every other worker. After a claim that lasts until `expiry`, whatever runs, a second claim
    before that instant is granted only if the first holder itself gave the lease back with its own token.
  */
  lemma LiveLeaseExcludesClaims(s: System, id: JobId, first: ClaimRequest, now1: Time, ops: seq<Op>, second: ClaimRequest, now2: Time)
    requires Inv(s) && s.clock <= now1 && ClaimTxn(s.store, id, first, now1).1.Claimed?
    requires var t := Step(s, OpClaim(now1, id, first)); Runs(t, ops) && After(t, ops).clock <= now2 < now1 + first.leaseSeconds
    ensures var t := Step(s, OpClaim(now1, id, first));
            ClaimTxn(After(t, ops).store, id, second, now2).1.Claimed? ==>
              GivenBack(t, ops, id, first.generation, ClaimTxn(s.store, id, first, now1).1.epoch)
  {
    var t := Step(s, OpClaim(now1, id, first));
    var epoch := ClaimTxn(s.store, id, first, now1).1.epoch;
    StepKeepsInv(s, OpClaim(now1, id, first));
    ClaimedExactlyWhen(s.store, id, first, now1);
    if !GivenBack(t, ops, id, first.generation, epoch) {
      RunKeepsLease(t, ops, id, first.generation, epoch, now1 + first.leaseSeconds);
      ClaimedExactlyWhen(After(t, ops).store, id, second, now2);
    }
  }

  // ----- 2. the writes of the lease holder -----

  /** Success is written exactly by the current lease of a job whose fanout is recorded; a repeat by that epoch is confirmed. */
  lemma CompletedExactlyWhen(s: Store, id: JobId, generation: int, epoch: int, now: Time)
    ensures var (t, ok) := CompleteTxn(s, id, generation, epoch, now);
            var writes := id in s.jobs && s.jobs[id].status == Leased && s.jobs[id].generation == generation
                          && s.jobs[id].epoch == epoch && s.jobs[id].fanout == FanoutCompleted;
            && (ok <==> writes || (id in s.jobs && s.jobs[id].status == Completed && s.jobs[id].epoch == epoch))
            && (!writes ==> t == s)
            && (writes ==>
                  && t.conversations == s.conversations
                  && t.jobs == s.jobs[id := s.jobs[id].(status := Completed, outcome := Some(Success), updatedAt := now,
                                                        leaseExpiresAt := Some(now), reconcileAfter := None, failure := None)])
  {
  }

  /** The job of a lease that lost its conversation: ended as stale, nothing delivered. */
  ghost predicate EndsStale(s: Store, t: Store, id: JobId, now: Time)
    requires id in s.jobs
  {
    && t.conversations == s.conversations
    && t.jobs == s.jobs[id := s.jobs[id].(status := Completed, outcome := Some(Stale), verdict := Some(Fenced),
                                          fanout := FanoutFenced, updatedAt := now, leaseExpiresAt := Some(now),
                                          reconcileAfter := None, failure := None)]
  }

  /** The fence ends exactly a current lease whose fanout nobody has touched; a repeat by that epoch is confirmed. */
  lemma FencedExactlyWhen(s: Store, id: JobId, generation: int, epoch: int, now: Time)
    ensures var (t, ok) := FenceTxn(s, id, generation, epoch, now);
            var writes := id in s.jobs && s.jobs[id].status == Leased && s.jobs[id].generation == generation
                          && s.jobs[id].epoch == epoch && s.jobs[id].fanout == FanoutPending;
            && (ok <==> writes || (&& id in s.jobs && s.jobs[id].status == Completed && s.jobs[id].verdict == Some(Fenced)
                                   && s.jobs[id].epoch == epoch))
            && (!writes ==> t == s)
            && (writes ==> EndsStale(s, t, id, now))
  {
  }

  /**
    A fanout is claimed exactly by the current lease while the job's conversation exists, is completed and not discarded,
    and still names this job at this revision; if only the conversation fails, the same transaction ends the job as stale.
  */
  lemma FanoutAnswers(s: Store, id: JobId, generation: int, epoch: int, now: Time)
    requires id in s.jobs
    ensures var (t, reply) := ClaimFanoutTxn(s, id, generation, epoch, now);
            var j := s.jobs[id];
            var key := (j.uid, j.conversation);
            var held := j.status == Leased && j.generation == generation && j.epoch == epoch;
            var bound := && j.uid != "" && j.conversation != "" && key in s.conversations
                         && s.conversations[key].status == ConversationCompleted && !s.conversations[key].discarded
                         && s.conversations[key].jobId == Some(id) && s.conversations[key].revision == j.revision;
            if j.fanout == FanoutCompleted then t == s && reply == FanoutAlreadyDone(j.fanoutKey)
            else if !held then t == s && reply == FanoutLeaseConflict(j.fanoutKey)
            else if !bound then EndsStale(s, t, id, now) && reply == FanoutFencedOff(j.fanoutKey)
            else
              && reply == FanoutClaimed(j.fanoutKey) && t.conversations == s.conversations
              && t.jobs == s.jobs[id := j.(fanout := FanoutLeased, fanoutEpoch := epoch, updatedAt := now)]
  {
  }

  /** Delivery is recorded exactly by the current lease, once; a repeat is confirmed to the epoch that last claimed. */
  lemma FanoutRecordedExactlyWhen(s: Store, id: JobId, generation: int, epoch: int, now: Time)
    ensures var (t, ok) := CompleteFanoutTxn(s, id, generation, epoch, now);
            var done := id in s.jobs && s.jobs[id].fanout == FanoutCompleted;
            var writes := && id in s.jobs && !done && s.jobs[id].status == Leased
                          && s.jobs[id].generation == generation && s.jobs[id].epoch == epoch;
            && (ok <==> writes || (done && s.jobs[id].fanoutEpoch == epoch))
            && (!writes ==> t == s)
            && (writes ==> t.conversations == s.conversations
                           && t.jobs == s.jobs[id := s.jobs[id].(fanout := FanoutCompleted, updatedAt := now)])
  {
  }

  /** The current lease, and nobody else, gives the job back to its lane: only a platform job is armed for the reconciler. */
  lemma RetriedExactlyWhen(s: Store, id: JobId, generation: int, epoch: int, code: string, now: Time)
    ensures var (t, ok) := RetryTxn(s, id, generation, epoch, code, now);
            && (ok <==> id in s.jobs && s.jobs[id].status == Leased && s.jobs[id].generation == generation && s.jobs[id].epoch == epoch)
            && (!ok ==> t == s)
            && (ok ==>
                  && t.conversations == s.conversations
                  && t.jobs == s.jobs[id := s.jobs[id].(status := Queued, updatedAt := now, leaseExpiresAt := Some(now),
                                                        reconcileAfter := if s.jobs[id].requiresByok then None
                                                                          else Some(now + s.staleAfter),
                                                        failure := Some(code))])
  {
  }

  // ----- 3. final writes and the user's conversation -----

  /**
    A final failure is written exactly by the current lease. The conversation that still waits for this very job ends
    failed and discarded in the same transaction; no other conversation, and no other field of it, changes.
  */
  lemma FinalFailureHidesConversation(s: Store, id: JobId, generation: int, epoch: int, retries: int, now: Time)
    ensures var (t, ok) := BuryTxn(s, id, generation, epoch, retries, now);
            && (ok <==> id in s.jobs && s.jobs[id].status == Leased && s.jobs[id].generation == generation && s.jobs[id].epoch == epoch)
            && (!ok ==> t == s)
            && (ok ==>
                  var j := s.jobs[id];
                  var key := (j.uid, j.conversation);
                  var waits := && j.uid != "" && j.conversation != "" && key in s.conversations
                               && s.conversations[key].status == Processing && !s.conversations[key].discarded
                               && s.conversations[key].jobId == Some(id) && s.conversations[key].revision == j.revision;
                  && t.jobs == s.jobs[id := j.(status := DeadLetter, outcome := Some(Failure), updatedAt := now,
                                               leaseExpiresAt := Some(now), reconcileAfter := None, retries := retries,
                                               failure := Some("final_attempt_failed"))]
                  && t.conversations == if !waits then s.conversations
                       else s.conversations[key := s.conversations[key].(status := ConversationFailed, discarded := true,
                                                                         finalizationStatus := Some(DeadLetter))])
  {
  }

  /** An abandonment is written exactly on an idle BYOK row still as it was scanned, with no live lease. */
  lemma AbandonedExactlyWhen(s: Store, id: JobId, q: AbandonRequest, now: Time)
    ensures var (t, reply) := AbandonTxn(s, id, q, now);
            && (reply == AbandonMissing <==> id !in s.jobs)
            && (reply.Abandoned? <==>
                  && id in s.jobs && s.jobs[id].requiresByok
                  && (s.jobs[id].status == Queued || s.jobs[id].status == Leased) && s.jobs[id].status == q.status
                  && s.jobs[id].generation == q.generation && s.jobs[id].epoch == q.epoch
                  && (s.jobs[id].status == Leased && s.jobs[id].leaseExpiresAt.Some? ==> s.jobs[id].leaseExpiresAt.value <= now)
                  && s.jobs[id].updatedAt <= q.cutoff)
            && (!reply.Abandoned? ==> t == s)
            && (reply.Abandoned? ==>
                  t.jobs == s.jobs[id := s.jobs[id].(status := DeadLetter, outcome := Some(Failure), verdict := Some(ByokAbandoned),
                                                     fanout := FanoutFenced, updatedAt := now, leaseExpiresAt := Some(now),
                                                     reconcileAfter := None, failure := Some("byok_session_abandoned"))])
  {
  }

  /**
    Unlike a final failure, an abandonment keeps the recording: the conversation that still waits for this job ends
    completed and not discarded, unless it is deferred; the reply says which case it was.
  */
  lemma AbandonmentKeepsRecording(s: Store, id: JobId, q: AbandonRequest, now: Time)
    requires AbandonTxn(s, id, q, now).1.Abandoned?
    ensures var (t, reply) := AbandonTxn(s, id, q, now);
            var j := s.jobs[id];
            var key := (j.uid, j.conversation);
            if j.uid == "" || j.conversation == "" || key !in s.conversations then
              t.conversations == s.conversations && reply.outcome == ConversationMissing
            else
              var c := s.conversations[key];
              if c.jobId != Some(id) || c.revision != j.revision then t.conversations == s.conversations && reply.outcome == Unbound
              else if c.status != Processing || c.discarded then t.conversations == s.conversations && reply.outcome == AlreadyClosed
              else if c.deferred then t.conversations == s.conversations && reply.outcome == LeftDeferred
              else
                && reply.outcome == Closed
                && t.conversations == s.conversations[key := c.(status := ConversationCompleted, finalizationStatus := Some(DeadLetter))]
  {
  }

  // ----- 4. recovery lanes -----

  /** A replay acts exactly on a lapsed lease or a stale queued dispatch, and re-arms the row under the next generation. */
  lemma ReplayedExactlyWhen(s: Store, id: JobId, now: Time)
    requires id in s.jobs
    ensures var (t, reply) := ReplayTxn(s, id, now);
            var j := s.jobs[id];
            var acts := || (j.status == Leased && (j.leaseExpiresAt.Some? ==> j.leaseExpiresAt.value <= now))
                        || (j.status == Queued && (j.dispatchedAt.Some? ==> j.dispatchedAt.value + s.staleAfter <= now));
            && (!acts ==> t == s && reply == Intent(id, j.status, j.generation, j.requiresByok, j.fanoutKey, false))
            && (acts ==>
                  && reply == Intent(id, Queued, j.generation + 1, j.requiresByok, j.fanoutKey, false)
                  && t.conversations == s.conversations
                  && t.jobs == s.jobs[id := j.(status := Queued, generation := j.generation + 1, dispatchedAt := Some(now),
                                               updatedAt := now, leaseExpiresAt := Some(now),
                                               reconcileAfter := Some(now + s.staleAfter))])
  {
  }

  lemma DueExactlyWhen(j: Job, now: Time)
    ensures Due(j, now) <==> j.reconcileAfter.Some? && j.reconcileAfter.value <= now && (j.status == Queued || j.status == Leased)
  {
  }

  /** Resuming frees exactly a blocked BYOK job, and arms nothing. */
  lemma ResumedExactlyWhen(s: Store, id: JobId, now: Time)
    requires id in s.jobs
    ensures var (t, reply) := ResumeTxn(s, id, now);
            var j := s.jobs[id];
            var acts := j.status == BlockedByok && j.requiresByok;
            && reply == Intent(id, if acts then Queued else j.status, j.generation, j.requiresByok, j.fanoutKey, false)
            && (!acts ==> t == s)
            && (acts ==> t.conversations == s.conversations
                         && t.jobs == s.jobs[id := j.(status := Queued, updatedAt := now, reconcileAfter := None)])
  {
  }

  // ----- 5. creation -----

  /**
    A new job is created exactly for an existing, undeferred conversation with content whose lifecycle accepts it, when
    it is bound to no stored job and the next revision has none; each refusal has its reason.
  */
  lemma CreatedExactlyWhen(s: Store, r: IntentRequest, now: Time)
    ensures var (t, reply) := CreateOrGet(s, r, now);
            var key := (r.uid, r.conversation);
            if key !in s.conversations then t == s && reply == NoIntent("missing")
            else
              var c := s.conversations[key];
              var next := Derived(r.uid, r.conversation, c.revision + 1);
              if c.deferred then t == s && reply == NoIntent("deferred")
              else if !r.hasContent then t == s && reply == NoIntent("no_content")
              else if r.admission.terminal then t == s && reply == NoIntent(r.admission.reason)
              else if c.jobId.Some? && c.jobId.value in s.jobs then
                var j := s.jobs[c.jobId.value];
                t == s && reply == Intent(c.jobId.value, j.status, j.generation, j.requiresByok, j.fanoutKey, false)
              else if !r.admission.accepted || r.admission.fanoutKey == "" then t == s && reply == NoIntent(r.admission.reason)
              else
                && next in t.jobs
                && reply == Intent(next, t.jobs[next].status, t.jobs[next].generation, t.jobs[next].requiresByok,
                                   t.jobs[next].fanoutKey, next !in s.jobs)
                && (next in s.jobs ==> t.jobs == s.jobs)
                && t.conversations == s.conversations[key := c.(status := Processing, jobId := Some(next), revision := c.revision + 1,
                                                                finalizationStatus := Some(t.jobs[next].status))]
  {
  }

  /** What a created job starts as: blocked iff it needs its owner's key, and armed for the reconciler iff it does not. */
  lemma CreatedJob(s: Store, r: IntentRequest, now: Time)
    requires CreateOrGet(s, r, now).1.Intent? && CreateOrGet(s, r, now).1.created
    ensures var (t, reply) := CreateOrGet(s, r, now);
            var revision := s.conversations[(r.uid, r.conversation)].revision + 1;
            var j := t.jobs[reply.id];
            && t.jobs == s.jobs[reply.id := j]
            && j.uid == r.uid && j.conversation == r.conversation && j.revision == revision
            && j.requiresByok == r.requiresByok && j.fanoutKey == r.admission.fanoutKey && j.shard == Some(r.shard)
            && j.status == (if r.requiresByok then BlockedByok else Queued)
            && j.reconcileAfter == (if r.requiresByok then None else Some(now + s.staleAfter))
            && j.dispatchedAt == Some(now) && j.createdAt == now && j.updatedAt == now && j.leaseExpiresAt == None
            && j.generation == 1 && j.epoch == 0 && j.attempts == 0 && j.retries == 0
            && j.fanout == FanoutPending && j.fanoutEpoch == 0
            && j.outcome == None && j.verdict == None && j.failure == None && j.receipt == None
  {
  }

  // ----- 6. meeting receipts -----

  /**
    A meeting verdict is recorded once, on the named, bound or next job, and never on a job of another conversation; a
    job made only to hold it is already ended and counted nowhere.
  */
  lemma ReceiptRecordedExactlyWhen(s: Store, uid: string, conversation: string, given: Option<JobId>, eligible: bool, now: Time)
    ensures var t := RecordReceipt(s, uid, conversation, given, eligible, now);
            var key := (uid, conversation);
            if key !in s.conversations then t == s
            else
              var c := s.conversations[key];
              var id := if given.Some? then given.value else if c.jobId.Some? then c.jobId.value
                        else Derived(uid, conversation, c.revision + 1);
              if id in s.jobs && (s.jobs[id].uid != uid || s.jobs[id].conversation != conversation) then t == s
              else
                && id in t.jobs && t.jobs == s.jobs[id := t.jobs[id]] && t.jobs[id].receipt.Some?
                && (id in s.jobs ==>
                      && t.shards == s.shards
                      && t.jobs[id] == s.jobs[id].(receipt := if s.jobs[id].receipt.Some? then s.jobs[id].receipt else Some(eligible)))
                && (id !in s.jobs ==>
                      && t.shards == s.shards && t.jobs[id].receipt == Some(eligible) && t.jobs[id].shard == None
                      && t.jobs[id].status == Completed && t.jobs[id].outcome == Some(Success)
                      && t.jobs[id].verdict == Some(ReceiptOnly) && t.jobs[id].fanout == FanoutCompleted)
                && t.conversations == s.conversations[key :=
                     if c.jobId.Some? then c.(jobId := Some(id))
                     else c.(jobId := Some(id), revision := c.revision + 1, finalizationStatus := Some(Completed))]
  {
  }

  /** A job made only to hold a verdict: ended, never dispatched, leased or counted, under the conversation's own fanout key. */
  lemma ReceiptOnlyJob(s: Store, uid: string, conversation: string, eligible: bool, now: Time)
    requires (uid, conversation) in s.conversations && s.conversations[(uid, conversation)].jobId == None
    requires Derived(uid, conversation, s.conversations[(uid, conversation)].revision + 1) !in s.jobs
    ensures var revision := s.conversations[(uid, conversation)].revision + 1;
            var j := RecordReceipt(s, uid, conversation, None, eligible, now).jobs[Derived(uid, conversation, revision)];
            && j.uid == uid && j.conversation == conversation && j.revision == revision && !j.requiresByok
            && j.fanoutKey == "conversation:" + conversation + ":finalization" && j.shard == None
            && j.status == Completed && j.fanout == FanoutCompleted && j.outcome == Some(Success) && j.verdict == Some(ReceiptOnly)
            && j.generation == 1 && j.epoch == 0 && j.fanoutEpoch == 0 && j.attempts == 1 && j.retries == 0
            && j.dispatchedAt == None && j.leaseExpiresAt == None && j.reconcileAfter == None && j.failure == None
            && j.createdAt == now && j.updatedAt == now && j.receipt == Some(eligible)
  {
  }
}
