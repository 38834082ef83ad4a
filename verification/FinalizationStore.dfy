/**
  The outbox as the backend runs it: documents updated in place, counters moved by the explicit deltas
  each transaction writes. Every method refines the transaction of the same name over values, and keeps
  the counters equal to the job population.
*/
module FinalizationStore {
  import opened Wrappers
  import opened FinalizationJob
  import opened FinalizationProjection
  import opened FinalizationOutbox

  /** Incrementing by nothing changes nothing, so writing a job back as it was is no write at all. */
  lemma CommitOfSame(s: Store, id: JobId)
    requires id in s.jobs
    ensures Bumped(s.shards, s.jobs[id].shard, Increments(s.jobs[id].status, s.jobs[id])) == s.shards
    ensures s.jobs[id := s.jobs[id]] == s.jobs
  {
    var j := s.jobs[id];
    SameStatusContributesSame(j, j);
    if j.shard.Some? && j.shard.value < |s.shards| {
      assert s.shards[j.shard.value].Plus(NONE) == s.shards[j.shard.value];
    }
  }

  class OutboxStore {
    var jobs: map<JobId, Job>
    var conversations: map<ConversationKey, Conversation>
    var shards: seq<Counters>
    const staleAfter: nat

    ghost function State(): Store
      reads this
    {
      Store(jobs, conversations, shards, staleAfter)
    }

    ghost predicate Valid()
      reads this
    {
      && |shards| == SHARD_COUNT
      && Faithful(shards, jobs)
      && (forall id | id in jobs :: OutcomeMatchesStatus(jobs[id]) && InRange(jobs[id]))
    }

    static predicate InRange(j: Job) {
      j.shard.Some? ==> j.shard.value < SHARD_COUNT
    }

    constructor (staleAfter: nat)
      ensures Valid() && jobs == map[] && conversations == map[] && this.staleAfter == staleAfter
    {
      jobs, conversations := map[], map[];
      shards := seq(SHARD_COUNT, _ => NONE);
      this.staleAfter := staleAfter;
      new;
      forall k: nat, g: Gauge | k < SHARD_COUNT ensures shards[k].At(g) == Population(jobs, k, g) {
        assert Members(jobs, k, g) == {};
      }
    }

    method BoundConversation(j: Job) returns (c: Option<Conversation>)
      ensures c == ConversationOf(State(), j)
    {
      c := None;
      if j.uid != "" && j.conversation != "" { c := Lookup(conversations, (j.uid, j.conversation)); }
    }

    method CloseConversation(j: Job, closed: Conversation)
      requires Valid()
      modifies this`conversations
      ensures Valid() && conversations == old(conversations)[(j.uid, j.conversation) := closed]
    {
      conversations := conversations[(j.uid, j.conversation) := closed];
    }

    /** Add `delta` to the shard of a stamped job; an unstamped job has no shard. */
    method RecordDelta(j: Job, delta: Counters)
      modifies this`shards
      ensures shards == Bumped(old(shards), j.shard, delta)
    {
      if j.shard.Some? && j.shard.value < |shards| {
        var k := j.shard.value;
        shards := shards[k := shards[k].Plus(delta)];
      }
    }

    /** Create a job document together with the increments of its creation. */
    method Insert(id: JobId, j: Job, delta: Counters)
      requires Valid() && InRange(j) && id !in jobs && Followed(None, j) && delta == Opening(j)
      modifies this`jobs, this`shards
      ensures Valid()
      ensures State() == Commit(old(State()), id, j)
    {
      DeltaKeepsFaithful(shards, jobs, id, j);
      jobs := jobs[id := j];
      RecordDelta(j, delta);
    }

    /** Write a job document and add the increments of that status move to its shard. */
    method Save(id: JobId, after: Job, delta: Counters)
      requires Valid() && id in jobs && jobs[id].shard == after.shard && Followed(Some(jobs[id]), after)
      requires delta == Increments(jobs[id].status, after)
      modifies this`jobs, this`shards
      ensures Valid()
      ensures State() == Commit(old(State()), id, after)
    {
      DeltaKeepsFaithful(shards, jobs, id, after);
      CommitOfSame(State(), id);
      jobs := jobs[id := after];
      RecordDelta(after, delta);
    }

    method CreateOrGet(r: IntentRequest, now: Time) returns (reply: IntentReply)
      requires Valid() && r.shard < SHARD_COUNT
      modifies this
      ensures Valid() && (State(), reply) == FinalizationOutbox.CreateOrGet(old(State()), r, now)
    {
      var key := (r.uid, r.conversation);
      if key !in conversations { return NoIntent("missing"); }
      var c := conversations[key];
      if c.deferred { return NoIntent("deferred"); }
      if !r.hasContent { return NoIntent("no_content"); }
      if r.admission.terminal { return NoIntent(r.admission.reason); }
      if c.jobId.Some? && c.jobId.value in jobs {
        return IntentOf(c.jobId.value, jobs[c.jobId.value], false);
      }
      if !r.admission.accepted || r.admission.fanoutKey == "" { return NoIntent(r.admission.reason); }
      var revision := c.revision + 1;
      var id := Derived(r.uid, r.conversation, revision);
      if id in jobs {
        conversations := conversations[key := BindConversation(c, id, revision, jobs[id].status)];
        return IntentOf(id, jobs[id], false);
      }
      var j := NewJob(r.uid, r.conversation, revision, r.requiresByok, r.admission.fanoutKey, r.shard, staleAfter, now);
      Insert(id, j, if r.requiresByok then NONE.(accepted := 1, blockedByok := 1) else NONE.(accepted := 1, queued := 1));
      conversations := conversations[key := BindConversation(c, id, revision, j.status)];
      reply := IntentOf(id, j, true);
    }

    method Resume(id: JobId, now: Time) returns (reply: IntentReply)
      requires Valid()
      modifies this`jobs, this`shards
      ensures Valid() && (State(), reply) == ResumeTxn(old(State()), id, now)
    {
      if id !in jobs { return NoIntent("missing"); }
      var j := jobs[id];
      if j.status == BlockedByok && j.requiresByok {
        var resumed := j.(status := Queued, updatedAt := now, reconcileAfter := None);
        Save(id, resumed, NONE.(blockedByok := -1, queued := 1));
        return IntentOf(id, resumed, false);
      }
      reply := IntentOf(id, j, false);
    }

    method Claim(id: JobId, q: ClaimRequest, now: Time) returns (reply: ClaimReply)
      requires Valid()
      modifies this`jobs, this`shards
      ensures Valid() && (State(), reply) == ClaimTxn(old(State()), id, q, now)
    {
      if id !in jobs { return NoJob; }
      var j := jobs[id];
      if q.expectedUid.Some? && j.uid != q.expectedUid.value { return IdentityMismatch; }
      if q.expectedConversation.Some? && j.conversation != q.expectedConversation.value { return IdentityMismatch; }
      if j.status == Completed && j.verdict == Some(Fenced) { return AlreadyFenced; }
      if Terminal(j.status) { return AlreadyTerminal(j.status); }
      if j.requiresByok && !q.allowByok { return NeedsByok; }
      if j.status == BlockedByok { return NeedsByok; }
      if j.generation != q.generation { return StaleGeneration; }
      if j.status == Leased && LiveLease(j, now) { return LeaseHeld; }
      var expiry := now + q.leaseSeconds;
      var leased := j.(status := Leased, leaseExpiresAt := Some(expiry), epoch := j.epoch + 1,
                       reconcileAfter := if j.requiresByok then None else Some(expiry),
                       updatedAt := now, attempts := j.attempts + 1);
      var delta := if j.status == Queued then NONE.(queued := -1, leased := 1) else NONE;
      Save(id, leased, delta);
      reply := Claimed(leased.epoch, leased.attempts, j.createdAt);
    }

    method MarkCompleted(id: JobId, generation: int, epoch: int, now: Time) returns (ok: bool)
      requires Valid()
      modifies this`jobs, this`shards
      ensures Valid() && (State(), ok) == CompleteTxn(old(State()), id, generation, epoch, now)
    {
      if id !in jobs { return false; }
      var j := jobs[id];
      if j.status == Completed { return j.epoch == epoch; }
      if !IsCurrentLease(j, generation, epoch) { return false; }
      if j.fanout != FanoutCompleted { return false; }
      var done := j.(status := Completed, outcome := Some(Success), updatedAt := now, leaseExpiresAt := Some(now),
                     reconcileAfter := None, failure := None);
      Save(id, done, NONE.(leased := -1, completed := 1, success := 1));
      ok := true;
    }

    method MarkFenced(id: JobId, generation: int, epoch: int, now: Time) returns (ok: bool)
      requires Valid()
      modifies this`jobs, this`shards
      ensures Valid() && (State(), ok) == FenceTxn(old(State()), id, generation, epoch, now)
    {
      if id !in jobs { return false; }
      var j := jobs[id];
      if j.status == Completed { return j.verdict == Some(Fenced) && j.epoch == epoch; }
      if !IsCurrentLease(j, generation, epoch) { return false; }
      if j.fanout != FanoutPending { return false; }
      Save(id, FencedJob(j, now), NONE.(leased := -1, completed := 1, stale := 1));
      ok := true;
    }

    method ClaimFanout(id: JobId, generation: int, epoch: int, now: Time) returns (reply: FanoutReply)
      requires Valid()
      modifies this`jobs, this`shards
      ensures Valid() && (State(), reply) == ClaimFanoutTxn(old(State()), id, generation, epoch, now)
    {
      if id !in jobs { return FanoutNoJob; }
      var j := jobs[id];
      if j.fanout == FanoutCompleted { return FanoutAlreadyDone(j.fanoutKey); }
      if !IsCurrentLease(j, generation, epoch) { return FanoutLeaseConflict(j.fanoutKey); }
      var c := BoundConversation(j);
      if !AdmitsFanout(c, j, id) {
        Save(id, FencedJob(j, now), NONE.(leased := -1, completed := 1, stale := 1));
        return FanoutFencedOff(j.fanoutKey);
      }
      var started := j.(fanout := FanoutLeased, fanoutEpoch := j.epoch, updatedAt := now);
      Save(id, started, NONE);
      reply := FanoutClaimed(j.fanoutKey);
    }

    method MarkFanoutCompleted(id: JobId, generation: int, epoch: int, now: Time) returns (ok: bool)
      requires Valid()
      modifies this`jobs, this`shards
      ensures Valid() && (State(), ok) == CompleteFanoutTxn(old(State()), id, generation, epoch, now)
    {
      if id !in jobs { return false; }
      var j := jobs[id];
      if j.fanout == FanoutCompleted { return j.fanoutEpoch == epoch; }
      if !IsCurrentLease(j, generation, epoch) { return false; }
      var delivered := j.(fanout := FanoutCompleted, updatedAt := now);
      Save(id, delivered, NONE);
      ok := true;
    }

    method MarkRetryable(id: JobId, generation: int, epoch: int, code: string, now: Time) returns (ok: bool)
      requires Valid()
      modifies this`jobs, this`shards
      ensures Valid() && (State(), ok) == RetryTxn(old(State()), id, generation, epoch, code, now)
    {
      if id !in jobs { return false; }
      var j := jobs[id];
      if !IsCurrentLease(j, generation, epoch) { return false; }
      var queued := j.(status := Queued, updatedAt := now, leaseExpiresAt := Some(now),
                       reconcileAfter := if j.requiresByok then None else Some(now + staleAfter),
                       failure := Some(code));
      Save(id, queued, NONE.(leased := -1, queued := 1));
      ok := true;
    }

    method MarkDeadLetter(id: JobId, generation: int, epoch: int, retries: int, now: Time) returns (ok: bool)
      requires Valid()
      modifies this
      ensures Valid() && (State(), ok) == BuryTxn(old(State()), id, generation, epoch, retries, now)
    {
      if id !in jobs { return false; }
      var j := jobs[id];
      if !IsCurrentLease(j, generation, epoch) { return false; }
      var c := BoundConversation(j);
      var dead := j.(status := DeadLetter, updatedAt := now, outcome := Some(Failure), leaseExpiresAt := Some(now),
                     reconcileAfter := None, retries := retries, failure := Some("final_attempt_failed"));
      Save(id, dead, NONE.(leased := -1, deadLetter := 1, failure := 1));
      if StillProcessing(c, id, j) {
        CloseConversation(j, c.value.(status := ConversationFailed, discarded := true, finalizationStatus := Some(DeadLetter)));
      }
      ok := true;
    }

    method ClaimReplay(id: JobId, now: Time) returns (reply: IntentReply)
      requires Valid()
      modifies this`jobs, this`shards
      ensures Valid() && (State(), reply) == ReplayTxn(old(State()), id, now)
    {
      if id !in jobs { return NoIntent("missing"); }
      var j := jobs[id];
      if j.status == BlockedByok || Terminal(j.status) { return IntentOf(id, j, false); }
      if j.status == Leased && LiveLease(j, now) { return IntentOf(id, j, false); }
      if j.status == Queued && j.dispatchedAt.Some? && j.dispatchedAt.value > now - staleAfter {
        return IntentOf(id, j, false);
      }
      var requeued := j.(status := Queued, generation := j.generation + 1, dispatchedAt := Some(now), updatedAt := now,
                         leaseExpiresAt := Some(now), reconcileAfter := Some(now + staleAfter));
      var delta := if j.status == Leased then NONE.(leased := -1, queued := 1) else NONE;
      Save(id, requeued, delta);
      reply := IntentOf(id, requeued, false);
    }

    method AbandonByok(id: JobId, q: AbandonRequest, now: Time) returns (reply: AbandonReply)
      requires Valid()
      modifies this
      ensures Valid() && (State(), reply) == AbandonTxn(old(State()), id, q, now)
    {
      if id !in jobs { return AbandonMissing; }
      var j := jobs[id];
      if !j.requiresByok { return AbandonFenced; }
      if !(j.status == Queued || j.status == Leased) || j.status != q.status { return AbandonFenced; }
      if j.generation != q.generation || j.epoch != q.epoch { return AbandonFenced; }
      if j.status == Leased && LiveLease(j, now) { return AbandonFenced; }
      if j.updatedAt > q.cutoff { return AbandonFenced; }
      var c := BoundConversation(j);
      var dead := j.(status := DeadLetter, updatedAt := now, outcome := Some(Failure), verdict := Some(ByokAbandoned),
                     leaseExpiresAt := Some(now), reconcileAfter := None, fanout := FanoutFenced,
                     failure := Some("byok_session_abandoned"));
      var delta := if j.status == Queued then NONE.(queued := -1, deadLetter := 1, failure := 1)
                   else NONE.(leased := -1, deadLetter := 1, failure := 1);
      Save(id, dead, delta);
      var outcome := AbandonOutcome(c, id, j);
      if outcome == Closed {
        CloseConversation(j, c.value.(status := ConversationCompleted, finalizationStatus := Some(DeadLetter)));
      }
      reply := Abandoned(outcome);
    }

    /**
      The dashboard summary reads the fixed shard set and never the jobs, yet reports for every gauge
      exactly the number of stamped jobs it measures.
    */
    method Summary() returns (totals: Counters)
      requires Valid()
      ensures forall g: Gauge :: totals.At(g) == |set id | id in jobs && jobs[id].shard.Some? && Measures(jobs[id], g)|
      ensures Balanced(totals)
    {
      totals := NONE;
      for k := 0 to SHARD_COUNT
        invariant totals == Sum(shards[..k])
      {
        totals := totals.Plus(shards[k]);
        assert shards[..k + 1][..k] == shards[..k];
      }
      assert shards[..SHARD_COUNT] == shards;
      forall g: Gauge
        ensures totals.At(g) == |set id | id in jobs && jobs[id].shard.Some? && Measures(jobs[id], g)|
      {
        SumCountsStampedJobs(shards, jobs, g);
        assert Counted(jobs, SHARD_COUNT, g) == set id | id in jobs && jobs[id].shard.Some? && Measures(jobs[id], g);
      }
      forall k: nat | k < SHARD_COUNT ensures Balanced(shards[k]) {
        FaithfulIsBalanced(shards, jobs, k);
      }
      SumBalanced(shards);
    }
  }
}
