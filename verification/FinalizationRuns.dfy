/** What every run of the outbox keeps: exact counters, fencing, absorbing terminals, no stranded job. */
module FinalizationRuns {
  import opened Wrappers
  import opened Counting
  import opened FinalizationJob
  import opened FinalizationJobLaws
  import opened FinalizationProjection
  import opened FinalizationOutbox

  ghost predicate StoreInv(s: Store, clock: Time) {
    && |s.shards| == SHARD_COUNT
    && Faithful(s.shards, s.jobs)
    && (forall id | id in s.jobs :: JobInv(s.jobs[id], s.staleAfter, clock))
  }

  ghost predicate Inv(s: System) {
    && StoreInv(s.store, s.clock)
    && (forall id | id in s.due :: id in s.store.jobs && !s.store.jobs[id].requiresByok)
  }

  /** No job disappears and each one only evolves. */
  ghost predicate StoreEvolves(s: Store, t: Store) {
    && t.staleAfter == s.staleAfter
    && forall id | id in s.jobs :: id in t.jobs && Evolves(s.jobs[id], t.jobs[id])
  }

  lemma StoreEvolvesTransitive(s: Store, t: Store, u: Store)
    requires StoreEvolves(s, t) && StoreEvolves(t, u)
    ensures StoreEvolves(s, u)
  {
    forall id | id in s.jobs ensures id in u.jobs && Evolves(s.jobs[id], u.jobs[id]) {
      EvolvesTransitive(s.jobs[id], t.jobs[id], u.jobs[id]);
    }
  }

  ghost predicate GoodWrite(s: Store, id: JobId, after: Job, now: Time) {
    && JobInv(after, s.staleAfter, now)
    && (id in s.jobs ==> Evolves(s.jobs[id], after) && Moves(s.jobs[id].status, after.status))
    && (id !in s.jobs && after.shard.Some? ==> after.status == Queued || after.status == BlockedByok)
  }

  /** One job write keeps the whole store invariant: the counters of its shard move by exactly its own change. */
  lemma CommitKeepsInv(s: Store, clock: Time, id: JobId, after: Job, now: Time)
    requires StoreInv(s, clock) && clock <= now
    requires GoodWrite(s, id, after, now)
    ensures StoreInv(Commit(s, id, after), now)
    ensures StoreEvolves(s, Commit(s, id, after))
  {
    var t := Commit(s, id, after);
    forall x | x in t.jobs ensures JobInv(t.jobs[x], s.staleAfter, now) {
      if x != id || t == s { JobInvLater(s.jobs[x], s.staleAfter, clock, now); }
    }
    if t != s {
      JobsAreConsistent(s, clock);
      OutcomeAgrees(after, s.staleAfter, now);
      DeltaKeepsFaithful(s.shards, s.jobs, id, after);
    }
  }

  lemma OutcomeAgrees(j: Job, staleAfter: nat, clock: Time)
    requires JobInv(j, staleAfter, clock)
    ensures OutcomeMatchesStatus(j)
  {
    if j.outcome.Some? {
      assert j.outcome.value == Success || j.outcome.value == Stale || j.outcome.value == Failure;
    }
  }

  lemma JobsAreConsistent(s: Store, clock: Time)
    requires StoreInv(s, clock)
    ensures forall id | id in s.jobs :: OutcomeMatchesStatus(s.jobs[id])
  {
    forall id | id in s.jobs ensures OutcomeMatchesStatus(s.jobs[id]) {
      OutcomeAgrees(s.jobs[id], s.staleAfter, clock);
    }
  }

  /** Every transaction is one good job write plus, possibly, a conversation write. */
  lemma EffectKeepsInv(s: System, op: Op)
    requires Inv(s) && Enabled(s, op)
    ensures StoreInv(Effect(s.store, op), op.now)
    ensures StoreEvolves(s.store, Effect(s.store, op))
  {
    var st := s.store;
    var now := op.now;
    match op
    case OpIntent(_, r) => IntentKeepsInv(st, s.clock, r, now);
    case OpReceipt(_, uid, conversation, given, eligible) =>
      ReceiptKeepsInv(st, s.clock, uid, conversation, given, eligible, now);
    case OpDueQuery(_, _) => SameJobsKeepsInv(st, st, s.clock, now);
    case OpConversation(_, _, _) => SameJobsKeepsInv(st, Effect(st, op), s.clock, now);
    case _ =>
      SingleJobEffect(st, op);
      if op.id !in st.jobs {
        SameJobsKeepsInv(st, Effect(st, op), s.clock, now);
      } else {
        JobWriteIsGood(s, op);
        var t := Commit(st, op.id, Written(st, op));
        CommitKeepsInv(st, s.clock, op.id, Written(st, op), now);
        SameJobsKeepsInv(t, Effect(st, op), now, now);
        StoreEvolvesTransitive(st, t, Effect(st, op));
      }
  }

  /** Apart from conversations, a single-job transaction writes exactly its job and that job's shard. */
  lemma SingleJobEffect(s: Store, op: Op)
    requires !op.OpIntent? && !op.OpReceipt? && !op.OpDueQuery? && !op.OpConversation?
    ensures var t := Effect(s, op);
            if op.id !in s.jobs then t == s
            else
              var c := Commit(s, op.id, Written(s, op));
              t.jobs == c.jobs && t.shards == c.shards && t.staleAfter == c.staleAfter
  {
  }

  lemma SameJobsKeepsInv(s: Store, t: Store, clock: Time, now: Time)
    requires StoreInv(s, clock) && clock <= now
    requires t.jobs == s.jobs && t.shards == s.shards && t.staleAfter == s.staleAfter
    ensures StoreInv(t, now) && StoreEvolves(s, t)
  {
    forall id | id in t.jobs ensures JobInv(t.jobs[id], t.staleAfter, now) {
      JobInvLater(s.jobs[id], s.staleAfter, clock, now);
    }
  }

  /** The job document a single-job transaction leaves behind. */
  ghost function Written(s: Store, op: Op): Job
    requires !op.OpIntent? && !op.OpReceipt? && !op.OpDueQuery? && !op.OpConversation?
    requires op.id in s.jobs
  {
    var j := s.jobs[op.id];
    match op
    case OpResume(now, _) => Resume(j, now)
    case OpClaim(now, _, q) => Claim(j, q, now)
    case OpComplete(now, _, g, e) => Complete(j, g, e, now).0
    case OpFence(now, _, g, e) => Fence(j, g, e, now).0
    case OpClaimFanout(now, id, g, e) => ClaimFanout(j, id, ConversationOf(s, j), g, e, now).0
    case OpCompleteFanout(now, _, g, e) => CompleteFanout(j, g, e, now).0
    case OpRetry(now, _, g, e, code) => Retry(j, g, e, code, s.staleAfter, now).0
    case OpBury(now, _, g, e, retries) => Bury(j, g, e, retries, now).0
    case OpReplay(now, _) => Replay(j, s.staleAfter, now)
    case OpAbandon(now, _, q) => Abandon(j, q, now)
  }

  lemma JobWriteIsGood(s: System, op: Op)
    requires Inv(s) && Enabled(s, op)
    requires !op.OpIntent? && !op.OpReceipt? && !op.OpDueQuery? && !op.OpConversation?
    requires op.id in s.store.jobs
    ensures GoodWrite(s.store, op.id, Written(s.store, op), op.now)
  {
    var j := s.store.jobs[op.id];
    var d := s.store.staleAfter;
    var now := op.now;
    JobInvLater(j, d, s.clock, now);
    match op
    case OpResume(_, _) => RecoveryStepsGood(j, AbandonRequest(Queued, 0, 0, 0), true, d, now);
    case OpClaim(_, _, q) => ClaimGood(j, q, d, now);
    case OpComplete(_, _, g, e) => CompletionStepsGood(j, g, e, d, now);
    case OpFence(_, _, g, e) => CompletionStepsGood(j, g, e, d, now);
    case OpClaimFanout(_, id, g, e) => FanoutStepsGood(j, id, ConversationOf(s.store, j), g, e, d, now);
    case OpCompleteFanout(_, id, g, e) => FanoutStepsGood(j, id, None, g, e, d, now);
    case OpRetry(_, _, g, e, code) => FailureStepsGood(j, g, e, code, 0, d, now);
    case OpBury(_, _, g, e, retries) => FailureStepsGood(j, g, e, "", retries, d, now);
    case OpReplay(_, _) => ReplayGood(j, d, now);
    case OpAbandon(_, _, q) => RecoveryStepsGood(j, q, true, d, now);
  }

  lemma IntentKeepsInv(s: Store, clock: Time, r: IntentRequest, now: Time)
    requires StoreInv(s, clock) && clock <= now && r.shard < SHARD_COUNT
    ensures StoreInv(CreateOrGet(s, r, now).0, now)
    ensures StoreEvolves(s, CreateOrGet(s, r, now).0)
  {
    var t := CreateOrGet(s, r, now).0;
    if CreateOrGet(s, r, now).1.Intent? && CreateOrGet(s, r, now).1.created {
      var c := s.conversations[(r.uid, r.conversation)];
      var id := Derived(r.uid, r.conversation, c.revision + 1);
      var j := NewJob(r.uid, r.conversation, c.revision + 1, r.requiresByok, r.admission.fanoutKey,
                      r.shard, s.staleAfter, now);
      CommitKeepsInv(s, clock, id, j, now);
      SameJobsKeepsInv(Commit(s, id, j), t, now, now);
    } else {
      SameJobsKeepsInv(s, t, clock, now);
    }
  }

  lemma ReceiptKeepsInv(s: Store, clock: Time, uid: string, conversation: string, given: Option<JobId>,
                        eligible: bool, now: Time)
    requires StoreInv(s, clock) && clock <= now
    ensures StoreInv(RecordReceipt(s, uid, conversation, given, eligible, now), now)
    ensures StoreEvolves(s, RecordReceipt(s, uid, conversation, given, eligible, now))
  {
    var t := RecordReceipt(s, uid, conversation, given, eligible, now);
    if t == s {
      SameJobsKeepsInv(s, s, clock, now);
    } else {
      var c := s.conversations[(uid, conversation)];
      var id := ReceiptTarget(c, uid, conversation, given);
      var j := ReceiptWrite(s, c, id, uid, conversation, eligible, now);
      ReceiptWriteIsGood(s, clock, c, id, uid, conversation, eligible, now);
      CommitKeepsInv(s, clock, id, j, now);
      SameJobsKeepsInv(Commit(s, id, j), t, now, now);
    }
  }

  lemma ReceiptWriteIsGood(s: Store, clock: Time, c: Conversation, id: JobId, uid: string, conversation: string,
                           eligible: bool, now: Time)
    requires StoreInv(s, clock) && clock <= now
    ensures GoodWrite(s, id, ReceiptWrite(s, c, id, uid, conversation, eligible, now), now)
  {
    if id in s.jobs {
      JobInvLater(s.jobs[id], s.staleAfter, clock, now);
      RecoveryStepsGood(s.jobs[id], AbandonRequest(Queued, 0, 0, 0), eligible, s.staleAfter, now);
    }
  }

  lemma StepKeepsInv(s: System, op: Op)
    requires Inv(s) && Enabled(s, op)
    ensures Inv(Step(s, op)) && StoreEvolves(s.store, Step(s, op).store)
  {
    EffectKeepsInv(s, op);
    var t := Step(s, op);
    forall id | id in t.due ensures id in t.store.jobs && !t.store.jobs[id].requiresByok {
      if id !in s.due { assert Due(s.store.jobs[id], op.now); }
    }
  }

  lemma {:induction false} RunKeepsInv(s: System, ops: seq<Op>)
    requires Inv(s) && Runs(s, ops)
    ensures Inv(After(s, ops)) && StoreEvolves(s.store, After(s, ops).store)
    ensures s.clock <= After(s, ops).clock
    decreases |ops|
  {
    if ops != [] {
      var t := Step(s, ops[0]);
      StepKeepsInv(s, ops[0]);
      RunKeepsInv(t, ops[1..]);
      StoreEvolvesTransitive(s.store, t.store, After(s, ops).store);
    }
  }

  lemma InitialInv(staleAfter: nat, clock: Time)
    ensures Inv(Initial(staleAfter, clock))
  {
    var s := Initial(staleAfter, clock).store;
    forall k: nat, g: Gauge | k < SHARD_COUNT ensures s.shards[k].At(g) == Population(s.jobs, k, g) {
      assert Members(s.jobs, k, g) == {};
    }
  }

  // ----- main results -----

  /** In every run each shard counter is the number of stamped jobs it names, and the gauges add up. */
  lemma ProjectionIsExact(staleAfter: nat, clock: Time, ops: seq<Op>, k: nat, g: Gauge)
    requires Runs(Initial(staleAfter, clock), ops) && k < SHARD_COUNT
    ensures var s := After(Initial(staleAfter, clock), ops).store;
            && |s.shards| == SHARD_COUNT == 16
            && s.shards[k].At(g) == |set id | id in s.jobs && s.jobs[id].shard == Some(k) && Measures(s.jobs[id], g)|
            && Balanced(s.shards[k])
  {
    InitialInv(staleAfter, clock);
    RunKeepsInv(Initial(staleAfter, clock), ops);
    var s := After(Initial(staleAfter, clock), ops).store;
    assert s.shards[k].At(g) == Population(s.jobs, k, g);
    assert Members(s.jobs, k, g) == set id | id in s.jobs && s.jobs[id].shard == Some(k) && Measures(s.jobs[id], g);
    JobsAreConsistent(s, After(Initial(staleAfter, clock), ops).clock);
    FaithfulIsBalanced(s.shards, s.jobs, k);
  }

  /** The 16-shard summary counts every stamped job exactly once. */
  lemma SummaryIsExact(s: System, g: Gauge)
    requires Inv(s)
    ensures Sum(s.store.shards).At(g) ==
              |set id | id in s.store.jobs && s.store.jobs[id].shard.Some? && Measures(s.store.jobs[id], g)|
    ensures Balanced(Sum(s.store.shards))
  {
    var jobs := s.store.jobs;
    SumCountsStampedJobs(s.store.shards, jobs, g);
    JobsAreConsistent(s.store, s.clock);
    forall k: nat | k < SHARD_COUNT ensures Balanced(s.store.shards[k]) {
      FaithfulIsBalanced(s.store.shards, jobs, k);
    }
    SumBalanced(s.store.shards);
    assert Counted(jobs, SHARD_COUNT, g) == set id | id in jobs && jobs[id].shard.Some? && Measures(jobs[id], g) by {
      assert forall id | id in jobs && jobs[id].shard.Some? :: jobs[id].shard.value < SHARD_COUNT;
    }
  }

  /**
    Lease fencing. Once a token has been superseded, no continuation of the run lets any write that
    presents it change the job: not completion, fencing, retry, burial or either fanout write.
  */
  lemma SupersededTokenNeverActs(s: System, ops: seq<Op>, id: JobId, generation: int, epoch: int,
                                 code: string, retries: int, now: Time)
    requires Inv(s) && Runs(s, ops) && id in s.store.jobs
    requires Superseded(s.store.jobs[id], generation, epoch)
    ensures var t := After(s, ops).store;
            && id in t.jobs && Superseded(t.jobs[id], generation, epoch)
            && CompleteTxn(t, id, generation, epoch, now).0 == t
            && FenceTxn(t, id, generation, epoch, now).0 == t
            && RetryTxn(t, id, generation, epoch, code, now) == (t, false)
            && BuryTxn(t, id, generation, epoch, retries, now) == (t, false)
            && ClaimFanoutTxn(t, id, generation, epoch, now).0 == t
            && CompleteFanoutTxn(t, id, generation, epoch, now).0 == t
  {
    RunKeepsInv(s, ops);
    var t := After(s, ops).store;
    SupersededForever(s.store.jobs[id], t.jobs[id], generation, epoch);
    SupersededIsInert(t.jobs[id], id, ConversationOf(t, t.jobs[id]), generation, epoch, code, retries, t.staleAfter, now);
  }

  /** Two successful claims of one job, anything in between: the later lease epoch is strictly larger and fences the earlier one. */
  lemma ClaimEpochsIncrease(s: System, id: JobId, first: ClaimRequest, now1: Time, ops: seq<Op>, second: ClaimRequest, now2: Time)
    requires Inv(s) && s.clock <= now1
    requires ClaimTxn(s.store, id, first, now1).1.Claimed?
    requires Runs(Step(s, OpClaim(now1, id, first)), ops)
    requires var t := After(Step(s, OpClaim(now1, id, first)), ops);
             t.clock <= now2 && ClaimTxn(t.store, id, second, now2).1.Claimed?
    ensures var t := After(Step(s, OpClaim(now1, id, first)), ops);
            var e1 := ClaimTxn(s.store, id, first, now1).1.epoch;
            var e2 := ClaimTxn(t.store, id, second, now2).1.epoch;
            && e1 < e2
            && Superseded(ClaimTxn(t.store, id, second, now2).0.jobs[id], first.generation, e1)
  {
    var u := Step(s, OpClaim(now1, id, first));
    StepKeepsInv(s, OpClaim(now1, id, first));
    RunKeepsInv(u, ops);
    var t := After(u, ops);
    assert Evolves(u.store.jobs[id], t.store.jobs[id]);
    CommitSupersedes(t.store.jobs[id], second, 0, 0, "", 0, now2, first.generation, u.store.jobs[id].epoch);
  }

  /** How many steps of a run move the job into a terminal status. */
  ghost function TerminalWrites(s: System, ops: seq<Op>, id: JobId): nat
    decreases |ops|
  {
    if ops == [] then 0
    else
      var t := Step(s, ops[0]);
      (if IsTerminal(t, id) && !IsTerminal(s, id) then 1 else 0) + TerminalWrites(t, ops[1..], id)
  }

  ghost predicate IsTerminal(s: System, id: JobId) {
    id in s.store.jobs && Terminal(s.store.jobs[id].status)
  }

  /** Terminal states absorb: over any run at most one write of one worker ends a job, and none follows a terminal. */
  lemma {:induction false} AtMostOneTerminalWrite(s: System, ops: seq<Op>, id: JobId)
    requires Inv(s) && Runs(s, ops)
    ensures TerminalWrites(s, ops, id) <= (if IsTerminal(s, id) then 0 else 1)
    ensures IsTerminal(s, id) ==>
              && IsTerminal(After(s, ops), id)
              && After(s, ops).store.jobs[id].status == s.store.jobs[id].status
              && After(s, ops).store.jobs[id].outcome == s.store.jobs[id].outcome
    decreases |ops|
  {
    if ops != [] {
      var t := Step(s, ops[0]);
      StepKeepsInv(s, ops[0]);
      if IsTerminal(s, id) { assert Evolves(s.store.jobs[id], t.store.jobs[id]); }
      AtMostOneTerminalWrite(t, ops[1..], id);
    }
  }

  /**
    Exactly-once fanout record: once fanout is recorded completed (or the job is terminal), no fanout
    claim by any worker in any continuation returns `claimed`, and the idempotency key never changes.
  */
  lemma SettledFanoutNeverReclaimed(s: System, ops: seq<Op>, id: JobId, generation: int, epoch: int, now: Time)
    requires Inv(s) && Runs(s, ops) && id in s.store.jobs
    requires FanoutSettled(s.store.jobs[id])
    ensures var t := After(s, ops).store;
            && id in t.jobs && FanoutSettled(t.jobs[id])
            && !ClaimFanoutTxn(t, id, generation, epoch, now).1.FanoutClaimed?
            && t.jobs[id].fanoutKey == s.store.jobs[id].fanoutKey
  {
    RunKeepsInv(s, ops);
    var t := After(s, ops).store;
    FanoutSettledForever(s.store.jobs[id], t.jobs[id]);
    FanoutClaimedExactlyWhen(t.jobs[id], id, ConversationOf(t, t.jobs[id]), generation, epoch, now);
  }

  /** A success terminal implies a recorded fanout; a stale one that none was recorded; in every run. */
  lemma TerminalOutcomesAreTruthful(staleAfter: nat, clock: Time, ops: seq<Op>, id: JobId)
    requires Runs(Initial(staleAfter, clock), ops)
    requires id in After(Initial(staleAfter, clock), ops).store.jobs
    ensures var j := After(Initial(staleAfter, clock), ops).store.jobs[id];
            && (Terminal(j.status) <==> j.outcome.Some?)
            && (j.outcome == Some(Success) ==> j.status == Completed && j.fanout == FanoutCompleted)
            && (j.outcome == Some(Stale) ==> j.status == Completed && j.fanout == FanoutFenced)
            && (j.outcome == Some(Failure) <==> j.status == DeadLetter)
  {
    InitialInv(staleAfter, clock);
    RunKeepsInv(Initial(staleAfter, clock), ops);
  }

  /** An open job carries a reconcile instant exactly when it is a platform-key job; BYOK jobs never reach the replay lane. */
  lemma ReconcileInstantMarksPlatformJobs(s: System, ops: seq<Op>, id: JobId)
    requires Inv(s) && Runs(s, ops) && id in After(s, ops).store.jobs
    ensures var t := After(s, ops);
            var j := t.store.jobs[id];
            && (j.reconcileAfter.Some? <==> j.status in {Queued, Leased} && !j.requiresByok)
            && (id in t.due ==> !j.requiresByok)
  {
    RunKeepsInv(s, ops);
  }

  lemma DueQueryThenReplay(s: System, id: JobId, now: Time) returns (t: System)
    requires id in s.store.jobs && s.clock <= now && Due(s.store.jobs[id], now)
    ensures Runs(s, [OpDueQuery(now, {id}), OpReplay(now, id)])
    ensures t == After(s, [OpDueQuery(now, {id}), OpReplay(now, id)])
    ensures id in t.store.jobs && t.store.jobs[id] == Replay(s.store.jobs[id], s.store.staleAfter, now)
  {
    var query := OpDueQuery(now, {id});
    var replay := OpReplay(now, id);
    var s1 := Step(s, query);
    t := Step(s1, replay);
    assert Enabled(s, query) && Enabled(s1, replay);
    assert [query, replay][1..] == [replay] && [replay][1..] == [];
    assert Runs(t, []) && After(t, []) == t;
    assert Runs(s1, [replay]) && After(s1, [replay]) == t;
  }

  /**
    No stranding: whenever the reconcile instant of an open job is due, the due query may return it and
    replaying it really requeues it under the next dispatch generation, superseding every token issued before.
  */
  lemma DueJobsAreRequeued(s: System, id: JobId, now: Time, g: int, e: int) returns (t: System)
    requires Inv(s) && id in s.store.jobs && s.clock <= now
    requires Due(s.store.jobs[id], now) && e <= s.store.jobs[id].epoch
    ensures Runs(s, [OpDueQuery(now, {id}), OpReplay(now, id)])
    ensures t == After(s, [OpDueQuery(now, {id}), OpReplay(now, id)])
    ensures && id in t.store.jobs
            && t.store.jobs[id].status == Queued
            && t.store.jobs[id].generation == s.store.jobs[id].generation + 1
            && t.store.jobs[id].reconcileAfter == Some(now + s.store.staleAfter)
            && Superseded(t.store.jobs[id], g, e)
  {
    var j := s.store.jobs[id];
    JobInvLater(j, s.store.staleAfter, s.clock, now);
    t := DueQueryThenReplay(s, id, now);
    DueIsRequeued(j, s.store.staleAfter, now, g, e);
  }

  /**
    A final failure and a BYOK abandonment never leave the user on `processing`: the bound
    conversation is closed in the same transaction, and a conversation bound elsewhere is untouched.
  */
  lemma FinalWritesCloseTheConversation(s: Store, id: JobId, generation: int, epoch: int, retries: int, q: AbandonRequest, now: Time)
    requires id in s.jobs && s.jobs[id].uid != "" && s.jobs[id].conversation != ""
    ensures var (t, ok) := BuryTxn(s, id, generation, epoch, retries, now);
            var j := s.jobs[id];
            && (ok ==> t.jobs[id].status == DeadLetter && !StillProcessing(ConversationOf(t, j), id, j))
            && (!ok || !StillProcessing(ConversationOf(s, j), id, j) ==> t.conversations == s.conversations)
    ensures var (t, reply) := AbandonTxn(s, id, q, now);
            var j := s.jobs[id];
            && (reply.Abandoned? <==> Abandonable(j, q, now))
            && (reply.Abandoned? ==> t.jobs[id].status == DeadLetter)
            && (reply.Abandoned? && StillProcessing(ConversationOf(t, j), id, j) ==> ConversationOf(s, j).value.deferred)
            && (reply != Abandoned(Closed) ==> t.conversations == s.conversations)
  {
  }
}
