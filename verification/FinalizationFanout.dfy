/**
  Who claimed a fanout that is recorded completed, over whole runs, and runs from the empty outbox that show
  where the answers of the two completion writes say less than they seem to.
*/
module FinalizationFanout {
  import opened Wrappers
  import opened FinalizationJob
  import opened FinalizationJobLaws
  import opened FinalizationProjection
  import opened FinalizationOutbox
  import opened FinalizationRuns

  /** This step is a fanout claim of `id` that answers `claimed`. */
  ghost predicate ClaimsFanout(s: Store, op: Op, id: JobId) {
    op.OpClaimFanout? && op.id == id && ClaimFanoutTxn(s, id, op.generation, op.epoch, op.now).1.FanoutClaimed?
  }

  /** Somewhere in the run the fanout of `id` was claimed by the holder of lease epoch `e`. */
  ghost predicate ClaimedUnder(s: System, ops: seq<Op>, id: JobId, e: int)
    decreases |ops|
  {
    ops != [] && ((ClaimsFanout(s.store, ops[0], id) && ops[0].epoch == e) || ClaimedUnder(Step(s, ops[0]), ops[1..], id, e))
  }

  function FanoutEpoch(s: Store, id: JobId): nat { if id in s.jobs then s.jobs[id].fanoutEpoch else 0 }

  lemma IntentLeavesFanoutEpoch(s: Store, r: IntentRequest, now: Time, id: JobId)
    ensures FanoutEpoch(CreateOrGet(s, r, now).0, id) == FanoutEpoch(s, id)
  {
  }

  lemma ReceiptLeavesFanoutEpoch(s: Store, uid: string, conversation: string, given: Option<JobId>, eligible: bool, now: Time, id: JobId)
    ensures FanoutEpoch(RecordReceipt(s, uid, conversation, given, eligible, now), id) == FanoutEpoch(s, id)
  {
  }

  lemma WriteLeavesFanoutEpoch(s: Store, op: Op, id: JobId)
    requires !op.OpIntent? && !op.OpReceipt? && !op.OpDueQuery? && !op.OpConversation? && !ClaimsFanout(s, op, id)
    ensures FanoutEpoch(Effect(s, op), id) == FanoutEpoch(s, id)
  {
    SingleJobEffect(s, op);
    if op.id in s.jobs && op.id == id {
      assert Written(s, op).fanoutEpoch == s.jobs[id].fanoutEpoch;
    }
  }

  /** Only a successful fanout claim writes the fanout epoch, and it writes the epoch of its own lease, which never falls. */
  lemma FanoutEpochMoves(s: System, op: Op, id: JobId)
    requires Inv(s) && Enabled(s, op)
    ensures FanoutEpoch(Step(s, op).store, id) == if ClaimsFanout(s.store, op, id) then op.epoch else FanoutEpoch(s.store, id)
    ensures FanoutEpoch(s.store, id) <= FanoutEpoch(Step(s, op).store, id)
  {
    match op
    case OpIntent(now, r) => IntentLeavesFanoutEpoch(s.store, r, now, id);
    case OpReceipt(now, uid, conversation, given, eligible) =>
      ReceiptLeavesFanoutEpoch(s.store, uid, conversation, given, eligible, now, id);
    case OpDueQuery(_, _) =>
    case OpConversation(_, _, _) =>
    case OpClaimFanout(now, x, g, e) =>
      if ClaimsFanout(s.store, op, id) {
        assert JobInv(s.store.jobs[id], s.store.staleAfter, s.clock);
      } else {
        WriteLeavesFanoutEpoch(s.store, op, id);
      }
    case _ => WriteLeavesFanoutEpoch(s.store, op, id);
  }

  /** The fanout epoch is the greatest epoch under which the fanout was ever claimed. */
  lemma {:induction false} FanoutEpochIsLastClaim(s: System, ops: seq<Op>, id: JobId, e: int)
    requires Inv(s) && Runs(s, ops)
    ensures FanoutEpoch(s.store, id) <= FanoutEpoch(After(s, ops).store, id)
    ensures ClaimedUnder(s, ops, id, e) ==> e <= FanoutEpoch(After(s, ops).store, id)
    ensures FanoutEpoch(After(s, ops).store, id) == e && FanoutEpoch(s.store, id) != e ==> ClaimedUnder(s, ops, id, e)
    decreases |ops|
  {
    if ops != [] {
      FanoutEpochMoves(s, ops[0], id);
      StepKeepsInv(s, ops[0]);
      FanoutEpochIsLastClaim(Step(s, ops[0]), ops[1..], id, e);
    }
  }

  /**
    In every reachable state the current lease may record fanout completed, and that lease had claimed the fanout
    exactly when the stored fanout epoch is its own. An epoch left by an earlier lease, or none, means it did not.
  */
  lemma CompletionWasClaimedIff(staleAfter: nat, clock: Time, ops: seq<Op>, id: JobId, generation: int, epoch: int, now: Time)
    requires Runs(Initial(staleAfter, clock), ops) && id in After(Initial(staleAfter, clock), ops).store.jobs
    requires var j := After(Initial(staleAfter, clock), ops).store.jobs[id];
             IsCurrentLease(j, generation, epoch) && j.fanout != FanoutCompleted
    ensures var s := After(Initial(staleAfter, clock), ops).store;
            && CompleteFanoutTxn(s, id, generation, epoch, now).1
            && (ClaimedUnder(Initial(staleAfter, clock), ops, id, epoch) <==> s.jobs[id].fanoutEpoch == epoch)
  {
    var s := Initial(staleAfter, clock);
    InitialInv(staleAfter, clock);
    RunKeepsInv(s, ops);
    FanoutEpochIsLastClaim(s, ops, id, epoch);
    assert JobInv(After(s, ops).store.jobs[id], staleAfter, After(s, ops).clock);
  }

  // ----- runs from the empty outbox -----

  lemma {:induction false} RunsConcat(s: System, a: seq<Op>, b: seq<Op>)
    requires Runs(s, a) && Runs(After(s, a), b)
    ensures Runs(s, a + b) && After(s, a + b) == After(After(s, a), b)
    decreases |a|
  {
    if a == [] {
      assert a + b == b;
    } else {
      assert (a + b)[1..] == a[1..] + b;
      RunsConcat(Step(s, a[0]), a[1..], b);
    }
  }

  lemma TwoSteps(s: System, a: Op, b: Op) returns (t: System)
    requires Enabled(s, a) && Enabled(Step(s, a), b)
    ensures t == Step(Step(s, a), b)
    ensures Runs(s, [a, b]) && After(s, [a, b]) == t
  {
    t := Step(Step(s, a), b);
    assert [a, b][1..] == [b] && [b][1..] == [];
    assert Runs(t, []) && After(t, []) == t;
    assert Runs(Step(s, a), [b]) && After(Step(s, a), [b]) == t;
  }

  const KEY: ConversationKey := ("u", "c")
  const JOB: JobId := Derived("u", "c", 1)
  const OPEN := Conversation(InProgress, false, false, None, 0, None)
  const BOUND := Conversation(Processing, false, false, Some(JOB), 1, Some(Queued))

  lemma IntentQueues(s: Store, now: Time) returns (r: IntentRequest)
    requires KEY in s.conversations && s.conversations[KEY] == OPEN && JOB !in s.jobs
    ensures r.shard == 0
    ensures var t := CreateOrGet(s, r, now).0;
            && JOB in t.jobs && t.jobs[JOB] == NewJob("u", "c", 1, false, "k", 0, s.staleAfter, now)
            && KEY in t.conversations && t.conversations[KEY] == BOUND
  {
    r := IntentRequest("u", "c", false, true, Admission(true, false, "", "k"), 0);
  }

  /** A conversation is written and finalized: its job is queued and bound to it. */
  lemma QueuedRun(staleAfter: nat) returns (ops: seq<Op>, t: System)
    ensures Runs(Initial(staleAfter, 0), ops) && t == After(Initial(staleAfter, 0), ops)
    ensures t.clock == 0 && JOB in t.store.jobs && t.store.jobs[JOB] == NewJob("u", "c", 1, false, "k", 0, staleAfter, 0)
    ensures KEY in t.store.conversations && t.store.conversations[KEY] == BOUND
    ensures forall op | op in ops :: !op.OpClaimFanout?
  {
    var write := OpConversation(0, KEY, Some(OPEN));
    var s := Step(Initial(staleAfter, 0), write);
    assert KEY in s.store.conversations && s.store.conversations[KEY] == OPEN && JOB !in s.store.jobs;
    var r := IntentQueues(s.store, 0);
    var intent := OpIntent(0, r);
    ops := [write, intent];
    t := TwoSteps(Initial(staleAfter, 0), write, intent);
    assert t.store == CreateOrGet(s.store, r, 0).0;
  }

  /** The job is claimed once: generation one, epoch one, fanout pending. */
  lemma LeasedRun(staleAfter: nat) returns (ops: seq<Op>, t: System)
    ensures Runs(Initial(staleAfter, 0), ops) && t == After(Initial(staleAfter, 0), ops) && t.clock == 0
    ensures JOB in t.store.jobs && KEY in t.store.conversations && t.store.conversations[KEY] == BOUND
    ensures var j := t.store.jobs[JOB];
            IsCurrentLease(j, 1, 1) && j.fanout == FanoutPending && j.uid == "u" && j.conversation == "c" && j.revision == 1
    ensures forall op | op in ops :: !op.OpClaimFanout?
  {
    var before, s := QueuedRun(staleAfter);
    var q := ClaimRequest(1, false, 60, None, None);
    var claim := OpClaim(0, JOB, q);
    t := Step(s, claim);
    ops := before + [claim];
    assert [claim][1..] == [] && Runs(t, []) && After(t, []) == t;
    assert Runs(s, [claim]) && After(s, [claim]) == t;
    RunsConcat(Initial(staleAfter, 0), before, [claim]);
    assert ClaimVerdict(s.store.jobs[JOB], q, 0).Claimed?;
  }

  lemma {:induction false} NoClaimNeverClaimed(s: System, ops: seq<Op>, id: JobId, e: int)
    requires forall op | op in ops :: !op.OpClaimFanout?
    ensures !ClaimedUnder(s, ops, id, e)
    decreases |ops|
  {
    if ops != [] { NoClaimNeverClaimed(Step(s, ops[0]), ops[1..], id, e); }
  }

  /** A job that ends in success although nobody ever claimed its fanout: create, claim, complete the fanout, complete. */
  lemma SuccessWithoutFanoutClaim(staleAfter: nat) returns (ops: seq<Op>, t: System)
    ensures Runs(Initial(staleAfter, 0), ops) && t == After(Initial(staleAfter, 0), ops)
    ensures JOB in t.store.jobs && t.store.jobs[JOB].outcome == Some(Success)
    ensures forall e :: !ClaimedUnder(Initial(staleAfter, 0), ops, JOB, e)
  {
    var before, s := LeasedRun(staleAfter);
    var record, complete := OpCompleteFanout(0, JOB, 1, 1), OpComplete(0, JOB, 1, 1);
    var mid := Step(s, record);
    assert mid.store.jobs[JOB] == CompleteFanout(s.store.jobs[JOB], 1, 1, 0).0;
    t := TwoSteps(s, record, complete);
    assert t.store.jobs[JOB] == Complete(mid.store.jobs[JOB], 1, 1, 0).0;
    ops := before + [record, complete];
    RunsConcat(Initial(staleAfter, 0), before, [record, complete]);
    forall e ensures !ClaimedUnder(Initial(staleAfter, 0), ops, JOB, e) {
      NoClaimNeverClaimed(Initial(staleAfter, 0), ops, JOB, e);
    }
  }

  /** The conversation is discarded under a lease, its fanout claim fences the job off, and the completion write still answers true. */
  lemma CompletionAnswersTrueWhenFenced(staleAfter: nat, now: Time) returns (ops: seq<Op>, t: System)
    ensures Runs(Initial(staleAfter, 0), ops) && t == After(Initial(staleAfter, 0), ops)
    ensures JOB in t.store.jobs && t.store.jobs[JOB].outcome == Some(Stale)
    ensures CompleteTxn(t.store, JOB, 1, 1, now) == (t.store, true)
  {
    var before, s := LeasedRun(staleAfter);
    var discard := OpConversation(0, KEY, Some(BOUND.(discarded := true)));
    var fanout := OpClaimFanout(0, JOB, 1, 1);
    var mid := Step(s, discard);
    assert mid.store.jobs == s.store.jobs;
    t := TwoSteps(s, discard, fanout);
    assert t.store.jobs[JOB] == FencedJob(s.store.jobs[JOB], 0);
    ops := before + [discard, fanout];
    RunsConcat(Initial(staleAfter, 0), before, [discard, fanout]);
  }
}
