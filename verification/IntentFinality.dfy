/** When a delivery or a death is final, exactly, and runs that show where the intent store falls short. */
module IntentFinality {
  import opened Wrappers
  import opened IntentLife
  import opened IntentTransactions
  import opened IntentRuns

  // ----- 1. delivery -----

  ghost predicate IsDelivered(l: Life) { l.active.Some? && l.active.value.state == Delivered }

  /** A delivered intent whose dead letter, if it has one, cannot be revived is never changed again. */
  lemma {:induction false} DeliveredLasts(s: Store, ops: seq<Op>, id: IntentId)
    requires IsDelivered(Get(s, id)) && !Revivable(Get(s, id))
    ensures Get(After(s, ops), id) == Get(s, id)
    decreases |ops|
  {
    if ops != [] {
      var m := StepMoves(s, ops[0], id);
      assert m == Stay;
      DeliveredLasts(Step(s, ops[0]), ops[1..], id);
    }
  }

  /** A dead letter that can be revived really is, by one repair at a late enough instant, over any active intent. */
  lemma RevivableIsRevived(s: Store, id: IntentId) returns (op: Op)
    requires Revivable(Get(s, id))
    ensures After(s, [op]) == Step(s, op) && op.OpRequeue?
    ensures Open(Get(Step(s, op), id)) && id !in Step(s, op).dead
  {
    var l := Get(s, id);
    var now := RepairClock(HydratedDead(l)).value + REPAIR_AGE;
    op := OpRequeue(id, id.generation, now);
    assert [op][1..] == [];
    PutGet(s, id, Requeue(l, now), id);
  }

  /**
    Delivery is final exactly when no revivable dead letter of the same intent was left behind: then nothing ever
    changes it, and otherwise some later operations open it for delivery again.
  */
  lemma RedeliveredIff(s: Store, id: IntentId)
    requires IsDelivered(Get(s, id))
    ensures (exists ops: seq<Op> :: Open(Get(After(s, ops), id))) <==> Revivable(Get(s, id))
    ensures (exists ops: seq<Op> :: Get(After(s, ops), id) != Get(s, id)) <==> Revivable(Get(s, id))
  {
    if Revivable(Get(s, id)) {
      var op := RevivableIsRevived(s, id);
      assert Open(Get(After(s, [op]), id)) && Get(After(s, [op]), id) != Get(s, id);
    } else {
      forall ops: seq<Op> ensures Get(After(s, ops), id) == Get(s, id) { DeliveredLasts(s, ops, id); }
    }
  }

  /**
    Acknowledging an intent with no revivable dead letter is final: in every continuation nothing changes the intent,
    its counters or its accounting, and exactly the matching receipts are answered.
  */
  lemma AcknowledgementIsFinal(s: Store, id: IntentId, receipt: ReceiptId, g: nat, now: Time, ops: seq<Op>)
    requires Open(Get(s, id)) && AcknowledgeTxn(s, id, receipt, g, now).1.Ok? && !Revivable(Get(s, id))
    ensures var (t, reply) := AcknowledgeTxn(s, id, receipt, g, now);
            var after := After(t, ops);
            && Get(after, id) == Get(t, id) && reply.value.receipt == Some(receipt) && reply.value.deliveredAt == Some(now)
            && (forall other, later :: AcknowledgeTxn(after, id, other, g, later) ==
                  (after, if after.generation != g then Err(GenerationMismatch)
                          else if other == receipt || receipt.Synthetic? then Ok(reply.value) else Err(Conflict)))
  {
    var t := AcknowledgeTxn(s, id, receipt, g, now).0;
    PutGet(s, id, Acknowledge(Get(s, id), receipt, now), id);
    DeliveredLasts(t, ops, id);
    assert After(t, ops).active[id] == t.active[id];
  }

  /** An intent that was never minted over its dead letter meets that condition whenever it is open or delivered. */
  lemma CarefulDeliveryIsFinal(generation: nat, ops: seq<Op>, id: IntentId, more: seq<Op>)
    requires Careful(Initial(generation), ops, id)
    ensures var s := After(Initial(generation), ops);
            && (id in s.active ==> !Revivable(Get(s, id)))
            && (id in s.active && s.active[id].state == Delivered ==> Get(After(s, more), id) == Get(s, id))
  {
    RunKeepsLife(Initial(generation), ops, id);
    var s := After(Initial(generation), ops);
    if id in s.active && s.active[id].state == Delivered { DeliveredLasts(s, more, id); }
  }

  // ----- 2. death -----

  /** Dead, with nothing active, and beyond repair. */
  ghost predicate DeadForGood(l: Life) { l.active.None? && l.dead.Some? && !Revivable(l) }

  /** The two creators that do not read dead letters could still mint this id. */
  ghost predicate Remintable(s: Store, id: IntentId) {
    || id.key == ColdStartKey
    || (id.key == KeyOf(DeferralReraise) && !IsReleased(s, DeferralId(id.generation, id.continuity)))
  }

  lemma {:induction false} DeadForGoodLasts(s: Store, ops: seq<Op>, id: IntentId)
    requires DeadForGood(Get(s, id)) && !Remintable(s, id)
    ensures Get(After(s, ops), id) == Get(s, id)
    decreases |ops|
  {
    if ops != [] {
      var m := StepMoves(s, ops[0], id);
      ReleaseIsPermanent(s, ops[0], DeferralId(id.generation, id.continuity));
      assert !Overwrites(s, ops[0], id);
      DeadForGoodLasts(Step(s, ops[0]), ops[1..], id);
    }
  }

  lemma RemintableIsMinted(s: Store, id: IntentId) returns (ops: seq<Op>)
    requires DeadForGood(Get(s, id)) && Remintable(s, id)
    ensures Get(After(s, ops), id).active.Some?
  {
    var turn := OpSetGeneration(id.generation);
    var s1 := Step(s, turn);
    if id.key == ColdStartKey {
      var mint := OpColdStart(false, id.continuity, Blocks(""), id.generation, 0);
      ops := [turn, mint];
      assert ops[1..] == [mint] && [mint][1..] == [];
      var intent := Minted(ColdStartRich, Blocks(""), PendingReceipt, 0);
      PutGet(s1, id, Get(s1, id).(active := Some(intent)), id);
      assert After(s, ops) == After(s1, [mint]) == Step(s1, mint);
    } else {
      var d := DeferralId(id.generation, id.continuity);
      var ask, release := OpRecordDeferral(id.continuity, "", "", id.generation, 0), OpRelease(d, id.generation, 0);
      var s2 := if d in s1.deferrals then s1 else Step(s1, ask);
      ReleaseMints(s2, d);
      if d in s1.deferrals {
        ops := [turn, release];
        assert ops[1..] == [release] && [release][1..] == [];
        assert After(s, ops) == After(s1, [release]) == Step(s1, release);
      } else {
        ops := [turn, ask, release];
        assert ops[1..] == [ask, release] && [ask, release][1..] == [release] && [release][1..] == [];
        assert After(s, ops) == After(s1, [ask, release]) == After(s2, [release]) == Step(s2, release);
      }
    }
  }

  lemma ReleaseMints(s: Store, d: DeferralId)
    requires s.generation == d.generation && d in s.deferrals && s.deferrals[d].state == Waiting && ReraiseId(d) !in s.active
    ensures Get(Step(s, OpRelease(d, d.generation, 0)), ReraiseId(d)).active.Some?
  {
    var op := OpRelease(d, d.generation, 0);
    assert Releases(s, op, d);
    ReleaseRaisesTheQuestion(s, op, d);
  }

  /**
    A permanent rejection, an over-long deferral or a second death is final exactly when neither creator that ignores
    dead letters can mint the intent again: never a cold start, and never a re-raised question still to be released.
  */
  lemma DeadForGoodIff(s: Store, id: IntentId)
    requires DeadForGood(Get(s, id))
    ensures (exists ops: seq<Op> :: Get(After(s, ops), id) != Get(s, id)) <==> Remintable(s, id)
  {
    if Remintable(s, id) {
      var ops := RemintableIsMinted(s, id);
      assert Get(After(s, ops), id) != Get(s, id);
    } else {
      forall ops: seq<Op> ensures Get(After(s, ops), id) == Get(s, id) { DeadForGoodLasts(s, ops, id); }
    }
  }

  // ----- 3. the bounds are reached, and the failures are reachable -----

  function Polls(id: IntentId, now: Time, n: nat): seq<Op> {
    if n == 0 then [] else [OpAdvance(id, id.generation, false, now)] + Polls(id, now, n - 1)
  }

  lemma {:induction false} Concat(s: Store, a: seq<Op>, b: seq<Op>, id: IntentId)
    ensures Advancements(s, a + b, id) == Advancements(s, a, id) + Advancements(After(s, a), b, id)
    ensures Handouts(s, a + b, id) == Handouts(s, a, id) + Handouts(After(s, a), b, id)
    decreases |a|
  {
    if a == [] {
      assert a + b == b;
    } else {
      assert (a + b)[1..] == a[1..] + b;
      Concat(Step(s, a[0]), a[1..], b, id);
    }
  }

  ghost predicate DiedUnacknowledged(s: Store, id: IntentId, requeues: nat, at: Time, rejectedAt: Option<Time>) {
    var l := Get(s, id);
    && l.active.None? && l.dead.Some? && l.attempt.Some?
    && l.attempt.value.requeues == requeues && l.attempt.value.fetches == FETCH_BUDGET && l.attempt.value.lastFetchedAt == Some(at) && l.attempt.value.lastRejectionAt == rejectedAt
    && l.dead.value.reason == (if requeues > 0 then DiedAfterRequeue else Unacknowledged)
  }

  /** Polling an open intent until its budget is gone: every poll but the last hands it out. */
  lemma {:induction false} PollingKills(s: Store, id: IntentId, now: Time, n: nat)
    requires Open(Get(s, id)) && Counters(Get(s, id)).fetches + n == FETCH_BUDGET && 0 < n
    ensures Advancements(s, Polls(id, now, n), id) == n && Handouts(s, Polls(id, now, n), id) == n - 1
    ensures DiedUnacknowledged(After(s, Polls(id, now, n)), id, Counters(Get(s, id)).requeues, now, Counters(Get(s, id)).lastRejectionAt)
    ensures After(s, Polls(id, now, n)).generation == s.generation
    decreases n
  {
    var op := OpAdvance(id, id.generation, false, now);
    var ops := Polls(id, now, n);
    var t := Step(s, op);
    assert ops[0] == op && ops[1..] == Polls(id, now, n - 1);
    PutGet(s, id, Fetch(Get(s, id), id, false, now).0, id);
    if n > 1 {
      PollingKills(t, id, now, n - 1);
    }
  }

  /** Mint, spend the fetch budget, repair, spend it again. */
  function LongestLife(id: IntentId, mint: Op): seq<Op> {
    [mint] + Polls(id, 0, FETCH_BUDGET) + ([OpRequeue(id, id.generation, REPAIR_AGE)] + Polls(id, REPAIR_AGE, FETCH_BUDGET))
  }

  /** One opening operation and the polls that spend the budget it opened. */
  lemma OneLife(s: Store, id: IntentId, open: Op, at: Time)
    requires !open.OpAdvance? && Open(Get(Step(s, open), id)) && Counters(Get(Step(s, open), id)).fetches == 0
    ensures var ops := [open] + Polls(id, at, FETCH_BUDGET);
            var a := Counters(Get(Step(s, open), id));
            && Advancements(s, ops, id) == FETCH_BUDGET && Handouts(s, ops, id) == FETCH_BUDGET - 1
            && DiedUnacknowledged(After(s, ops), id, a.requeues, at, a.lastRejectionAt)
            && After(s, ops).generation == Step(s, open).generation
  {
    PollingKills(Step(s, open), id, at, FETCH_BUDGET);
    SingleStep(s, open, id);
    AfterConcat(s, [open], Polls(id, at, FETCH_BUDGET));
    Concat(s, [open], Polls(id, at, FETCH_BUDGET), id);
  }

  lemma RepairReopens(s: Store, id: IntentId, at: Time)
    requires DiedUnacknowledged(s, id, 0, at, None)
    ensures var t := Step(s, OpRequeue(id, id.generation, at + REPAIR_AGE));
            && Open(Get(t, id)) && t.generation == s.generation
            && Counters(Get(t, id)).fetches == 0 && Counters(Get(t, id)).requeues == 1 && Counters(Get(t, id)).lastRejectionAt.None?
  {
    PutGet(s, id, Requeue(Get(s, id), at + REPAIR_AGE), id);
  }

  lemma TwoLives(s: Store, id: IntentId, mint: Op)
    requires !mint.OpAdvance? && Open(Get(Step(s, mint), id)) && Get(Step(s, mint), id).attempt.None?
    ensures var ops := LongestLife(id, mint);
            && Advancements(s, ops, id) == 40 && Handouts(s, ops, id) == 38
            && DiedUnacknowledged(After(s, ops), id, 1, REPAIR_AGE, None)
            && After(s, ops).generation == Step(s, mint).generation
  {
    var requeue := OpRequeue(id, id.generation, REPAIR_AGE);
    var first, second := [mint] + Polls(id, 0, FETCH_BUDGET), [requeue] + Polls(id, REPAIR_AGE, FETCH_BUDGET);
    OneLife(s, id, mint, 0);
    RepairReopens(After(s, first), id, 0);
    OneLife(After(s, first), id, requeue, REPAIR_AGE);
    AfterConcat(s, first, second);
    Concat(s, first, second, id);
  }

  /** Both bounds of delivery are attained: 40 advancements, 38 of them handed out. */
  lemma BoundsAreAttained(generation: nat, source: Source, continuity: string, content: Content)
    ensures var id := IntentId(generation, KeyOf(source), continuity);
            var ops := LongestLife(id, OpCreate(source, continuity, content, generation, true, 0));
            Advancements(Initial(generation), ops, id) == 40 && Handouts(Initial(generation), ops, id) == 38
  {
    var id := IntentId(generation, KeyOf(source), continuity);
    TwoLives(Initial(generation), id, OpCreate(source, continuity, content, generation, true, 0));
  }

  /** Nothing active, a dead letter, and a fetch budget that is already spent. */
  ghost predicate Exhausted(s: Store, id: IntentId) {
    id !in s.active && id in s.dead && Counters(Get(s, id)).fetches >= FETCH_BUDGET && s.generation == id.generation
  }

  function Remints(id: IntentId, content: Content, n: nat): seq<Op> {
    if n == 0 then []
    else [OpColdStart(false, id.continuity, content, id.generation, 0), OpAdvance(id, id.generation, false, 0)] + Remints(id, content, n - 1)
  }

  /** Each time an exhausted cold start is minted again, it takes exactly one more fetch to bury it. */
  lemma {:induction false} RemintsBuyOneFetchEach(s: Store, id: IntentId, content: Content, n: nat)
    requires id.key == ColdStartKey && Exhausted(s, id)
    ensures Advancements(s, Remints(id, content, n), id) == n && Overwritings(s, Remints(id, content, n), id) == n
    decreases n
  {
    if n > 0 {
      var mint, fetch := OpColdStart(false, id.continuity, content, id.generation, 0), OpAdvance(id, id.generation, false, 0);
      var ops := Remints(id, content, n);
      var s1 := Step(s, mint);
      PutGet(s, id, Get(s, id).(active := Some(Minted(ColdStartRich, content, PendingReceipt, 0))), id);
      var s2 := Step(s1, fetch);
      PutGet(s1, id, Fetch(Get(s1, id), id, false, 0).0, id);
      assert ops[0] == mint && ops[1..][0] == fetch && ops[1..][1..] == Remints(id, content, n - 1);
      RemintsBuyOneFetchEach(s2, id, content, n - 1);
    }
  }

  /** So the bound of the cold start is exact too: for every `n`, some run advances it 40 times and once more per re-minting. */
  lemma RemintBoundIsAttained(generation: nat, continuity: string, content: Content, n: nat) returns (s: Store, ops: seq<Op>, more: seq<Op>)
    ensures var id := ColdStartId(generation, continuity);
            && s == After(Initial(generation), ops)
            && Advancements(Initial(generation), ops, id) == 40
            && Advancements(s, more, id) == n && Overwritings(s, more, id) == n
  {
    var id := ColdStartId(generation, continuity);
    var mint := OpColdStart(false, continuity, content, generation, 0);
    var minted := Get(Initial(generation), id).(active := Some(Minted(ColdStartRich, content, PendingReceipt, 0)));
    PutGet(Initial(generation), id, minted, id);
    ops := LongestLife(id, mint);
    TwoLives(Initial(generation), id, mint);
    s := After(Initial(generation), ops);
    more := Remints(id, content, n);
    RemintsBuyOneFetchEach(s, id, content, n);
  }

  lemma SingleStep(s: Store, op: Op, id: IntentId)
    requires !op.OpAdvance?
    ensures After(s, [op]) == Step(s, op) && Advancements(s, [op], id) == 0 && Handouts(s, [op], id) == 0
  {
    assert [op][1..] == [];
  }

  lemma AfterTwo(s: Store, a: Op, b: Op)
    ensures After(s, [a, b]) == Step(Step(s, a), b)
  {
    assert [a, b][1..] == [b] && [b][1..] == [];
    assert After(s, [a, b]) == After(Step(s, a), [b]);
  }

  lemma {:induction false} AfterConcat(s: Store, a: seq<Op>, b: seq<Op>)
    ensures After(s, a + b) == After(After(s, a), b)
    decreases |a|
  {
    if a == [] {
      assert a + b == b;
    } else {
      assert (a + b)[1..] == a[1..] + b;
      AfterConcat(Step(s, a[0]), a[1..], b);
    }
  }

  /** Minting over a transient dead letter and delivering leaves that dead letter to undo the delivery. */
  lemma DeadColdStartReopens(s: Store, continuity: string, content: Content, receipt: ReceiptId) returns (t: Store)
    requires DiedUnacknowledged(s, ColdStartId(s.generation, continuity), 0, 0, None)
    ensures var g := s.generation;
            var id := ColdStartId(g, continuity);
            && t == Step(Step(s, OpColdStart(false, continuity, content, g, 0)), OpAcknowledge(id, receipt, g, 0))
            && IsDelivered(Get(t, id)) && t.active[id].receipt == Some(receipt) && Revivable(Get(t, id))
  {
    var g := s.generation;
    var id := ColdStartId(g, continuity);
    var s1 := Step(s, OpColdStart(false, continuity, content, g, 0));
    PutGet(s, id, Get(s, id).(active := Some(Minted(ColdStartRich, content, PendingReceipt, 0))), id);
    t := Step(s1, OpAcknowledge(id, receipt, g, 0));
    PutGet(s1, id, Acknowledge(Get(s1, id), receipt, 0), id);
  }

  lemma ColdStartDies(generation: nat, continuity: string, content: Content) returns (ops: seq<Op>, s: Store)
    ensures s == After(Initial(generation), ops) && s.generation == generation
    ensures DiedUnacknowledged(s, ColdStartId(generation, continuity), 0, 0, None)
  {
    var id := ColdStartId(generation, continuity);
    var mint := OpColdStart(false, continuity, content, generation, 0);
    var empty := Initial(generation);
    PutGet(empty, id, Get(empty, id).(active := Some(Minted(ColdStartRich, content, PendingReceipt, 0))), id);
    OneLife(empty, id, mint, 0);
    ops := [mint] + Polls(id, 0, FETCH_BUDGET);
    s := After(empty, ops);
  }

  /** A cold-start opener that died, was minted again and delivered is opened once more by the repair of its old dead letter. */
  lemma ColdStartIsRedelivered(generation: nat, continuity: string, content: Content, receipt: ReceiptId) returns (ops: seq<Op>, repair: Op)
    ensures var id := ColdStartId(generation, continuity);
            var s := After(Initial(generation), ops);
            && id in s.active && s.active[id].state == Delivered && s.active[id].receipt == Some(receipt)
            && id in Step(s, repair).active && Deliverable(Step(s, repair).active[id])
  {
    var id := ColdStartId(generation, continuity);
    var mint, ack := OpColdStart(false, continuity, content, generation, 0), OpAcknowledge(id, receipt, generation, 0);
    var life, s := ColdStartDies(generation, continuity, content);
    var t := DeadColdStartReopens(s, continuity, content, receipt);
    ops := life + [mint, ack];
    AfterConcat(Initial(generation), life, [mint, ack]);
    AfterTwo(s, mint, ack);
    repair := RevivableIsRevived(t, id);
  }

  /** The repair age can pass before the death: an early rejection, twenty late fetches, and repair at the very instant of death. */
  lemma RepairedWithoutWaiting(generation: nat, source: Source, continuity: string, content: Content) returns (ops: seq<Op>, died: Time)
    ensures var id := IntentId(generation, KeyOf(source), continuity);
            var s := After(Initial(generation), ops);
            && id in s.dead && s.dead[id].reason == Unacknowledged && id in s.attempts && s.attempts[id].lastFetchedAt == Some(died)
            && RequeueTxn(s, id, generation, died).1
  {
    var id := IntentId(generation, KeyOf(source), continuity);
    var create := OpCreate(source, continuity, content, generation, true, 0);
    var reject := OpReject(id, "invalid_intent", generation, 0);
    died := REPAIR_AGE;
    var s1 := Step(Initial(generation), create);
    var s2 := Step(s1, reject);
    PutGet(s1, id, Reject(Get(s1, id), "invalid_intent", 0).0, id);
    PollingKills(s2, id, died, FETCH_BUDGET);
    ops := [create, reject] + Polls(id, died, FETCH_BUDGET);
    AfterConcat(Initial(generation), [create, reject], Polls(id, died, FETCH_BUDGET));
    AfterTwo(Initial(generation), create, reject);
  }
}
