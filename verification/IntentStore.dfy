/**
  The intent store as the backend runs it: documents updated in place, the fetch loop and the repair loop.
  Every transaction refines the one of the same name over values.
*/
module IntentStore {
  import opened Wrappers
  import opened IntentLife
  import opened IntentTransactions
  import opened IntentRuns

  const SCAN_MULTIPLIER: nat := 2

  /** Rewriting a document or a count with what is already there is no change. */
  lemma Unwritten<K, V>(m: map<K, V>, k: K)
    ensures Write(m, k, Lookup(m, k)) == m
  {
  }

  lemma Uncounted(m: multiset<IntentId>, id: IntentId)
    ensures m[id := m[id]] == m && m[id := m[id] + 1] == m + multiset{id}
  {
  }

  // ----- the fetch loop, as a function -----

  /** What the poll knows besides the store: which intents the device defers, and which already have a chat row. */
  datatype Poll = Poll(generation: nat, limit: nat, deferred: set<IntentId>, chatRows: set<IntentId>, now: Time)

  predicate Reconciles(s: Store, id: IntentId, q: Poll) {
    Counters(Get(s, id)).fetches >= 2 && id in q.chatRows
  }

  /** The batch from candidate `k` on, `ready` being what was collected so far. */
  function Batch(s: Store, order: seq<IntentId>, k: nat, q: Poll, ready: seq<IntentId>): (Store, seq<IntentId>)
    decreases |order| - k
  {
    if k >= |order| then (s, ready)
    else
      var id := order[k];
      if id in q.deferred then
        var more := if |ready| < q.limit then ready + [id] else ready;
        if |more| >= q.limit then (s, more) else Batch(s, order, k + 1, q, more)
      else
        var (t, fetched) := AdvanceTxn(s, id, q.generation, Reconciles(s, id, q), q.now);
        var more := if fetched.Returned? && |ready| < q.limit then ready + [id] else ready;
        if |more| >= q.limit then (t, more) else Batch(t, order, k + 1, q, more)
  }

  ghost predicate Distinct(order: seq<IntentId>) {
    forall i, j :: 0 <= i < j < |order| ==> order[i] != order[j]
  }

  /** A batch is a run of at most one advancement per candidate: nothing but those transactions happens. */
  lemma {:induction false} BatchIsARun(s: Store, order: seq<IntentId>, k: nat, q: Poll, ready: seq<IntentId>) returns (ops: seq<Op>)
    ensures Batch(s, order, k, q, ready).0 == After(s, ops)
    ensures |ops| <= (if k <= |order| then |order| - k else 0)
    ensures forall op | op in ops :: op.OpAdvance? && op.id in order && op.id !in q.deferred
    decreases |order| - k
  {
    ops := [];
    if k < |order| {
      var id := order[k];
      if id in q.deferred {
        var more := if |ready| < q.limit then ready + [id] else ready;
        if |more| < q.limit { ops := BatchIsARun(s, order, k + 1, q, more); }
      } else {
        var op := OpAdvance(id, q.generation, Reconciles(s, id, q), q.now);
        var (t, fetched) := AdvanceTxn(s, id, q.generation, Reconciles(s, id, q), q.now);
        var more := if fetched.Returned? && |ready| < q.limit then ready + [id] else ready;
        var rest := [];
        if |more| < q.limit { rest := BatchIsARun(t, order, k + 1, q, more); }
        ops := [op] + rest;
        assert ops[1..] == rest;
      }
    }
  }

  /** A batch never charges a deferred intent, nor one it was not given, nor any intent twice. */
  lemma {:induction false} BatchChargesOnce(s: Store, order: seq<IntentId>, k: nat, q: Poll, ready: seq<IntentId>, id: IntentId)
    requires Distinct(order)
    ensures var t := Batch(s, order, k, q, ready).0;
            || Get(t, id) == Get(s, id)
            || (&& id !in q.deferred && Open(Get(s, id)) && (exists i :: k <= i < |order| && order[i] == id)
                && Get(t, id) == Fetch(Get(s, id), id, Reconciles(s, id, q), q.now).0)
    decreases |order| - k
  {
    if k < |order| {
      var x := order[k];
      if x in q.deferred {
        var more := if |ready| < q.limit then ready + [x] else ready;
        if |more| < q.limit { BatchChargesOnce(s, order, k + 1, q, more, id); }
      } else {
        var (t, fetched) := AdvanceTxn(s, x, q.generation, Reconciles(s, x, q), q.now);
        var m := AdvanceMoves(s, x, q.generation, Reconciles(s, x, q), q.now, id);
        var more := if fetched.Returned? && |ready| < q.limit then ready + [x] else ready;
        if |more| < q.limit { BatchChargesOnce(t, order, k + 1, q, more, id); }
      }
    }
  }

  /** The answer is a subsequence of the candidates, in their order, of at most `limit` intents: `at` says which ones. */
  lemma {:induction false} BatchAnswers(s: Store, order: seq<IntentId>, k: nat, q: Poll, ready: seq<IntentId>) returns (at: seq<nat>)
    requires |ready| <= q.limit
    ensures var answer := Batch(s, order, k, q, ready).1;
            && |answer| <= q.limit && |answer| == |ready| + |at| && ready <= answer
            && (forall i | 0 <= i < |at| :: k <= at[i] < |order| && order[at[i]] == answer[|ready| + i])
            && (forall i, j | 0 <= i < j < |at| :: at[i] < at[j])
    decreases |order| - k
  {
    at := [];
    if k < |order| {
      var id := order[k];
      var fetched := AdvanceTxn(s, id, q.generation, Reconciles(s, id, q), q.now);
      var t := if id in q.deferred then s else fetched.0;
      var more := if (id in q.deferred || fetched.1.Returned?) && |ready| < q.limit then ready + [id] else ready;
      if |more| < q.limit { at := BatchAnswers(t, order, k + 1, q, more); }
      if more != ready { at := [k] + at; }
    }
  }

  /** The scan window: twice the limit, less what malformed rows already used. */
  function Scanned(candidates: seq<IntentId>, malformed: nat, limit: nat): (order: seq<IntentId>)
    ensures |order| <= SCAN_MULTIPLIER * limit && order <= candidates
  {
    var window := SCAN_MULTIPLIER * limit;
    var left := if malformed < window then window - malformed else 0;
    if |candidates| <= left then candidates else candidates[..left]
  }

  // ----- the repair loop, as a function -----

  /** The dead letter looks old enough by its own copy of the counters. */
  predicate LooksOld(s: Store, id: IntentId, now: Time) {
    id in s.dead && RepairClock(s.dead[id].attempt).Some? && now - RepairClock(s.dead[id].attempt).value >= REPAIR_AGE
  }

  function Repair(s: Store, order: seq<IntentId>, k: nat, generation: nat, limit: nat, now: Time, repaired: nat): (Store, nat)
    decreases |order| - k
  {
    if k >= |order| || repaired >= limit then (s, repaired)
    else if !LooksOld(s, order[k], now) then Repair(s, order, k + 1, generation, limit, now, repaired)
    else
      var (t, done) := RequeueTxn(s, order[k], generation, now);
      Repair(t, order, k + 1, generation, limit, now, if done then repaired + 1 else repaired)
  }

  lemma {:induction false} RepairIsBounded(s: Store, order: seq<IntentId>, k: nat, generation: nat, limit: nat, now: Time, repaired: nat, id: IntentId)
    requires repaired <= limit
    ensures var (t, n) := Repair(s, order, k, generation, limit, now, repaired);
            && repaired <= n <= limit
            && (|| Get(t, id) == Get(s, id)
                || (&& Repairable(Get(s, id), now) && Get(t, id) == Requeue(Get(s, id), now)))
    decreases |order| - k
  {
    if k < |order| && repaired < limit {
      if !LooksOld(s, order[k], now) {
        RepairIsBounded(s, order, k + 1, generation, limit, now, repaired, id);
      } else {
        var (t, done) := RequeueTxn(s, order[k], generation, now);
        var m := RequeueMoves(s, order[k], generation, now, id);
        RepairIsBounded(t, order, k + 1, generation, limit, now, if done then repaired + 1 else repaired, id);
      }
    }
  }

  /** The transactions of one device poll, given what its two queries yield. */
  function FetchTxns(s: Store, deadLetters: seq<IntentId>, candidates: seq<IntentId>, malformed: nat, q: Poll)
    : (Store, Result<seq<IntentId>>)
  {
    if s.generation != q.generation then (s, Err(GenerationMismatch))
    else
      var repaired := Repair(s, deadLetters, 0, q.generation, q.limit, q.now, 0).0;
      var (t, ready) := Batch(repaired, Scanned(candidates, malformed, q.limit), 0, q, []);
      (t, Ok(ready))
  }

  /** A poll under another generation changes nothing; any other answers at most `limit` intents and brings a life back only by repair. */
  lemma PollIsFencedAndBounded(s: Store, deadLetters: seq<IntentId>, candidates: seq<IntentId>, malformed: nat, q: Poll, id: IntentId)
    requires Distinct(candidates)
    ensures var (t, reply) := FetchTxns(s, deadLetters, candidates, malformed, q);
            && (reply.Err? <==> s.generation != q.generation) && (reply.Err? ==> t == s)
            && (reply.Ok? ==> |reply.value| <= q.limit)
            && (Open(Get(t, id)) && !Open(Get(s, id)) ==> Repairable(Get(s, id), q.now))
  {
    if s.generation == q.generation {
      var repaired := Repair(s, deadLetters, 0, q.generation, q.limit, q.now, 0).0;
      var order := Scanned(candidates, malformed, q.limit);
      RepairIsBounded(s, deadLetters, 0, q.generation, q.limit, q.now, 0, id);
      BatchChargesOnce(repaired, order, 0, q, [], id);
      var at := BatchAnswers(repaired, order, 0, q, []);
    }
  }

  class Documents {
    var generation: nat
    var active: map<IntentId, Intent>
    var attempts: map<IntentId, Attempt>
    var dead: map<IntentId, Dead>
    var deferrals: map<DeferralId, Deferral>
    ghost var reserved: multiset<IntentId>
    ghost var accounted: multiset<IntentId>

    ghost function State(): Store
      reads this
    {
      Store(generation, active, attempts, dead, deferrals, reserved, accounted)
    }

    constructor (generation: nat)
      ensures State() == Initial(generation)
    {
      this.generation := generation;
      active, attempts, dead, deferrals := map[], map[], map[], map[];
      reserved, accounted := multiset{}, multiset{};
    }

    ghost method Untouch(id: IntentId)
      ensures Write(active, id, Lookup(active, id)) == active
      ensures Write(attempts, id, Lookup(attempts, id)) == attempts
      ensures Write(dead, id, Lookup(dead, id)) == dead
      ensures reserved[id := reserved[id]] == reserved && reserved[id := reserved[id] + 1] == reserved + multiset{id}
      ensures accounted[id := accounted[id]] == accounted && accounted[id := accounted[id] + 1] == accounted + multiset{id}
    {
      Unwritten(active, id);
      Unwritten(attempts, id);
      Unwritten(dead, id);
      Uncounted(reserved, id);
      Uncounted(accounted, id);
    }

    method CreateIntent(source: Source, continuity: string, content: Content, accountGeneration: nat, budgetOk: bool, now: Time)
      returns (reply: Result<(IntentId, bool)>)
      modifies this
      ensures (State(), reply) == CreateTxn(old(State()), source, continuity, content, accountGeneration, budgetOk, now)
    {
      var id := IntentId(accountGeneration, KeyOf(source), continuity);
      if generation != accountGeneration { return Err(GenerationMismatch); }
      if id in active {
        if active[id].source != source || active[id].content != content { return Err(Conflict); }
        return Ok((id, false));
      }
      if id in dead {
        if dead[id].intent.source != source || dead[id].intent.content != content { return Err(Conflict); }
        return Ok((id, false));
      }
      Untouch(id);
      var intent := Minted(source, content, Ready, now);
      if ConsumesBudget(intent) {
        if !budgetOk { return Err(BudgetExhausted); }
        reserved := reserved + multiset{id};
      }
      active := active[id := intent];
      return Ok((id, true));
    }

    method GetOrCreateColdStart(sparse: bool, continuity: string, content: Content, accountGeneration: nat, now: Time)
      returns (reply: Result<(IntentId, bool)>)
      modifies this
      ensures (State(), reply) == ColdStartTxn(old(State()), sparse, continuity, content, accountGeneration, now)
    {
      var id := ColdStartId(accountGeneration, continuity);
      if generation != accountGeneration { return Err(GenerationMismatch); }
      if id in active {
        if active[id].source != ColdStartRich && active[id].source != ColdStartSparse { return Err(Conflict); }
        return Ok((id, false));
      }
      Untouch(id);
      active := active[id := Minted(ColdStartSource(sparse), content, PendingReceipt, now)];
      return Ok((id, true));
    }

    /** Move an intent, with its counters, out of the active documents. */
    method MoveToDeadLetters(id: IntentId, a: Attempt, reason: Reason, at: Time)
      requires id in active
      modifies this
      ensures State() == Put(old(State()), id, Buried(Get(old(State()), id), a, reason, at))
    {
      Untouch(id);
      var kept := if a.lastFetchedAt.None? then a.(lastFetchedAt := Some(at)) else a;
      dead := dead[id := Dead(active[id].(state := DeadLetter(reason)), kept, reason)];
      active := active - {id};
      attempts := attempts[id := a];
    }

    method ReadAttempt(id: IntentId) returns (a: Attempt)
      ensures a == Counters(Get(State(), id))
    {
      a := if id in attempts then attempts[id] else FRESH;
    }

    method AdvanceFetched(id: IntentId, accountGeneration: nat, reconcile: bool, now: Time) returns (fetched: Fetched)
      modifies this
      ensures (State(), fetched) == AdvanceTxn(old(State()), id, accountGeneration, reconcile, now)
    {
      if id !in active { return Untouched; }
      var i := active[id];
      if id.generation != accountGeneration || !(i.state == Ready || i.state == PendingReceipt) { return Untouched; }
      Untouch(id);
      var was := ReadAttempt(id);
      var a := was.(fetches := was.fetches + 1, lastFetchedAt := Some(now));
      if reconcile {
        if ConsumesBudget(i) { accounted := accounted + multiset{id}; }
        active := active[id := i.(state := Delivered, deliveredAt := Some(now), receipt := Some(Synthetic(id)))];
        attempts := attempts[id := a];
        return Reconciled;
      }
      if a.fetches >= FETCH_BUDGET {
        var reason := if a.requeues > 0 then DiedAfterRequeue else Unacknowledged;
        MoveToDeadLetters(id, a, reason, now);
        return Died(reason);
      }
      attempts := attempts[id := a];
      return Returned(i);
    }

    method RecordRejection(id: IntentId, code: string, accountGeneration: nat, now: Time) returns (reply: Result<Option<Reason>>)
      modifies this
      ensures (State(), reply) == RejectTxn(old(State()), id, code, accountGeneration, now)
    {
      if generation != accountGeneration { return Err(GenerationMismatch); }
      if id !in active { return Ok(None); }
      if id.generation != accountGeneration { return Err(DocumentMismatch); }
      Untouch(id);
      if !Deliverable(active[id]) || !PermanentCode(code) { return Ok(None); }
      var was := ReadAttempt(id);
      var a := was.(rejections := was.rejections + 1, lastRejectionCode := Some(code), lastRejectionAt := Some(now));
      if a.rejections >= REJECTION_BUDGET {
        MoveToDeadLetters(id, a, PermanentRejection(code), now);
        return Ok(Some(PermanentRejection(code)));
      }
      attempts := attempts[id := a];
      return Ok(None);
    }

    method RecordDeferralOf(id: IntentId, accountGeneration: nat, now: Time) returns (reply: Result<bool>)
      modifies this
      ensures (State(), reply) == DeferTxn(old(State()), id, accountGeneration, now)
    {
      if generation != accountGeneration { return Err(GenerationMismatch); }
      if id !in active { return Ok(false); }
      if id.generation != accountGeneration { return Err(DocumentMismatch); }
      if !Deliverable(active[id]) { return Ok(false); }
      Untouch(id);
      var was := ReadAttempt(id);
      var first := if was.firstDeferredAt.Some? then was.firstDeferredAt.value else now;
      var a := was.(firstDeferredAt := Some(first), lastDeferralAt := Some(now));
      if now - first >= DEFERRAL_BUDGET {
        MoveToDeadLetters(id, a, DeferredBeyondBudget, now);
        return Ok(true);
      }
      attempts := attempts[id := a];
      return Ok(false);
    }

    /** The writes of an acknowledgement: the receipt, the budget account, and the spent return of a salvaged row. */
    method Deliver(id: IntentId, receipt: ReceiptId, now: Time) returns (delivered: Intent)
      requires id in active && Acknowledgeable(Get(State(), id))
      modifies this
      ensures State() == Put(old(State()), id, Acknowledge(Get(old(State()), id), receipt, now))
      ensures id in active && delivered == active[id]
    {
      Untouch(id);
      var i := active[id];
      if i.state.DeadLetter? {
        var a := if id in attempts then attempts[id] else FRESH;
        attempts := attempts[id := a.(requeues := 1)];
      }
      delivered := i.(state := Delivered, deliveredAt := Some(now), receipt := Some(receipt));
      if ConsumesBudget(i) { accounted := accounted + multiset{id}; }
      active := active[id := delivered];
    }

    method AcknowledgeMaterialization(id: IntentId, receipt: ReceiptId, accountGeneration: nat, now: Time) returns (reply: Result<Intent>)
      modifies this
      ensures (State(), reply) == AcknowledgeTxn(old(State()), id, receipt, accountGeneration, now)
    {
      if generation != accountGeneration { return Err(GenerationMismatch); }
      if id !in active { return Err(NotReady); }
      if id.generation != accountGeneration { return Err(DocumentMismatch); }
      var i := active[id];
      if i.state == Delivered {
        if !SameReceipt(i, receipt) { return Err(Conflict); }
        return Ok(i);
      }
      var requeues := if id in attempts then attempts[id].requeues else 0;
      var repair := i.state.DeadLetter? && Transient(i.state.reason) && requeues == 0;
      if i.state.DeadLetter? && !repair { return Ok(i); }
      var delivered := Deliver(id, receipt, now);
      return Ok(delivered);
    }

    method RequeueTransient(id: IntentId, accountGeneration: nat, now: Time) returns (requeued: bool)
      modifies this
      ensures (State(), requeued) == RequeueTxn(old(State()), id, accountGeneration, now)
    {
      if id !in dead { return false; }
      var d := dead[id];
      var a := if id in attempts then attempts[id] else d.attempt;
      if id.generation != accountGeneration || !Transient(d.reason) || a.requeues != 0 { return false; }
      var terminalAt := RepairClock(a);
      if terminalAt.None? || now - terminalAt.value < REPAIR_AGE { return false; }
      Untouch(id);
      active := active[id := d.intent.(state := Ready)];
      attempts := attempts[id := a.(fetches := 0, requeues := 1, rejections := 0, lastRejectionCode := None, lastRejectionAt := None)];
      dead := dead - {id};
      return true;
    }

    /** Repair at most `limit` of the dead letters the query yields, in its order. */
    method RepairTransient(order: seq<IntentId>, accountGeneration: nat, limit: nat, now: Time) returns (repaired: nat)
      modifies this
      ensures (State(), repaired) == Repair(old(State()), order, 0, accountGeneration, limit, now, 0)
    {
      repaired := 0;
      var k := 0;
      while k < |order|
        invariant 0 <= k <= |order|
        invariant Repair(old(State()), order, 0, accountGeneration, limit, now, 0) ==
                    Repair(State(), order, k, accountGeneration, limit, now, repaired)
      {
        if repaired >= limit { break; }
        var id := order[k];
        k := k + 1;
        if id !in dead { continue; }
        var terminalAt := RepairClock(dead[id].attempt);
        if terminalAt.None? || now - terminalAt.value < REPAIR_AGE { continue; }
        var done := RequeueTransient(id, accountGeneration, now);
        if done { repaired := repaired + 1; }
      }
    }

    /** Advance the candidates in order until `limit` intents are ready; a deferred one is returned without being charged. */
    method AdvanceBatch(order: seq<IntentId>, q: Poll) returns (ready: seq<IntentId>)
      modifies this
      ensures (State(), ready) == Batch(old(State()), order, 0, q, [])
    {
      ready := [];
      var k := 0;
      while k < |order|
        invariant 0 <= k <= |order|
        invariant Batch(old(State()), order, 0, q, []) == Batch(State(), order, k, q, ready)
      {
        var id := order[k];
        if id in q.deferred {
          if |ready| < q.limit { ready := ready + [id]; }
          if |ready| >= q.limit { return; }
          k := k + 1;
          continue;
        }
        var a := ReadAttempt(id);
        var fetched := AdvanceFetched(id, q.generation, a.fetches >= 2 && id in q.chatRows, q.now);
        if fetched.Returned? && |ready| < q.limit { ready := ready + [id]; }
        if |ready| >= q.limit { return; }
        k := k + 1;
      }
    }

    /** One device poll: the generation fence, the repair pass, then the batch within its scan window. */
    method FetchReadyBatch(deadLetters: seq<IntentId>, candidates: seq<IntentId>, malformed: nat, q: Poll)
      returns (reply: Result<seq<IntentId>>)
      modifies this
      ensures (State(), reply) == FetchTxns(old(State()), deadLetters, candidates, malformed, q)
    {
      if generation != q.generation { return Err(GenerationMismatch); }
      var repaired := RepairTransient(deadLetters, q.generation, q.limit, q.now);
      var ready := AdvanceBatch(Scanned(candidates, malformed, q.limit), q);
      return Ok(ready);
    }

    method RecordDeferral(continuity: string, subject: string, question: string, accountGeneration: nat, now: Time) returns (reply: Result<bool>)
      modifies this
      ensures (State(), reply) == RecordDeferralTxn(old(State()), continuity, subject, question, accountGeneration, now)
    {
      var d := DeferralId(accountGeneration, continuity);
      if generation != accountGeneration { return Err(GenerationMismatch); }
      if d in deferrals {
        if deferrals[d].subject != subject || deferrals[d].question != question { return Err(Conflict); }
        return Ok(false);
      }
      deferrals := deferrals[d := Deferral(subject, question, now + DEFERRAL_DUE_AFTER, Waiting)];
      return Ok(true);
    }

    method ReleaseDeferral(d: DeferralId, accountGeneration: nat, now: Time) returns (reply: Result<Option<IntentId>>)
      modifies this
      ensures (State(), reply) == ReleaseTxn(old(State()), d, accountGeneration, now)
    {
      if generation != accountGeneration { return Err(GenerationMismatch); }
      if d !in deferrals { return Ok(None); }
      var current := deferrals[d];
      if d.generation != accountGeneration || current.state != Waiting { return Ok(None); }
      var id := ReraiseId(d);
      Untouch(id);
      if id in active {
        if active[id].source != DeferralReraise { return Err(Conflict); }
      } else {
        active := active[id := Minted(DeferralReraise, Reasked(current.question, d), Ready, now)];
      }
      deferrals := deferrals[d := current.(state := Released(id))];
      return Ok(Some(id));
    }
  }
}
