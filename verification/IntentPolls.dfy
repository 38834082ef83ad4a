/**
  What one device poll does to every intent it scans, and what follows over runs of polls: an intent is marked delivered
  without a receipt of the device only because its chat row already exists.
*/
module IntentPolls {
  import opened Wrappers
  import opened IntentLife
  import opened IntentTransactions
  import opened IntentRuns
  import opened IntentAnswers
  import opened IntentStore

  // ----- the fetch loop treats its candidates -----

  /** The chat row decides from the third fetch on. */
  ghost predicate SeenInChat(l: Life, id: IntentId, q: Poll) { Counters(l).fetches >= 2 && id in q.chatRows }

  /**
    A scanned candidate: a deferred one is handed out uncharged; one that waits under this generation is advanced, and
    handed out exactly if that neither delivered nor buried it; any other is passed over.
  */
  ghost predicate Treated(l: Life, m: Life, id: IntentId, q: Poll, handedOut: bool) {
    if id in q.deferred then m == l && handedOut
    else if id.generation != q.generation || !Awaits(l) then m == l && !handedOut
    else
      && Advanced(l, m, id, SeenInChat(l, id, q), q.now)
      && (handedOut <==> m.active == l.active)
  }

  lemma OneCandidate(s: Store, id: IntentId, q: Poll)
    requires id !in q.deferred
    ensures var (t, fetched) := AdvanceTxn(s, id, q.generation, Reconciles(s, id, q), q.now);
            && Treated(Get(s, id), Get(t, id), id, q, fetched.Returned?)
            && t.generation == s.generation && (forall x | x != id :: Get(t, x) == Get(s, x))
  {
    AdvancedExactlyWhen(s, id, q.generation, Reconciles(s, id, q), q.now);
  }

  /**
    The loop treats its candidates in order, each once, until the batch is full: the first `n` of them are treated,
    nothing else changes or is handed out, and it stops early only with a full batch.
  */
  lemma {:induction false} BatchTreats(s: Store, order: seq<IntentId>, k: nat, q: Poll, ready: seq<IntentId>) returns (n: nat)
    requires Distinct(order) && k <= |order| && (|ready| < q.limit || k == |order|)
    requires forall i | k <= i < |order| :: order[i] !in ready
    ensures var (t, answer) := Batch(s, order, k, q, ready);
            && k <= n <= |order| && (n < |order| ==> |answer| >= q.limit)
            && (forall i | k <= i < n :: Treated(Get(s, order[i]), Get(t, order[i]), order[i], q, order[i] in answer))
            && (forall x | x !in order[k..n] :: Get(t, x) == Get(s, x) && (x in answer <==> x in ready))
    decreases |order| - k
  {
    n := k;
    if k < |order| {
      var id := order[k];
      var t, answered := s, true;
      if id !in q.deferred {
        OneCandidate(s, id, q);
        var advanced := AdvanceTxn(s, id, q.generation, Reconciles(s, id, q), q.now);
        t, answered := advanced.0, advanced.1.Returned?;
      }
      var more := if answered then ready + [id] else ready;
      n := k + 1;
      if |more| < q.limit {
        n := BatchTreats(t, order, k + 1, q, more);
        assert id !in order[k + 1..n];
        assert order[k..n] == [id] + order[k + 1..n];
      } else {
        assert order[k..n] == [id];
      }
    }
  }

  // ----- the repair loop treats its dead letters -----

  /** A dead letter that this pass brings back: old by its own copy of the counters and by the attempt document. */
  ghost predicate Returns(l: Life, id: IntentId, g: nat, now: Time) {
    && l.dead.Some? && RepairIsDue(l.dead.value.attempt, now)
    && id.generation == g && TransientReason(l.dead.value.reason)
    && RepairCounters(l).requeues == 0 && RepairIsDue(RepairCounters(l), now)
  }

  ghost predicate Repaired(l: Life, m: Life, id: IntentId, g: nat, now: Time) {
    if Returns(l, id, g, now) then
      m == l.(active := Some(l.dead.value.intent.(state := Ready)), dead := None,
              attempt := Some(RepairCounters(l).(fetches := 0, requeues := 1, rejections := 0, lastRejectionCode := None, lastRejectionAt := None)))
    else m == l
  }

  ghost function ReturnCount(s: Store, order: seq<IntentId>, k: nat, n: nat, g: nat, now: Time): nat
    requires k <= n <= |order|
    decreases n - k
  {
    if k == n then 0 else (if Returns(Get(s, order[k]), order[k], g, now) then 1 else 0) + ReturnCount(s, order, k + 1, n, g, now)
  }

  lemma {:induction false} CountIsOfLives(s: Store, t: Store, order: seq<IntentId>, k: nat, n: nat, g: nat, now: Time)
    requires k <= n <= |order| && forall i | k <= i < n :: Get(s, order[i]) == Get(t, order[i])
    ensures ReturnCount(s, order, k, n, g, now) == ReturnCount(t, order, k, n, g, now)
    decreases n - k
  {
    if k < n { CountIsOfLives(s, t, order, k + 1, n, g, now); }
  }

  lemma OneRepair(s: Store, id: IntentId, g: nat, now: Time)
    ensures var (t, done) := if LooksOld(s, id, now) then RequeueTxn(s, id, g, now) else (s, false);
            && (done <==> Returns(Get(s, id), id, g, now)) && Repaired(Get(s, id), Get(t, id), id, g, now)
            && t.generation == s.generation && (forall x | x != id :: Get(t, x) == Get(s, x))
  {
    RequeuedExactlyWhen(s, id, g, now);
  }

  /** The repair pass brings back every dead letter it can, in order, and stops early only at its limit. */
  lemma {:induction false} RepairTreats(s: Store, order: seq<IntentId>, k: nat, g: nat, limit: nat, now: Time, repaired: nat) returns (n: nat)
    requires Distinct(order) && k <= |order| && repaired <= limit
    ensures var (t, count) := Repair(s, order, k, g, limit, now, repaired);
            && k <= n <= |order| && (n < |order| ==> count == limit)
            && count == repaired + ReturnCount(s, order, k, n, g, now)
            && t.generation == s.generation
            && (forall i | k <= i < n :: Repaired(Get(s, order[i]), Get(t, order[i]), order[i], g, now))
            && (forall x | x !in order[k..n] :: Get(t, x) == Get(s, x))
    decreases |order| - k
  {
    n := k;
    if k < |order| && repaired < limit {
      var id := order[k];
      OneRepair(s, id, g, now);
      var (t, done) := if LooksOld(s, id, now) then RequeueTxn(s, id, g, now) else (s, false);
      n := RepairTreats(t, order, k + 1, g, limit, now, if done then repaired + 1 else repaired);
      assert id !in order[k + 1..n];
      assert order[k..n] == [id] + order[k + 1..n];
      CountIsOfLives(s, t, order, k + 1, n, g, now);
    }
  }

  // ----- one poll -----

  ghost predicate HasArrived(l: Life) { l.active.Some? && l.active.value.state == Delivered }

  /** The window a poll scans: the first candidates, twice as many as it may answer, less the malformed rows it met. */
  lemma WindowIsTwiceTheLimit(candidates: seq<IntentId>, malformed: nat, limit: nat)
    ensures var window := if malformed >= 2 * limit then 0 else 2 * limit - malformed;
            Scanned(candidates, malformed, limit) == if |candidates| <= window then candidates else candidates[..window]
  {
  }

  /**
    What a poll of this generation does to one intent, in its two passes: what the repair pass leaves, and what the
    fetch pass makes of that.
  */
  lemma PollTreats(s: Store, deadLetters: seq<IntentId>, candidates: seq<IntentId>, malformed: nat, q: Poll, id: IntentId)
    returns (between: Life)
    requires Distinct(deadLetters) && Distinct(candidates) && s.generation == q.generation
    ensures var (t, reply) := FetchTxns(s, deadLetters, candidates, malformed, q);
            && reply.Ok?
            && (between == Get(s, id) || Repaired(Get(s, id), between, id, q.generation, q.now))
            && (|| (Get(t, id) == between && id !in reply.value)
                || (id in candidates && Treated(between, Get(t, id), id, q, id in reply.value)))
  {
    var m := RepairTreats(s, deadLetters, 0, q.generation, q.limit, q.now, 0);
    var repaired := Repair(s, deadLetters, 0, q.generation, q.limit, q.now, 0).0;
    between := Get(repaired, id);
    var order := Scanned(candidates, malformed, q.limit);
    var n := BatchTreats(repaired, order, 0, q, []);
    if id in deadLetters[0..m] { var i :| 0 <= i < m && deadLetters[i] == id; }
    if id in order[0..n] {
      var i :| 0 <= i < n && order[i] == id;
      assert candidates[i] == id;
    }
  }

  /**
    A poll marks an intent delivered exactly when it was advanced by that poll, had already been fetched at least twice,
    and its chat row exists. An advanced intent without a row is handed out, or buried by its twentieth fetch.
  */
  lemma PollDeliversExactlySeen(s: Store, deadLetters: seq<IntentId>, candidates: seq<IntentId>, malformed: nat, q: Poll, id: IntentId)
    requires Distinct(deadLetters) && Distinct(candidates) && s.generation == q.generation
    ensures var (t, reply) := FetchTxns(s, deadLetters, candidates, malformed, q);
            var l, m := Get(s, id), Get(t, id);
            && (!HasArrived(l) && HasArrived(m) <==>
                  Awaits(l) && Counters(m).fetches == Counters(l).fetches + 1 && Counters(l).fetches >= 2 && id in q.chatRows)
            && (!HasArrived(l) && HasArrived(m) ==> m.active.value.receipt == Some(Synthetic(id)))
            && (Awaits(l) && l.dead.None? && Counters(m).fetches == Counters(l).fetches + 1 && id !in q.chatRows ==>
                  if Counters(m).fetches < 20 then reply.Ok? && id in reply.value && m.active == l.active
                  else m.active == None && m.dead.Some?)
  {
    var between := PollTreats(s, deadLetters, candidates, malformed, q, id);
  }

  // ----- runs of polls -----

  /** A device poll, or any other operation than the fetches polls make themselves. */
  datatype PollOp =
    | DevicePoll(deadLetters: seq<IntentId>, candidates: seq<IntentId>, malformed: nat, q: Poll)
    | Direct(op: Op)

  ghost predicate WellFormed(p: PollOp) { p.Direct? ==> !p.op.OpAdvance? }

  function PollStep(s: Store, p: PollOp): Store {
    match p
    case DevicePoll(deadLetters, candidates, malformed, q) => FetchTxns(s, deadLetters, candidates, malformed, q).0
    case Direct(op) => Step(s, op)
  }

  function PollRun(s: Store, ps: seq<PollOp>): Store
    decreases |ps|
  {
    if ps == [] then s else PollRun(PollStep(s, ps[0]), ps[1..])
  }

  /** A poll found the chat row of `id`, or a device presented such a receipt itself. */
  ghost predicate Sights(p: PollOp, id: IntentId) {
    match p
    case DevicePoll(_, _, _, q) => id in q.chatRows
    case Direct(op) => op.OpAcknowledge? && op.id == id && op.receipt.Synthetic?
  }

  /** Neither the active document nor the dead letter carries a receipt made up from the chat row. */
  ghost predicate Unsighted(l: Life) {
    && (l.active.Some? && l.active.value.receipt.Some? ==> !l.active.value.receipt.value.Synthetic?)
    && (l.dead.Some? && l.dead.value.intent.receipt.Some? ==> !l.dead.value.intent.receipt.value.Synthetic?)
  }

  lemma {:induction false} BatchKeepsUnsighted(s: Store, order: seq<IntentId>, k: nat, q: Poll, ready: seq<IntentId>, id: IntentId)
    requires id !in q.chatRows && Unsighted(Get(s, id))
    ensures Unsighted(Get(Batch(s, order, k, q, ready).0, id))
    decreases |order| - k
  {
    if k < |order| {
      var x := order[k];
      if x in q.deferred {
        var more := if |ready| < q.limit then ready + [x] else ready;
        if |more| < q.limit { BatchKeepsUnsighted(s, order, k + 1, q, more, id); }
      } else {
        var (t, fetched) := AdvanceTxn(s, x, q.generation, Reconciles(s, x, q), q.now);
        OneCandidate(s, x, q);
        var more := if fetched.Returned? && |ready| < q.limit then ready + [x] else ready;
        if |more| < q.limit { BatchKeepsUnsighted(t, order, k + 1, q, more, id); }
      }
    }
  }

  lemma MoveKeepsUnsighted(l: Life, id: IntentId, m: Move)
    requires CanMove(l, m) && !m.Spend? && !m.Accept? && Unsighted(l)
    ensures Unsighted(Moved(l, id, m))
  {
  }

  lemma DirectKeepsUnsighted(s: Store, op: Op, id: IntentId)
    requires !op.OpAdvance? && !Sights(Direct(op), id) && Unsighted(Get(s, id))
    ensures Unsighted(Get(Step(s, op), id))
  {
    if op.OpAcknowledge? {
      AcknowledgedExactlyWhen(s, op.id, op.receipt, op.generation, op.now);
    } else {
      var m := StepMoves(s, op, id);
      MoveKeepsUnsighted(Get(s, id), id, m);
    }
  }

  lemma PollStepKeepsUnsighted(s: Store, p: PollOp, id: IntentId)
    requires WellFormed(p) && !Sights(p, id) && Unsighted(Get(s, id))
    ensures Unsighted(Get(PollStep(s, p), id))
  {
    match p
    case Direct(op) => DirectKeepsUnsighted(s, op, id);
    case DevicePoll(deadLetters, candidates, malformed, q) =>
      if s.generation == q.generation {
        RepairIsBounded(s, deadLetters, 0, q.generation, q.limit, q.now, 0, id);
        BatchKeepsUnsighted(Repair(s, deadLetters, 0, q.generation, q.limit, q.now, 0).0, Scanned(candidates, malformed, q.limit), 0, q, [], id);
      }
  }

  lemma {:induction false} PollRunKeepsUnsighted(s: Store, ps: seq<PollOp>, id: IntentId)
    requires (forall p | p in ps :: WellFormed(p) && !Sights(p, id)) && Unsighted(Get(s, id))
    ensures Unsighted(Get(PollRun(s, ps), id))
    decreases |ps|
  {
    if ps != [] {
      PollStepKeepsUnsighted(s, ps[0], id);
      PollRunKeepsUnsighted(PollStep(s, ps[0]), ps[1..], id);
    }
  }

  /** In every run of polls and other operations, a receipt made up from the chat row means that some poll saw that row. */
  lemma SyntheticReceiptMeansChatRow(generation: nat, ps: seq<PollOp>, id: IntentId)
    requires forall p | p in ps :: WellFormed(p)
    ensures var s := PollRun(Initial(generation), ps);
            id in s.active && s.active[id].receipt.Some? && s.active[id].receipt.value.Synthetic? ==> exists p :: p in ps && Sights(p, id)
  {
    if forall p | p in ps :: !Sights(p, id) { PollRunKeepsUnsighted(Initial(generation), ps, id); }
  }
}
