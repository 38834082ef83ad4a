/** What every run of the intent store keeps: bounded delivery, one final delivery, dead letters that stay dead. */
module IntentRuns {
  import opened Wrappers
  import opened IntentLife
  import opened IntentTransactions

  lemma PutGet(s: Store, id: IntentId, l: Life, x: IntentId)
    ensures Get(Put(s, id, l), x) == if x == id then l else Get(s, x)
  {
  }

  /** A cold start or a release mints `id` although its dead letter still exists. */
  ghost predicate Overwrites(s: Store, op: Op, id: IntentId) {
    && id !in s.active && id in s.dead
    && match op
       case OpColdStart(_, continuity, _, g, _) => id == ColdStartId(g, continuity) && s.generation == g
       case OpRelease(d, g, _) =>
         id == ReraiseId(d) && s.generation == g && d.generation == g && d in s.deferrals && s.deferrals[d].state == Waiting
       case _ => false
  }

  /** A run in which `id` is never minted over its own dead letter. */
  ghost predicate Careful(s: Store, ops: seq<Op>, id: IntentId)
    decreases |ops|
  {
    ops == [] || (!Overwrites(s, ops[0], id) && Careful(Step(s, ops[0]), ops[1..], id))
  }

  /** What one step can do to one intent. */
  datatype Move = Stay | Mint(intent: Intent) | Spend(reconcile: bool, now: Time) | Refuse(code: string, now: Time)
                | Postpone(now: Time) | Accept(receipt: ReceiptId, now: Time) | Revive(now: Time)

  ghost predicate CanMove(l: Life, m: Move) {
    match m
    case Stay => true
    case Mint(i) => l.active.None? && Deliverable(i) && i.receipt.None?
    case Revive(now) => Repairable(l, now)
    case Accept(_, _) => Acknowledgeable(l)
    case _ => Open(l)
  }

  ghost function Moved(l: Life, id: IntentId, m: Move): Life
    requires CanMove(l, m)
  {
    match m
    case Stay => l
    case Mint(i) => l.(active := Some(i), reserved := if ConsumesBudget(i) then l.reserved + 1 else l.reserved)
    case Spend(reconcile, now) => Fetch(l, id, reconcile, now).0
    case Refuse(code, now) => Reject(l, code, now).0
    case Postpone(now) => Defer(l, now).0
    case Accept(receipt, now) => Acknowledge(l, receipt, now)
    case Revive(now) => Requeue(l, now)
  }

  ghost predicate Advances(s: Store, op: Op, id: IntentId) {
    op.OpAdvance? && op.id == id && !AdvanceTxn(s, id, op.generation, op.reconcile, op.now).1.Untouched?
  }

  ghost predicate Returns(s: Store, op: Op, id: IntentId) {
    op.OpAdvance? && op.id == id && AdvanceTxn(s, id, op.generation, op.reconcile, op.now).1.Returned?
  }

  ghost predicate IsMove(l: Life, id: IntentId, m: Move, after: Life) {
    CanMove(l, m) && after == Moved(l, id, m)
  }

  /** An id says where its intent comes from. */
  predicate Sourced(id: IntentId, i: Intent) {
    match id.key
    case KeyOf(source) => i.source == source
    case ColdStartKey => i.source == ColdStartRich || i.source == ColdStartSparse
  }

  // Each transaction, as a move of one intent.

  lemma CreateMoves(s: Store, source: Source, continuity: string, content: Content, g: nat, ok: bool, now: Time, id: IntentId)
    returns (m: Move)
    ensures IsMove(Get(s, id), id, m, Get(CreateTxn(s, source, continuity, content, g, ok, now).0, id))
    ensures m.Stay? || (m.Mint? && Get(s, id).dead.None? && Sourced(id, m.intent))
  {
    var x := IntentId(g, KeyOf(source), continuity);
    var intent := Minted(source, content, Ready, now);
    var l := Get(s, x);
    PutGet(s, x, l.(active := Some(intent), reserved := if ConsumesBudget(intent) then l.reserved + 1 else l.reserved), id);
    m := if CreateTxn(s, source, continuity, content, g, ok, now).1 == Ok((id, true)) then Mint(intent) else Stay;
  }

  lemma ColdStartMoves(s: Store, sparse: bool, continuity: string, content: Content, g: nat, now: Time, id: IntentId)
    returns (m: Move)
    ensures IsMove(Get(s, id), id, m, Get(ColdStartTxn(s, sparse, continuity, content, g, now).0, id))
    ensures m.Stay? || (m.Mint? && Sourced(id, m.intent) && (Get(s, id).dead.Some? ==> Overwrites(s, OpColdStart(sparse, continuity, content, g, now), id)))
  {
    var x := ColdStartId(g, continuity);
    var intent := Minted(ColdStartSource(sparse), content, PendingReceipt, now);
    PutGet(s, x, Get(s, x).(active := Some(intent)), id);
    m := if s.generation == g && id == x && x !in s.active then Mint(intent) else Stay;
  }

  lemma ReleaseMoves(s: Store, d: DeferralId, g: nat, now: Time, id: IntentId) returns (m: Move)
    ensures IsMove(Get(s, id), id, m, Get(ReleaseTxn(s, d, g, now).0, id))
    ensures m.Stay? || (m.Mint? && Sourced(id, m.intent) && (Get(s, id).dead.Some? ==> Overwrites(s, OpRelease(d, g, now), id)))
  {
    var x := ReraiseId(d);
    m := Stay;
    if s.generation == g && d in s.deferrals && d.generation == g && s.deferrals[d].state == Waiting {
      var intent := Minted(DeferralReraise, Reasked(s.deferrals[d].question, d), Ready, now);
      var l := Get(s, x);
      PutGet(s, x, if l.active.Some? then l else l.(active := Some(intent)), id);
      if id == x && id !in s.active { m := Mint(intent); }
    }
  }

  lemma AdvanceMoves(s: Store, x: IntentId, g: nat, reconcile: bool, now: Time, id: IntentId) returns (m: Move)
    ensures IsMove(Get(s, id), id, m, Get(AdvanceTxn(s, x, g, reconcile, now).0, id))
    ensures m == if Advances(s, OpAdvance(x, g, reconcile, now), id) then Spend(reconcile, now) else Stay
  {
    m := Stay;
    if x.generation == g && Open(Get(s, x)) {
      PutGet(s, x, Fetch(Get(s, x), x, reconcile, now).0, id);
      if x == id { m := Spend(reconcile, now); }
    }
  }

  lemma RejectMoves(s: Store, x: IntentId, code: string, g: nat, now: Time, id: IntentId) returns (m: Move)
    ensures IsMove(Get(s, id), id, m, Get(RejectTxn(s, x, code, g, now).0, id)) && (m.Stay? || m.Refuse?)
  {
    m := Stay;
    if s.generation == g && x.generation == g && Open(Get(s, x)) {
      PutGet(s, x, Reject(Get(s, x), code, now).0, id);
      if x == id { m := Refuse(code, now); }
    }
  }

  lemma DeferMoves(s: Store, x: IntentId, g: nat, now: Time, id: IntentId) returns (m: Move)
    ensures IsMove(Get(s, id), id, m, Get(DeferTxn(s, x, g, now).0, id)) && (m.Stay? || m.Postpone?)
  {
    m := Stay;
    if s.generation == g && x.generation == g && Open(Get(s, x)) {
      PutGet(s, x, Defer(Get(s, x), now).0, id);
      if x == id { m := Postpone(now); }
    }
  }

  lemma AcknowledgeMoves(s: Store, x: IntentId, receipt: ReceiptId, g: nat, now: Time, id: IntentId) returns (m: Move)
    ensures IsMove(Get(s, id), id, m, Get(AcknowledgeTxn(s, x, receipt, g, now).0, id)) && (m.Stay? || m.Accept?)
  {
    m := Stay;
    if s.generation == g && x.generation == g && Acknowledgeable(Get(s, x)) {
      PutGet(s, x, Acknowledge(Get(s, x), receipt, now), id);
      if x == id { m := Accept(receipt, now); }
    }
  }

  lemma RequeueMoves(s: Store, x: IntentId, g: nat, now: Time, id: IntentId) returns (m: Move)
    ensures IsMove(Get(s, id), id, m, Get(RequeueTxn(s, x, g, now).0, id)) && (m.Stay? || (m.Revive? && x == id))
  {
    m := Stay;
    if x.generation == g && Repairable(Get(s, x), now) {
      PutGet(s, x, Requeue(Get(s, x), now), id);
      if x == id { m := Revive(now); }
    }
  }

  lemma StepMoves(s: Store, op: Op, id: IntentId) returns (m: Move)
    ensures IsMove(Get(s, id), id, m, Get(Step(s, op), id))
    ensures m.Mint? ==> Sourced(id, m.intent) && (Get(s, id).dead.Some? ==> Overwrites(s, op, id))
    ensures Advances(s, op, id) ==> m == Spend(op.reconcile, op.now)
    ensures m.Spend? ==> Advances(s, op, id)
    ensures m.Accept? ==> op.OpAcknowledge?
  {
    match op
    case OpCreate(source, continuity, content, g, ok, now) => m := CreateMoves(s, source, continuity, content, g, ok, now, id);
    case OpColdStart(sparse, continuity, content, g, now) => m := ColdStartMoves(s, sparse, continuity, content, g, now, id);
    case OpRelease(d, g, now) => m := ReleaseMoves(s, d, g, now, id);
    case OpAdvance(x, g, reconcile, now) => m := AdvanceMoves(s, x, g, reconcile, now, id);
    case OpReject(x, code, g, now) => m := RejectMoves(s, x, code, g, now, id);
    case OpDefer(x, g, now) => m := DeferMoves(s, x, g, now, id);
    case OpAcknowledge(x, receipt, g, now) => m := AcknowledgeMoves(s, x, receipt, g, now, id);
    case OpRequeue(x, g, now) => m := RequeueMoves(s, x, g, now, id);
    case _ => m := Stay;
  }

  /** Each step keeps the life invariant of every intent it does not mint over a dead letter. */
  lemma StepKeepsLife(s: Store, op: Op, id: IntentId)
    requires LifeInv(Get(s, id)) && !Overwrites(s, op, id)
    ensures LifeInv(Get(Step(s, op), id))
  {
    var l := Get(s, id);
    var m := StepMoves(s, op, id);
    match m
    case Stay =>
    case Mint(i) => MintKeepsInv(l, i);
    case Spend(reconcile, now) => FetchKeepsInv(l, id, reconcile, now);
    case Refuse(code, now) => RejectKeepsInv(l, code, now);
    case Postpone(now) => DeferKeepsInv(l, now);
    case Accept(receipt, now) => AcknowledgeKeepsInv(l, receipt, now);
    case Revive(now) => RequeueKeepsInv(l, now);
  }

  lemma {:induction false} RunKeepsLife(s: Store, ops: seq<Op>, id: IntentId)
    requires LifeInv(Get(s, id)) && Careful(s, ops, id)
    ensures LifeInv(Get(After(s, ops), id))
    decreases |ops|
  {
    if ops != [] {
      StepKeepsLife(s, ops[0], id);
      RunKeepsLife(Step(s, ops[0]), ops[1..], id);
    }
  }

  /** No run leaves a row marked dead among the active ones, so only rows of an older revision are ever salvaged. */
  lemma {:induction false} NothingToSalvage(s: Store, ops: seq<Op>, id: IntentId)
    requires id in s.active ==> !s.active[id].state.DeadLetter?
    ensures id in After(s, ops).active ==> !After(s, ops).active[id].state.DeadLetter?
    ensures !Salvageable(Get(After(s, ops), id))
    decreases |ops|
  {
    if ops != [] {
      var m := StepMoves(s, ops[0], id);
      NothingToSalvage(Step(s, ops[0]), ops[1..], id);
    }
  }

  // ----- 1. bounded delivery -----

  ghost function Advancements(s: Store, ops: seq<Op>, id: IntentId): nat
    decreases |ops|
  {
    if ops == [] then 0 else (if Advances(s, ops[0], id) then 1 else 0) + Advancements(Step(s, ops[0]), ops[1..], id)
  }

  ghost function Handouts(s: Store, ops: seq<Op>, id: IntentId): nat
    decreases |ops|
  {
    if ops == [] then 0 else (if Returns(s, ops[0], id) then 1 else 0) + Handouts(Step(s, ops[0]), ops[1..], id)
  }

  /** How often the run mints `id` over its own dead letter. */
  ghost function Overwritings(s: Store, ops: seq<Op>, id: IntentId): nat
    decreases |ops|
  {
    if ops == [] then 0 else (if Overwrites(s, ops[0], id) then 1 else 0) + Overwritings(Step(s, ops[0]), ops[1..], id)
  }

  ghost predicate HandsOut(l: Life, id: IntentId, m: Move) {
    m.Spend? && Open(l) && Fetch(l, id, m.reconcile, m.now).1.Returned?
  }

  /** What one move costs: a fetch spends one, a mint over a dead letter buys one, and nothing buys a hand-out. */
  lemma MovePays(l: Life, id: IntentId, m: Move)
    requires CountersLast(l) && CanMove(l, m)
    ensures CountersLast(Moved(l, id, m))
    ensures FetchesLeft(Moved(l, id, m)) + (if m.Spend? then 1 else 0) <= FetchesLeft(l) + (if m.Mint? && l.dead.Some? then 1 else 0)
    ensures ReturnsLeft(Moved(l, id, m)) + (if HandsOut(l, id, m) then 1 else 0) <= ReturnsLeft(l)
  {
    match m
    case Stay =>
    case Mint(i) => MintPays(l, i, if ConsumesBudget(i) then l.reserved + 1 else l.reserved);
    case Spend(reconcile, now) => FetchPays(l, id, reconcile, now);
    case Refuse(code, now) => OtherMovesPay(l, code, now);
    case Postpone(now) => OtherMovesPay(l, "", now);
    case Accept(receipt, now) => AcknowledgePays(l, receipt, now);
    case Revive(now) => RequeuePays(l, now);
  }

  lemma ReturnsAreHandouts(s: Store, op: Op, id: IntentId)
    requires Returns(s, op, id)
    ensures Advances(s, op, id) && HandsOut(Get(s, id), id, Spend(op.reconcile, op.now))
  {
  }

  /** Every step pays for the fetches it performs, whatever minted the intent. */
  lemma StepPays(s: Store, op: Op, id: IntentId)
    requires CountersLast(Get(s, id))
    ensures CountersLast(Get(Step(s, op), id))
    ensures FetchesLeft(Get(Step(s, op), id)) + (if Advances(s, op, id) then 1 else 0) <=
              FetchesLeft(Get(s, id)) + (if Overwrites(s, op, id) then 1 else 0)
    ensures ReturnsLeft(Get(Step(s, op), id)) + (if Returns(s, op, id) then 1 else 0) <= ReturnsLeft(Get(s, id))
  {
    var m := StepMoves(s, op, id);
    MovePays(Get(s, id), id, m);
    if Returns(s, op, id) { ReturnsAreHandouts(s, op, id); }
  }

  lemma {:induction false} RunPays(s: Store, ops: seq<Op>, id: IntentId)
    requires CountersLast(Get(s, id))
    ensures CountersLast(Get(After(s, ops), id))
    ensures FetchesLeft(Get(After(s, ops), id)) + Advancements(s, ops, id) <= FetchesLeft(Get(s, id)) + Overwritings(s, ops, id)
    ensures ReturnsLeft(Get(After(s, ops), id)) + Handouts(s, ops, id) <= ReturnsLeft(Get(s, id))
    decreases |ops|
  {
    if ops != [] {
      StepPays(s, ops[0], id);
      RunPays(Step(s, ops[0]), ops[1..], id);
    }
  }

  /**
    In every run, every intent is handed out at most 38 times over its whole life. It is advanced at most 40 times,
    and once more for each time it is minted over its own dead letter.
  */
  lemma DeliveryIsBounded(generation: nat, ops: seq<Op>, id: IntentId)
    ensures Handouts(Initial(generation), ops, id) <= 38
    ensures Advancements(Initial(generation), ops, id) <= 40 + Overwritings(Initial(generation), ops, id)
    ensures Careful(Initial(generation), ops, id) ==> Advancements(Initial(generation), ops, id) <= 40
  {
    RunPays(Initial(generation), ops, id);
    if Careful(Initial(generation), ops, id) { CarefulNeverOverwrites(Initial(generation), ops, id); }
  }

  lemma {:induction false} CarefulNeverOverwrites(s: Store, ops: seq<Op>, id: IntentId)
    requires Careful(s, ops, id)
    ensures Overwritings(s, ops, id) == 0
    decreases |ops|
  {
    if ops != [] { CarefulNeverOverwrites(Step(s, ops[0]), ops[1..], id); }
  }

  ghost predicate Revives(s: Store, op: Op, id: IntentId) {
    op.OpRequeue? && op.id == id && RequeueTxn(s, id, op.generation, op.now).1
  }

  ghost function Revivals(s: Store, ops: seq<Op>, id: IntentId): nat
    decreases |ops|
  {
    if ops == [] then 0 else (if Revives(s, ops[0], id) then 1 else 0) + Revivals(Step(s, ops[0]), ops[1..], id)
  }

  lemma MovesNeverForgetRequeue(l: Life, id: IntentId, m: Move)
    requires CountersLast(l) && CanMove(l, m)
    ensures Counters(l).requeues <= Counters(Moved(l, id, m)).requeues
    ensures m.Revive? ==> Counters(l).requeues == 0 && Counters(Moved(l, id, m)).requeues == 1
  {
  }

  lemma RevivalIsRevive(s: Store, op: Op, id: IntentId)
    requires CountersLast(Get(s, id)) && Revives(s, op, id)
    ensures Counters(Get(s, id)).requeues == 0 && Counters(Get(Step(s, op), id)).requeues == 1
  {
    PutGet(s, id, Requeue(Get(s, id), op.now), id);
  }

  lemma {:induction false} RevivalsLeft(s: Store, ops: seq<Op>, id: IntentId)
    requires CountersLast(Get(s, id))
    ensures Revivals(s, ops, id) <= 1 - Counters(Get(s, id)).requeues
    decreases |ops|
  {
    if ops != [] {
      var m := StepMoves(s, ops[0], id);
      MovesNeverForgetRequeue(Get(s, id), id, m);
      StepPays(s, ops[0], id);
      if Revives(s, ops[0], id) { RevivalIsRevive(s, ops[0], id); }
      RevivalsLeft(Step(s, ops[0]), ops[1..], id);
    }
  }

  /** In every run, every intent comes back from the dead at most once. */
  lemma RevivedAtMostOnce(generation: nat, ops: seq<Op>, id: IntentId)
    ensures Revivals(Initial(generation), ops, id) <= 1
  {
    RevivalsLeft(Initial(generation), ops, id);
  }

  /** An id that only `create_intent` can mint is never minted over its dead letter, whatever else runs. */
  lemma {:induction false} CreatedIdsAreCareful(s: Store, ops: seq<Op>, id: IntentId)
    requires id.key != ColdStartKey && id.key != KeyOf(DeferralReraise)
    ensures Careful(s, ops, id)
    decreases |ops|
  {
    if ops != [] { CreatedIdsAreCareful(Step(s, ops[0]), ops[1..], id); }
  }

  /** Every reachable life: never active and dead at once, a death is backed by counters, budget touched at most once. */
  lemma ReachableLife(generation: nat, ops: seq<Op>, id: IntentId)
    requires Careful(Initial(generation), ops, id)
    ensures var s := After(Initial(generation), ops);
            && !(id in s.active && id in s.dead)
            && s.reserved[id] <= 1 && s.accounted[id] <= 1
            && (s.accounted[id] == 1 <==> id in s.active && s.active[id].state == Delivered && ConsumesBudget(s.active[id]))
            && (s.reserved[id] == 1 <==> (id in s.active && ConsumesBudget(s.active[id])) || (id in s.dead && ConsumesBudget(s.dead[id].intent)))
            && (id in s.dead ==> id in s.attempts && DeathBacked(s.dead[id].reason, s.attempts[id]))
            && (id in s.active && s.active[id].state != Delivered ==> Counters(Get(s, id)).rejections < REJECTION_BUDGET)
  {
    RunKeepsLife(Initial(generation), ops, id);
  }

  /** An intent whose source spends no budget, with no budget call on record. */
  ghost predicate Free(l: Life) {
    && l.reserved == 0 && l.accounted == 0
    && (l.active.Some? ==> !ConsumesBudget(l.active.value))
    && (l.dead.Some? ==> !ConsumesBudget(l.dead.value.intent))
  }

  lemma {:induction false} FreeStaysFree(s: Store, ops: seq<Op>, id: IntentId)
    requires id.key == ColdStartKey || id.key == KeyOf(DeferralReraise)
    requires Free(Get(s, id))
    ensures Free(Get(After(s, ops), id))
    decreases |ops|
  {
    if ops != [] {
      var m := StepMoves(s, ops[0], id);
      FreeStaysFree(Step(s, ops[0]), ops[1..], id);
    }
  }

  /** In every run and for every intent, turn budget is reserved at most once and accounted at most once. */
  lemma BudgetIsTouchedOnce(generation: nat, ops: seq<Op>, id: IntentId)
    ensures var s := After(Initial(generation), ops); s.reserved[id] <= 1 && s.accounted[id] <= s.reserved[id]
  {
    if id.key == ColdStartKey || id.key == KeyOf(DeferralReraise) {
      FreeStaysFree(Initial(generation), ops, id);
    } else {
      CreatedIdsAreCareful(Initial(generation), ops, id);
      RunKeepsLife(Initial(generation), ops, id);
    }
  }

  // ----- 2. exactly where the cold start and the release leave the discipline of one document at a time -----

  /** A step makes an intent both active and dead exactly when it mints it over its dead letter. */
  lemma CoexistenceComesFromOverwriting(s: Store, op: Op, id: IntentId)
    requires LifeInv(Get(s, id))
    ensures var t := Step(s, op); (id in t.active && id in t.dead) <==> Overwrites(s, op, id)
  {
    if Overwrites(s, op, id) {
      OverwritingMints(s, op, id);
    } else {
      StepKeepsLife(s, op, id);
    }
  }

  lemma OverwritingMints(s: Store, op: Op, id: IntentId)
    requires Overwrites(s, op, id)
    ensures id in Step(s, op).active && id in Step(s, op).dead
  {
  }

  // ----- 3. a deferral is released once -----

  ghost predicate Releases(s: Store, op: Op, d: DeferralId) {
    op.OpRelease? && op.deferral == d && ReleaseTxn(s, d, op.generation, op.now).1.Ok? && ReleaseTxn(s, d, op.generation, op.now).1.value.Some?
  }

  ghost function Releasings(s: Store, ops: seq<Op>, d: DeferralId): nat
    decreases |ops|
  {
    if ops == [] then 0 else (if Releases(s, ops[0], d) then 1 else 0) + Releasings(Step(s, ops[0]), ops[1..], d)
  }

  ghost predicate IsReleased(s: Store, d: DeferralId) {
    d in s.deferrals && s.deferrals[d].state.Released?
  }

  lemma ReleaseIsPermanent(s: Store, op: Op, d: DeferralId)
    ensures IsReleased(s, d) ==> Step(s, op).deferrals.Keys >= {d} && Step(s, op).deferrals[d] == s.deferrals[d] && !Releases(s, op, d)
    ensures Releases(s, op, d) ==> IsReleased(Step(s, op), d)
  {
  }

  lemma {:induction false} ReleasedAtMostOnce(s: Store, ops: seq<Op>, d: DeferralId)
    ensures Releasings(s, ops, d) <= if IsReleased(s, d) then 0 else 1
    decreases |ops|
  {
    if ops != [] {
      ReleaseIsPermanent(s, ops[0], d);
      ReleasedAtMostOnce(Step(s, ops[0]), ops[1..], d);
    }
  }

  /** A release raises the stored question once, under the intent it records; an intent already there is kept. */
  lemma ReleaseRaisesTheQuestion(s: Store, op: Op, d: DeferralId)
    requires Releases(s, op, d)
    ensures var t, id := Step(s, op), ReraiseId(d);
            && id in t.active && t.active[id].source == DeferralReraise
            && t.deferrals[d] == s.deferrals[d].(state := Released(id))
            && t.active[id] == (if id in s.active then s.active[id]
                                else Minted(DeferralReraise, Reasked(s.deferrals[d].question, d), Ready, op.now))
            && (forall x | x != id :: Get(t, x) == Get(s, x))
  {
    forall x | x != ReraiseId(d) ensures Get(Step(s, op), x) == Get(s, x) {
      ReleaseElsewhere(s, d, op.generation, op.now, x);
    }
  }

  lemma ReleaseElsewhere(s: Store, d: DeferralId, g: nat, now: Time, x: IntentId)
    requires x != ReraiseId(d)
    ensures Get(ReleaseTxn(s, d, g, now).0, x) == Get(s, x)
  {
  }

  /** While a deferral waits, its intent does not exist yet. */
  ghost predicate Unraised(s: Store, d: DeferralId) {
    IsReleased(s, d) || NeverMinted(Get(s, ReraiseId(d)))
  }

  lemma StepKeepsUnraised(s: Store, op: Op, d: DeferralId)
    requires Unraised(s, d) && !(op.OpCreate? && op.source == DeferralReraise)
    ensures Unraised(Step(s, op), d) && !Overwrites(s, op, ReraiseId(d))
  {
    var id := ReraiseId(d);
    ReleaseIsPermanent(s, op, d);
    if !IsReleased(s, d) {
      var m := StepMoves(s, op, id);
      if m.Mint? { MintedOnlyByRelease(s, op, d); }
    }
  }

  /** Apart from `create_intent` under the same source, only its own release mints a re-raised intent. */
  lemma MintedOnlyByRelease(s: Store, op: Op, d: DeferralId)
    requires !(op.OpCreate? && op.source == DeferralReraise) && NeverMinted(Get(s, ReraiseId(d)))
    requires !NeverMinted(Get(Step(s, op), ReraiseId(d)))
    ensures Releases(s, op, d)
  {
    var id := ReraiseId(d);
    match op
    case OpCreate(source, continuity, content, g, ok, now) =>
      CreateElsewhere(s, source, continuity, content, g, ok, now, id);
      assert false;
    case OpRelease(x, g, now) => if x != d { ReleaseElsewhere(s, x, g, now, id); assert false; }
    case _ => var m := StepMoves(s, op, id);
  }

  lemma CreateElsewhere(s: Store, source: Source, continuity: string, content: Content, g: nat, ok: bool, now: Time, x: IntentId)
    requires x != IntentId(g, KeyOf(source), continuity)
    ensures Get(CreateTxn(s, source, continuity, content, g, ok, now).0, x) == Get(s, x)
  {
  }

  /** So re-raised intents are careful too, unless `create_intent` is called with their source: only the cold start escapes. */
  lemma {:induction false} ReraisedIdsAreCareful(s: Store, ops: seq<Op>, d: DeferralId)
    requires Unraised(s, d) && forall op | op in ops :: !(op.OpCreate? && op.source == DeferralReraise)
    ensures Careful(s, ops, ReraiseId(d))
    decreases |ops|
  {
    if ops != [] {
      StepKeepsUnraised(s, ops[0], d);
      ReraisedIdsAreCareful(Step(s, ops[0]), ops[1..], d);
    }
  }
}
