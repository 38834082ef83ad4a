/**
  One proactive chat intent (backend/database/chat_first_intents.py, chat_first_delivery_attempts.py): its
  active document, its delivery-attempt sibling and its dead letter, and what each transaction does to them.
*/
module IntentLife {
  import opened Wrappers

  const FETCH_BUDGET: nat := 20
  const REJECTION_BUDGET: nat := 3
  const DEFERRAL_BUDGET: int := 7 * 86_400
  const REPAIR_AGE: int := 6 * 3_600

  datatype Source = AgentJudgment | ColdStartRich | ColdStartSparse | DeferralReraise | OtherSource(name: string)

  /** What the stable id is derived from: the source, except that both cold starts share one key. */
  datatype SourceKey = KeyOf(source: Source) | ColdStartKey
  datatype IntentId = IntentId(generation: nat, key: SourceKey, continuity: string)
  datatype DeferralId = DeferralId(generation: nat, continuity: string)

  datatype Content = Blocks(text: string) | Reasked(question: string, deferral: DeferralId)
  datatype ReceiptId = Kernel(name: string) | Synthetic(intent: IntentId)
  datatype State = Ready | PendingReceipt | Delivered | DeadLetter(reason: Reason)

  datatype Intent = Intent(
    source: Source, content: Content, state: State, createdAt: Time,
    deliveredAt: Option<Time>, receipt: Option<ReceiptId>)

  predicate ConsumesBudget(i: Intent) { i.source == AgentJudgment }
  predicate Deliverable(i: Intent) { i.state == Ready || i.state == PendingReceipt }

  /** The derived sibling document that carries every delivery counter. */
  datatype Attempt = Attempt(
    fetches: nat, lastFetchedAt: Option<Time>, requeues: nat,
    rejections: nat, lastRejectionCode: Option<string>, lastRejectionAt: Option<Time>,
    firstDeferredAt: Option<Time>, lastDeferralAt: Option<Time>)

  const FRESH := Attempt(0, None, 0, 0, None, None, None, None)

  datatype Reason = Unacknowledged | DiedAfterRequeue | PermanentRejection(code: string) | DeferredBeyondBudget

  const KERNEL_FAILURE := PermanentRejection("kernel_materialization_failed")

  predicate Transient(r: Reason) { r == Unacknowledged || r == KERNEL_FAILURE }
  predicate PermanentCode(code: string) { code == "invalid_intent" || code == "identity_conflict" }

  datatype Dead = Dead(intent: Intent, attempt: Attempt, reason: Reason)

  /** `reserved` and `accounted` count the calls of the budget functions for this intent. */
  datatype Life = Life(active: Option<Intent>, attempt: Option<Attempt>, dead: Option<Dead>, reserved: nat, accounted: nat)

  function Counters(l: Life): Attempt {
    if l.attempt.Some? then l.attempt.value else FRESH
  }

  predicate Open(l: Life) { l.active.Some? && Deliverable(l.active.value) }

  function Minted(source: Source, content: Content, state: State, now: Time): Intent {
    Intent(source, content, state, now, None, None)
  }

  /** The terminal record always carries a fetch instant, so that the repair query can order it. */
  function Buried(l: Life, a: Attempt, reason: Reason, at: Time): Life
    requires l.active.Some?
  {
    var kept := if a.lastFetchedAt.None? then a.(lastFetchedAt := Some(at)) else a;
    l.(active := None, attempt := Some(a), dead := Some(Dead(l.active.value.(state := DeadLetter(reason)), kept, reason)))
  }

  function Accounted(l: Life): nat
    requires l.active.Some?
  {
    if ConsumesBudget(l.active.value) then l.accounted + 1 else l.accounted
  }

  datatype Fetched = Untouched | Returned(intent: Intent) | Reconciled | Died(reason: Reason)

  /** One advancing fetch: it always spends the budget, whether it delivers, kills or returns the intent. */
  function Fetch(l: Life, id: IntentId, reconcile: bool, now: Time): (Life, Fetched)
    requires Open(l)
  {
    var i := l.active.value;
    var a := Counters(l).(fetches := Counters(l).fetches + 1, lastFetchedAt := Some(now));
    if reconcile then
      (l.(active := Some(i.(state := Delivered, deliveredAt := Some(now), receipt := Some(Synthetic(id)))),
          attempt := Some(a), accounted := Accounted(l)),
       Reconciled)
    else if a.fetches >= FETCH_BUDGET then
      var reason := if a.requeues > 0 then DiedAfterRequeue else Unacknowledged;
      (Buried(l, a, reason, now), Died(reason))
    else (l.(attempt := Some(a)), Returned(i))
  }

  function Reject(l: Life, code: string, now: Time): (Life, Option<Reason>)
    requires Open(l)
  {
    if !PermanentCode(code) then (l, None)
    else
      var was := Counters(l);
      var a := was.(rejections := was.rejections + 1, lastRejectionCode := Some(code), lastRejectionAt := Some(now));
      if a.rejections >= REJECTION_BUDGET then (Buried(l, a, PermanentRejection(code), now), Some(PermanentRejection(code)))
      else (l.(attempt := Some(a)), None)
  }

  /** One explicit deferral; the flag says that the continuous deferral budget ran out. */
  function Defer(l: Life, now: Time): (Life, bool)
    requires Open(l)
  {
    var was := Counters(l);
    var first := if was.firstDeferredAt.Some? then was.firstDeferredAt.value else now;
    var a := was.(firstDeferredAt := Some(first), lastDeferralAt := Some(now));
    if now - first >= DEFERRAL_BUDGET then (Buried(l, a, DeferredBeyondBudget, now), true)
    else (l.(attempt := Some(a)), false)
  }

  /** An active row an older revision left marked dead for a transient reason, whose one return is still unspent. */
  predicate Salvageable(l: Life) {
    l.active.Some? && l.active.value.state.DeadLetter? && Transient(l.active.value.state.reason) && Counters(l).requeues == 0
  }

  predicate Acknowledgeable(l: Life) { Open(l) || Salvageable(l) }

  /** A receipt delivers the intent; salvaging a row marked dead spends its one return. */
  function Acknowledge(l: Life, receipt: ReceiptId, now: Time): Life
    requires Acknowledgeable(l)
  {
    l.(active := Some(l.active.value.(state := Delivered, deliveredAt := Some(now), receipt := Some(receipt))),
       attempt := if Salvageable(l) then Some(Counters(l).(requeues := 1)) else l.attempt,
       accounted := Accounted(l))
  }

  function HydratedDead(l: Life): Attempt
    requires l.dead.Some?
  {
    if l.attempt.Some? then l.attempt.value else l.dead.value.attempt
  }

  /** The instant the repair age is counted from. */
  function RepairClock(a: Attempt): Option<Time> {
    if a.lastRejectionAt.Some? then a.lastRejectionAt else a.lastFetchedAt
  }

  predicate Repairable(l: Life, now: Time) {
    && l.dead.Some?
    && Transient(l.dead.value.reason)
    && HydratedDead(l).requeues == 0
    && RepairClock(HydratedDead(l)).Some?
    && now - RepairClock(HydratedDead(l)).value >= REPAIR_AGE
  }

  /** Some later repair may bring this dead letter back. */
  predicate Revivable(l: Life) {
    && l.dead.Some?
    && Transient(l.dead.value.reason)
    && HydratedDead(l).requeues == 0
    && RepairClock(HydratedDead(l)).Some?
  }

  function Requeue(l: Life, now: Time): Life
    requires Repairable(l, now)
  {
    var a := HydratedDead(l);
    l.(active := Some(l.dead.value.intent.(state := Ready)),
       attempt := Some(a.(fetches := 0, requeues := 1, rejections := 0, lastRejectionCode := None, lastRejectionAt := None)),
       dead := None)
  }

  // ----- what every life keeps -----

  predicate NeverMinted(l: Life) { l.active.None? && l.dead.None? }

  ghost predicate OpenInv(l: Life) {
    Open(l) ==>
      && Counters(l).fetches < FETCH_BUDGET && Counters(l).requeues <= 1 && Counters(l).rejections < REJECTION_BUDGET
      && l.active.value.receipt.None? && l.accounted == 0
  }

  ghost predicate DeliveredInv(l: Life) {
    l.active.Some? && !Deliverable(l.active.value) ==>
      && l.active.value.state == Delivered
      && l.active.value.receipt.Some? && l.active.value.deliveredAt.Some?
      && l.accounted == if ConsumesBudget(l.active.value) then 1 else 0
  }

  /** Each reason of death is backed by the counters: a spent fetch budget, or three permanent rejections. */
  ghost predicate DeathBacked(r: Reason, a: Attempt) {
    match r
    case Unacknowledged => a.fetches == FETCH_BUDGET && a.requeues == 0 && a.lastFetchedAt.Some?
    case DiedAfterRequeue => a.fetches == FETCH_BUDGET && a.requeues == 1
    case PermanentRejection(code) => PermanentCode(code) && a.rejections == REJECTION_BUDGET
    case DeferredBeyondBudget =>
      a.firstDeferredAt.Some? && a.lastDeferralAt.Some? && a.lastDeferralAt.value - a.firstDeferredAt.value >= DEFERRAL_BUDGET
  }

  ghost predicate DeadInv(l: Life) {
    l.dead.Some? ==>
      && l.active.None? && l.attempt.Some? && l.accounted == 0
      && l.dead.value.intent.receipt.None? && l.dead.value.intent.state == DeadLetter(l.dead.value.reason)
      && DeathBacked(l.dead.value.reason, l.attempt.value)
  }

  ghost predicate BudgetInv(l: Life) {
    && (NeverMinted(l) ==> l.attempt.None? && l.reserved == 0 && l.accounted == 0)
    && (l.active.Some? ==> l.reserved == if ConsumesBudget(l.active.value) then 1 else 0)
    && (l.dead.Some? ==> l.reserved == if ConsumesBudget(l.dead.value.intent) then 1 else 0)
  }

  ghost predicate LifeInv(l: Life) {
    OpenInv(l) && DeliveredInv(l) && DeadInv(l) && BudgetInv(l)
  }

  // ----- the delivery budget as a potential -----

  /** What holds of every life, however it was minted: the counters outlive every document but themselves. */
  ghost predicate CountersLast(l: Life) {
    && (l.dead.Some? ==> l.attempt.Some?)
    && (NeverMinted(l) ==> l.attempt.None?)
    && Counters(l).requeues <= 1
  }

  function Above(budget: nat, spent: nat): nat { if spent < budget then budget - spent else 0 }

  /**
    Advancing fetches still possible: the rest of this budget, a second one before the requeue, and the one fetch
    that kills an intent whose budget was spent before it was minted again.
  */
  ghost function FetchesLeft(l: Life): int {
    FETCH_BUDGET * (1 - Counters(l).requeues) + Above(FETCH_BUDGET, Counters(l).fetches)
    + if Open(l) && Counters(l).fetches >= FETCH_BUDGET then 1 else 0
  }

  /** Fetches that can still hand the intent to a device. */
  ghost function ReturnsLeft(l: Life): int {
    (FETCH_BUDGET - 1) * (1 - Counters(l).requeues) + Above(FETCH_BUDGET - 1, Counters(l).fetches)
  }

  /** An advancing fetch is always paid for, and a hand-out too. */
  lemma FetchPays(l: Life, id: IntentId, reconcile: bool, now: Time)
    requires CountersLast(l) && Open(l)
    ensures var (m, fetched) := Fetch(l, id, reconcile, now);
            && CountersLast(m)
            && FetchesLeft(m) + 1 <= FetchesLeft(l)
            && ReturnsLeft(m) + (if fetched.Returned? then 1 else 0) <= ReturnsLeft(l)
  {
  }

  /** A requeue opens the second and last fetch budget: it never adds to what was left. */
  lemma RequeuePays(l: Life, now: Time)
    requires CountersLast(l) && Repairable(l, now)
    ensures var m := Requeue(l, now);
            && CountersLast(m) && FetchesLeft(m) <= FetchesLeft(l) && ReturnsLeft(m) <= ReturnsLeft(l)
            && Counters(l).requeues == 0 && Counters(m).requeues == 1
  {
  }

  /** Minting never refills the counters; over a dead letter it buys the one fetch that buries the intent again. */
  lemma MintPays(l: Life, i: Intent, reserved: nat)
    requires CountersLast(l) && l.active.None?
    ensures var m := l.(active := Some(i), reserved := reserved);
            && CountersLast(m) && ReturnsLeft(m) <= ReturnsLeft(l)
            && FetchesLeft(m) <= FetchesLeft(l) + if l.dead.Some? then 1 else 0
  {
  }

  lemma OtherMovesPay(l: Life, code: string, now: Time)
    requires CountersLast(l) && Open(l)
    ensures var m := Reject(l, code, now).0; CountersLast(m) && FetchesLeft(m) <= FetchesLeft(l) && ReturnsLeft(m) <= ReturnsLeft(l)
    ensures var m := Defer(l, now).0; CountersLast(m) && FetchesLeft(m) <= FetchesLeft(l) && ReturnsLeft(m) <= ReturnsLeft(l)
  {
  }

  lemma AcknowledgePays(l: Life, receipt: ReceiptId, now: Time)
    requires CountersLast(l) && Acknowledgeable(l)
    ensures var m := Acknowledge(l, receipt, now); CountersLast(m) && FetchesLeft(m) <= FetchesLeft(l) && ReturnsLeft(m) <= ReturnsLeft(l)
  {
  }

  // ----- the life invariant, transition by transition -----

  lemma FetchKeepsInv(l: Life, id: IntentId, reconcile: bool, now: Time)
    requires LifeInv(l) && Open(l)
    ensures LifeInv(Fetch(l, id, reconcile, now).0)
  {
  }

  lemma RejectKeepsInv(l: Life, code: string, now: Time)
    requires LifeInv(l) && Open(l)
    ensures LifeInv(Reject(l, code, now).0)
  {
  }

  lemma DeferKeepsInv(l: Life, now: Time)
    requires LifeInv(l) && Open(l)
    ensures LifeInv(Defer(l, now).0)
  {
  }

  lemma AcknowledgeKeepsInv(l: Life, receipt: ReceiptId, now: Time)
    requires LifeInv(l) && Acknowledgeable(l)
    ensures LifeInv(Acknowledge(l, receipt, now))
  {
  }

  lemma RequeueKeepsInv(l: Life, now: Time)
    requires LifeInv(l) && Repairable(l, now)
    ensures LifeInv(Requeue(l, now))
  {
  }

  lemma MintKeepsInv(l: Life, i: Intent)
    requires LifeInv(l) && NeverMinted(l) && Deliverable(i) && i.receipt.None?
    ensures LifeInv(l.(active := Some(i), reserved := if ConsumesBudget(i) then 1 else 0))
  {
  }

  /**
    The repair waits a full age after the death exactly when no rejection is on record from before that
    death: an earlier rejection starts the clock early.
  */
  lemma RepairWaitsAfterDeathIff(l: Life)
    requires LifeInv(l) && l.dead.Some? && l.dead.value.reason == Unacknowledged
    ensures var died := l.attempt.value.lastFetchedAt.value;
            (forall now | Repairable(l, now) :: now - died >= REPAIR_AGE) <==>
              (l.attempt.value.lastRejectionAt.Some? ==> died <= l.attempt.value.lastRejectionAt.value)
  {
    var a := l.attempt.value;
    var died := a.lastFetchedAt.value;
    if a.lastRejectionAt.Some? && a.lastRejectionAt.value < died {
      var early := a.lastRejectionAt.value + REPAIR_AGE;
      assert Repairable(l, early) && early - died < REPAIR_AGE;
    }
  }
}
