/** The intent documents of one user and the transactions over them, on values. */
module IntentTransactions {
  import opened Wrappers
  import opened IntentLife

  const DEFERRAL_DUE_AFTER: int := 24 * 3_600

  datatype DeferralState = Waiting | Released(intent: IntentId)
  datatype Deferral = Deferral(subject: string, question: string, dueAt: Time, state: DeferralState)

  datatype Store = Store(
    generation: nat,
    active: map<IntentId, Intent>,
    attempts: map<IntentId, Attempt>,
    dead: map<IntentId, Dead>,
    deferrals: map<DeferralId, Deferral>,
    reserved: multiset<IntentId>,
    accounted: multiset<IntentId>)

  datatype Error = GenerationMismatch | DocumentMismatch | Conflict | BudgetExhausted | NotReady
  datatype Result<+T> = Ok(value: T) | Err(error: Error)

  function Write<K, V>(m: map<K, V>, k: K, v: Option<V>): map<K, V> {
    if v.Some? then m[k := v.value] else m - {k}
  }

  /** Everything stored about one intent, and the store with that replaced. */
  function Get(s: Store, id: IntentId): Life {
    Life(Lookup(s.active, id), Lookup(s.attempts, id), Lookup(s.dead, id), s.reserved[id], s.accounted[id])
  }

  function Put(s: Store, id: IntentId, l: Life): Store {
    s.(active := Write(s.active, id, l.active), attempts := Write(s.attempts, id, l.attempt), dead := Write(s.dead, id, l.dead),
       reserved := s.reserved[id := l.reserved], accounted := s.accounted[id := l.accounted])
  }

  // ----- minting -----

  function CreateTxn(s: Store, source: Source, continuity: string, content: Content, generation: nat, budgetOk: bool, now: Time)
    : (Store, Result<(IntentId, bool)>)
  {
    var id := IntentId(generation, KeyOf(source), continuity);
    if s.generation != generation then (s, Err(GenerationMismatch))
    else if id in s.active then
      if s.active[id].source != source || s.active[id].content != content then (s, Err(Conflict)) else (s, Ok((id, false)))
    else if id in s.dead then
      if s.dead[id].intent.source != source || s.dead[id].intent.content != content then (s, Err(Conflict)) else (s, Ok((id, false)))
    else
      var intent := Minted(source, content, Ready, now);
      if ConsumesBudget(intent) && !budgetOk then (s, Err(BudgetExhausted))
      else
        var l := Get(s, id);
        (Put(s, id, l.(active := Some(intent), reserved := if ConsumesBudget(intent) then l.reserved + 1 else l.reserved)),
         Ok((id, true)))
  }

  function ColdStartSource(sparse: bool): Source { if sparse then ColdStartSparse else ColdStartRich }

  function ColdStartId(generation: nat, continuity: string): IntentId { IntentId(generation, ColdStartKey, continuity) }

  /** The cold-start creator looks at active intents only: a dead letter does not stop it. */
  function ColdStartTxn(s: Store, sparse: bool, continuity: string, content: Content, generation: nat, now: Time)
    : (Store, Result<(IntentId, bool)>)
  {
    var id := ColdStartId(generation, continuity);
    if s.generation != generation then (s, Err(GenerationMismatch))
    else if id in s.active then
      if s.active[id].source != ColdStartRich && s.active[id].source != ColdStartSparse then (s, Err(Conflict)) else (s, Ok((id, false)))
    else
      (Put(s, id, Get(s, id).(active := Some(Minted(ColdStartSource(sparse), content, PendingReceipt, now)))), Ok((id, true)))
  }

  function RecordDeferralTxn(s: Store, continuity: string, subject: string, question: string, generation: nat, now: Time)
    : (Store, Result<bool>)
  {
    var d := DeferralId(generation, continuity);
    if s.generation != generation then (s, Err(GenerationMismatch))
    else if d in s.deferrals then
      if s.deferrals[d].subject != subject || s.deferrals[d].question != question then (s, Err(Conflict)) else (s, Ok(false))
    else (s.(deferrals := s.deferrals[d := Deferral(subject, question, now + DEFERRAL_DUE_AFTER, Waiting)]), Ok(true))
  }

  function ReraiseId(d: DeferralId): IntentId { IntentId(d.generation, KeyOf(DeferralReraise), d.continuity) }

  /** Release one waiting deferral as an intent; the result says which intent, if any. Dead letters are not read. */
  function ReleaseTxn(s: Store, d: DeferralId, generation: nat, now: Time): (Store, Result<Option<IntentId>>) {
    if s.generation != generation then (s, Err(GenerationMismatch))
    else if d !in s.deferrals || d.generation != generation || s.deferrals[d].state != Waiting then (s, Ok(None))
    else
      var id := ReraiseId(d);
      if id in s.active && s.active[id].source != DeferralReraise then (s, Err(Conflict))
      else
        var l := Get(s, id);
        var question := Minted(DeferralReraise, Reasked(s.deferrals[d].question, d), Ready, now);
        var t := Put(s, id, if l.active.Some? then l else l.(active := Some(question)));
        (t.(deferrals := s.deferrals[d := s.deferrals[d].(state := Released(id))]), Ok(Some(id)))
  }

  // ----- delivery -----

  function AdvanceTxn(s: Store, id: IntentId, generation: nat, reconcile: bool, now: Time): (Store, Fetched) {
    if id.generation != generation || !Open(Get(s, id)) then (s, Untouched)
    else
      var (l, fetched) := Fetch(Get(s, id), id, reconcile, now);
      (Put(s, id, l), fetched)
  }

  function RejectTxn(s: Store, id: IntentId, code: string, generation: nat, now: Time): (Store, Result<Option<Reason>>) {
    if s.generation != generation then (s, Err(GenerationMismatch))
    else if id !in s.active then (s, Ok(None))
    else if id.generation != generation then (s, Err(DocumentMismatch))
    else if !Open(Get(s, id)) then (s, Ok(None))
    else
      var (l, reason) := Reject(Get(s, id), code, now);
      (Put(s, id, l), Ok(reason))
  }

  function DeferTxn(s: Store, id: IntentId, generation: nat, now: Time): (Store, Result<bool>) {
    if s.generation != generation then (s, Err(GenerationMismatch))
    else if id !in s.active then (s, Ok(false))
    else if id.generation != generation then (s, Err(DocumentMismatch))
    else if !Open(Get(s, id)) then (s, Ok(false))
    else
      var (l, died) := Defer(Get(s, id), now);
      (Put(s, id, l), Ok(died))
  }

  /** A delivered intent answers its own receipt, or any receipt when it was reconciled from the chat row. */
  predicate SameReceipt(i: Intent, receipt: ReceiptId) {
    i.receipt == Some(receipt) || (i.receipt.Some? && i.receipt.value.Synthetic?)
  }

  function AcknowledgeTxn(s: Store, id: IntentId, receipt: ReceiptId, generation: nat, now: Time): (Store, Result<Intent>) {
    if s.generation != generation then (s, Err(GenerationMismatch))
    else if id !in s.active then (s, Err(NotReady))
    else if id.generation != generation then (s, Err(DocumentMismatch))
    else if s.active[id].state == Delivered then
      if SameReceipt(s.active[id], receipt) then (s, Ok(s.active[id])) else (s, Err(Conflict))
    else if !Acknowledgeable(Get(s, id)) then (s, Ok(s.active[id]))
    else
      var l := Acknowledge(Get(s, id), receipt, now);
      (Put(s, id, l), Ok(l.active.value))
  }

  function RequeueTxn(s: Store, id: IntentId, generation: nat, now: Time): (Store, bool) {
    if id.generation != generation || !Repairable(Get(s, id), now) then (s, false)
    else (Put(s, id, Requeue(Get(s, id), now)), true)
  }

  // ----- arbitrary interleavings -----

  datatype Op =
    | OpCreate(source: Source, continuity: string, content: Content, generation: nat, budgetOk: bool, now: Time)
    | OpColdStart(sparse: bool, continuity: string, content: Content, generation: nat, now: Time)
    | OpRecordDeferral(continuity: string, subject: string, question: string, generation: nat, now: Time)
    | OpRelease(deferral: DeferralId, generation: nat, now: Time)
    | OpAdvance(id: IntentId, generation: nat, reconcile: bool, now: Time)
    | OpReject(id: IntentId, code: string, generation: nat, now: Time)
    | OpDefer(id: IntentId, generation: nat, now: Time)
    | OpAcknowledge(id: IntentId, receipt: ReceiptId, generation: nat, now: Time)
    | OpRequeue(id: IntentId, generation: nat, now: Time)
    | OpSetGeneration(generation: nat)

  function Step(s: Store, op: Op): Store {
    match op
    case OpCreate(source, continuity, content, g, ok, now) => CreateTxn(s, source, continuity, content, g, ok, now).0
    case OpColdStart(sparse, continuity, content, g, now) => ColdStartTxn(s, sparse, continuity, content, g, now).0
    case OpRecordDeferral(continuity, subject, question, g, now) => RecordDeferralTxn(s, continuity, subject, question, g, now).0
    case OpRelease(d, g, now) => ReleaseTxn(s, d, g, now).0
    case OpAdvance(id, g, reconcile, now) => AdvanceTxn(s, id, g, reconcile, now).0
    case OpReject(id, code, g, now) => RejectTxn(s, id, code, g, now).0
    case OpDefer(id, g, now) => DeferTxn(s, id, g, now).0
    case OpAcknowledge(id, receipt, g, now) => AcknowledgeTxn(s, id, receipt, g, now).0
    case OpRequeue(id, g, now) => RequeueTxn(s, id, g, now).0
    case OpSetGeneration(g) => s.(generation := g)
  }

  ghost function After(s: Store, ops: seq<Op>): Store
    decreases |ops|
  {
    if ops == [] then s else After(Step(s, ops[0]), ops[1..])
  }

  function Initial(generation: nat): Store {
    Store(generation, map[], map[], map[], map[], multiset{}, multiset{})
  }
}
