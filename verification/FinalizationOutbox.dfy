/**
  The outbox as a whole: jobs, bound conversations and projection shards, the transactions over them,
  and every interleaving of those transactions with the rest of the backend.
*/
module FinalizationOutbox {
  import opened Wrappers
  import opened FinalizationJob
  import opened FinalizationProjection

  type ConversationKey = (string, string)

  datatype Store = Store(
    jobs: map<JobId, Job>,
    conversations: map<ConversationKey, Conversation>,
    shards: seq<Counters>,
    staleAfter: nat)

  /** Write one job document and add the increments of that write to its projection shard. */
  function Commit(s: Store, id: JobId, after: Job): Store {
    if Lookup(s.jobs, id) == Some(after) then s
    else s.(jobs := s.jobs[id := after], shards := Bumped(s.shards, after.shard, Delta(Lookup(s.jobs, id), after)))
  }

  function ConversationOf(s: Store, j: Job): Option<Conversation> {
    if j.uid == "" || j.conversation == "" then None else Lookup(s.conversations, (j.uid, j.conversation))
  }

  function SetConversation(s: Store, key: ConversationKey, c: Conversation): Store {
    s.(conversations := s.conversations[key := c])
  }

  // ----- intents -----

  datatype Admission = Admission(accepted: bool, terminal: bool, reason: string, fanoutKey: string)

  /** The content check and the lifecycle decision are inputs; `shard` is the hash of the new job's id. */
  datatype IntentRequest = IntentRequest(
    uid: string, conversation: string, requiresByok: bool, hasContent: bool, admission: Admission, shard: nat)

  datatype IntentReply =
    | NoIntent(reason: string)
    | Intent(id: JobId, status: JobStatus, generation: nat, requiresByok: bool, fanoutKey: string, created: bool)

  function IntentOf(id: JobId, j: Job, created: bool): IntentReply {
    Intent(id, j.status, j.generation, j.requiresByok, j.fanoutKey, created)
  }

  function BindConversation(c: Conversation, id: JobId, revision: nat, status: JobStatus): Conversation {
    c.(status := Processing, jobId := Some(id), revision := revision, finalizationStatus := Some(status))
  }

  function CreateOrGet(s: Store, r: IntentRequest, now: Time): (Store, IntentReply) {
    var key := (r.uid, r.conversation);
    if key !in s.conversations then (s, NoIntent("missing"))
    else
      var c := s.conversations[key];
      if c.deferred then (s, NoIntent("deferred"))
      else if !r.hasContent then (s, NoIntent("no_content"))
      else if r.admission.terminal then (s, NoIntent(r.admission.reason))
      else if c.jobId.Some? && c.jobId.value in s.jobs then
        (s, IntentOf(c.jobId.value, s.jobs[c.jobId.value], false))
      else if !r.admission.accepted || r.admission.fanoutKey == "" then (s, NoIntent(r.admission.reason))
      else
        var revision := c.revision + 1;
        var id := Derived(r.uid, r.conversation, revision);
        if id in s.jobs then
          (SetConversation(s, key, BindConversation(c, id, revision, s.jobs[id].status)),
           IntentOf(id, s.jobs[id], false))
        else
          var j := NewJob(r.uid, r.conversation, revision, r.requiresByok, r.admission.fanoutKey,
                          r.shard, s.staleAfter, now);
          (SetConversation(Commit(s, id, j), key, BindConversation(c, id, revision, j.status)),
           IntentOf(id, j, true))
  }

  /** The job a meeting receipt belongs to: the named one, the bound one, or the next revision's. */
  function ReceiptTarget(c: Conversation, uid: string, conversation: string, given: Option<JobId>): JobId {
    if given.Some? then given.value
    else if c.jobId.Some? then c.jobId.value
    else Derived(uid, conversation, c.revision + 1)
  }

  function ReceiptWrite(s: Store, c: Conversation, id: JobId, uid: string, conversation: string, eligible: bool, now: Time): Job {
    if id in s.jobs then WithReceipt(s.jobs[id], eligible)
    else ReceiptJob(uid, conversation, c.revision + 1, eligible, now)
  }

  /** Record a meeting verdict once, creating an already-terminal, uncounted job when there is none. */
  function RecordReceipt(s: Store, uid: string, conversation: string, given: Option<JobId>, eligible: bool, now: Time): Store {
    var key := (uid, conversation);
    if key !in s.conversations then s
    else
      var c := s.conversations[key];
      var id := ReceiptTarget(c, uid, conversation, given);
      if id in s.jobs && (s.jobs[id].uid != uid || s.jobs[id].conversation != conversation) then s
      else
        var bound := c.(jobId := Some(id));
        SetConversation(Commit(s, id, ReceiptWrite(s, c, id, uid, conversation, eligible, now)), key,
                        if c.jobId.Some? then bound
                        else bound.(revision := c.revision + 1, finalizationStatus := Some(Completed)))
  }

  // ----- transactions over one existing job -----

  function ResumeTxn(s: Store, id: JobId, now: Time): (Store, IntentReply) {
    if id !in s.jobs then (s, NoIntent("missing"))
    else var j := Resume(s.jobs[id], now); (Commit(s, id, j), IntentOf(id, j, false))
  }

  function ClaimTxn(s: Store, id: JobId, q: ClaimRequest, now: Time): (Store, ClaimReply) {
    if id !in s.jobs then (s, NoJob)
    else (Commit(s, id, Claim(s.jobs[id], q, now)), ClaimVerdict(s.jobs[id], q, now))
  }

  function CompleteTxn(s: Store, id: JobId, generation: int, epoch: int, now: Time): (Store, bool) {
    if id !in s.jobs then (s, false)
    else var (j, ok) := Complete(s.jobs[id], generation, epoch, now); (Commit(s, id, j), ok)
  }

  function FenceTxn(s: Store, id: JobId, generation: int, epoch: int, now: Time): (Store, bool) {
    if id !in s.jobs then (s, false)
    else var (j, ok) := Fence(s.jobs[id], generation, epoch, now); (Commit(s, id, j), ok)
  }

  function ClaimFanoutTxn(s: Store, id: JobId, generation: int, epoch: int, now: Time): (Store, FanoutReply) {
    if id !in s.jobs then (s, FanoutNoJob)
    else
      var (j, reply) := ClaimFanout(s.jobs[id], id, ConversationOf(s, s.jobs[id]), generation, epoch, now);
      (Commit(s, id, j), reply)
  }

  function CompleteFanoutTxn(s: Store, id: JobId, generation: int, epoch: int, now: Time): (Store, bool) {
    if id !in s.jobs then (s, false)
    else var (j, ok) := CompleteFanout(s.jobs[id], generation, epoch, now); (Commit(s, id, j), ok)
  }

  function RetryTxn(s: Store, id: JobId, generation: int, epoch: int, code: string, now: Time): (Store, bool) {
    if id !in s.jobs then (s, false)
    else var (j, ok) := Retry(s.jobs[id], generation, epoch, code, s.staleAfter, now); (Commit(s, id, j), ok)
  }

  /** The conversation is still the processing one that this job finalizes. */
  predicate StillProcessing(c: Option<Conversation>, id: JobId, j: Job) {
    && c.Some? && c.value.status == Processing && !c.value.discarded
    && c.value.jobId == Some(id) && c.value.revision == j.revision
  }

  function BuryTxn(s: Store, id: JobId, generation: int, epoch: int, retries: int, now: Time): (Store, bool) {
    if id !in s.jobs then (s, false)
    else
      var before := s.jobs[id];
      var (j, ok) := Bury(before, generation, epoch, retries, now);
      (Commit(s, id, j).(conversations := if ok then BuryConversation(s, id, before) else s.conversations), ok)
  }

  /** The conversations after a final failure: the bound one is closed as failed if it was still processing. */
  function BuryConversation(s: Store, id: JobId, j: Job): map<ConversationKey, Conversation> {
    var c := ConversationOf(s, j);
    if StillProcessing(c, id, j) then
      s.conversations[(j.uid, j.conversation) :=
        c.value.(status := ConversationFailed, discarded := true, finalizationStatus := Some(DeadLetter))]
    else s.conversations
  }

  function ReplayTxn(s: Store, id: JobId, now: Time): (Store, IntentReply) {
    if id !in s.jobs then (s, NoIntent("missing"))
    else var j := Replay(s.jobs[id], s.staleAfter, now); (Commit(s, id, j), IntentOf(id, j, false))
  }

  datatype AbandonReply = AbandonMissing | AbandonFenced | Abandoned(outcome: ConversationOutcome)
  datatype ConversationOutcome = ConversationMissing | Unbound | AlreadyClosed | LeftDeferred | Closed

  function AbandonOutcome(c: Option<Conversation>, id: JobId, j: Job): ConversationOutcome {
    if c.None? then ConversationMissing
    else if c.value.jobId != Some(id) || c.value.revision != j.revision then Unbound
    else if c.value.status != Processing || c.value.discarded then AlreadyClosed
    else if c.value.deferred then LeftDeferred
    else Closed
  }

  function AbandonTxn(s: Store, id: JobId, q: AbandonRequest, now: Time): (Store, AbandonReply) {
    if id !in s.jobs then (s, AbandonMissing)
    else if !Abandonable(s.jobs[id], q, now) then (s, AbandonFenced)
    else
      var before := s.jobs[id];
      (Commit(s, id, Abandon(before, q, now)).(conversations := AbandonConversation(s, id, before)),
       Abandoned(AbandonOutcome(ConversationOf(s, before), id, before)))
  }

  /** The conversations after an abandonment: the bound one stays retrievable as completed. */
  function AbandonConversation(s: Store, id: JobId, j: Job): map<ConversationKey, Conversation> {
    var c := ConversationOf(s, j);
    if AbandonOutcome(c, id, j) == Closed then
      s.conversations[(j.uid, j.conversation) :=
        c.value.(status := ConversationCompleted, finalizationStatus := Some(DeadLetter))]
    else s.conversations
  }

  // ----- arbitrary interleavings -----

  /**
    The store, the latest instant any transaction ran at, and the ids the reconciler's due query has
    ever returned: the reconciler replays those and no others.
  */
  datatype System = System(store: Store, clock: Time, due: set<JobId>)

  datatype Op =
    | OpIntent(now: Time, intent: IntentRequest)
    | OpReceipt(now: Time, uid: string, conversation: string, given: Option<JobId>, eligible: bool)
    | OpResume(now: Time, id: JobId)
    | OpClaim(now: Time, id: JobId, claim: ClaimRequest)
    | OpComplete(now: Time, id: JobId, generation: int, epoch: int)
    | OpFence(now: Time, id: JobId, generation: int, epoch: int)
    | OpClaimFanout(now: Time, id: JobId, generation: int, epoch: int)
    | OpCompleteFanout(now: Time, id: JobId, generation: int, epoch: int)
    | OpRetry(now: Time, id: JobId, generation: int, epoch: int, code: string)
    | OpBury(now: Time, id: JobId, generation: int, epoch: int, retries: int)
    | OpDueQuery(now: Time, found: set<JobId>)
    | OpReplay(now: Time, id: JobId)
    | OpAbandon(now: Time, id: JobId, abandon: AbandonRequest)
    | OpConversation(now: Time, key: ConversationKey, written: Option<Conversation>)

  ghost predicate Enabled(s: System, op: Op) {
    && s.clock <= op.now
    && (op.OpIntent? ==> op.intent.shard < SHARD_COUNT)
    && (op.OpReplay? ==> op.id in s.due)
    && (op.OpDueQuery? ==> forall id | id in op.found :: id in s.store.jobs && Due(s.store.jobs[id], op.now))
  }

  function Effect(s: Store, op: Op): Store {
    match op
    case OpIntent(now, r) => CreateOrGet(s, r, now).0
    case OpReceipt(now, uid, conversation, given, eligible) => RecordReceipt(s, uid, conversation, given, eligible, now)
    case OpResume(now, id) => ResumeTxn(s, id, now).0
    case OpClaim(now, id, q) => ClaimTxn(s, id, q, now).0
    case OpComplete(now, id, g, e) => CompleteTxn(s, id, g, e, now).0
    case OpFence(now, id, g, e) => FenceTxn(s, id, g, e, now).0
    case OpClaimFanout(now, id, g, e) => ClaimFanoutTxn(s, id, g, e, now).0
    case OpCompleteFanout(now, id, g, e) => CompleteFanoutTxn(s, id, g, e, now).0
    case OpRetry(now, id, g, e, code) => RetryTxn(s, id, g, e, code, now).0
    case OpBury(now, id, g, e, retries) => BuryTxn(s, id, g, e, retries, now).0
    case OpDueQuery(_, _) => s
    case OpReplay(now, id) => ReplayTxn(s, id, now).0
    case OpAbandon(now, id, q) => AbandonTxn(s, id, q, now).0
    case OpConversation(_, key, written) =>
      if written.Some? then SetConversation(s, key, written.value) else s.(conversations := s.conversations - {key})
  }

  function Step(s: System, op: Op): System {
    System(Effect(s.store, op), op.now, if op.OpDueQuery? then s.due + op.found else s.due)
  }

  ghost predicate Runs(s: System, ops: seq<Op>)
    decreases |ops|
  {
    ops == [] || (Enabled(s, ops[0]) && Runs(Step(s, ops[0]), ops[1..]))
  }

  ghost function After(s: System, ops: seq<Op>): System
    decreases |ops|
  {
    if ops == [] then s else After(Step(s, ops[0]), ops[1..])
  }

  function Initial(staleAfter: nat, clock: Time): System {
    System(Store(map[], map[], seq(SHARD_COUNT, _ => NONE), staleAfter), clock, {})
  }
}
