/** The candidate documents of one user and the transactions over them. */
module CandidateTransactions {
  import opened Wrappers
  import opened CandidateModel

  datatype Phase = PreMutation | MutationStarted
  datatype Reservation = Create | Existing | Committed

  /** The fence of the legacy promotion lane. */
  datatype Claim = Claim(
    token: nat, active: bool, phase: Phase, result: Option<TaskId>, kind: Option<Reservation>, leaseExpiresAt: Time)

  datatype Alias = Alias(candidate: CandidateId, request: Proposal)

  datatype Task = Task(
    candidate: Option<CandidateId>, generation: nat, status: TaskStatus, completed: bool, deleted: bool,
    identity: TaskIdentity, notes: Annotations)

  datatype DispatchStatus = DispatchPending | Dispatching | Dispatched | DispatchFailed | Suppressed
  datatype Dispatch = Dispatch(
    task: TaskId, generation: nat, status: DispatchStatus, attempts: nat, token: Option<nat>, claimedAt: Option<Time>)

  type Slot = (nat, TaskIdentity)   // pending claim: one per (generation, semantic identity)

  datatype Store = Store(
    generation: nat,
    candidates: map<CandidateId, Candidate>,
    aliases: map<CandidateId, Alias>,
    slots: map<Slot, CandidateId>,
    claims: map<CandidateId, Claim>,
    tasks: map<TaskId, Task>,
    outbox: map<CandidateId, Dispatch>,
    nextToken: nat)

  datatype Error = NotFound | Conflict | GenerationMismatch | ResolverUnavailable | InvalidRequest
  datatype Result<+T> = Ok(value: T) | Err(error: Error)

  // ----- claims -----

  predicate OwnerIsActive(c: Claim, now: Time) {
    c.active && c.leaseExpiresAt > now
  }

  /** A started mutation blocks every other resolution for good; an unstarted claim only while its lease lives. */
  predicate BlocksResolution(c: Claim, now: Time) {
    c.active && (c.phase == MutationStarted || OwnerIsActive(c, now))
  }

  predicate Blocked(s: Store, id: CandidateId, now: Time) {
    id in s.claims && BlocksResolution(s.claims[id], now)
  }

  // ----- creation -----

  predicate TaskIsActive(t: Task, generation: nat) {
    (t.generation == 0 || t.generation == generation) && t.status == Active && !t.completed && !t.deleted
  }

  /** The candidate an exact repeat may join: still pending and readable, or accepted with its task still open and unchanged. */
  function Reusable(s: Store, generation: nat, identity: TaskIdentity, now: Time): Option<CandidateId> {
    var slot := (generation, identity);
    if slot !in s.slots || s.slots[slot] !in s.candidates || s.slots[slot].generation != generation then None
    else
      var id := s.slots[slot];
      var c := s.candidates[id];
      if c.status == Pending && !Lapsed(c, now) then Some(id)
      else if && c.status == Accepted && c.result.Some? && c.result.value in s.tasks
              && c.proposal.subject.CreateTask?
              && TaskIsActive(s.tasks[c.result.value], generation)
              && s.tasks[c.result.value].identity == c.proposal.subject.identity
           then Some(id)
      else None
  }

  function Annotated(c: Candidate, notes: Annotations): Candidate {
    c.(proposal := c.proposal.(notes := Merge(c.proposal.notes, notes)))
  }

  /** The accepted task gains the same annotations; its provenance is not capped. */
  function AnnotatedTask(t: Task, notes: Annotations): Task {
    t.(notes := t.notes.(capture := MaxReal(t.notes.capture, notes.capture),
                         ownership := MaxReal(t.notes.ownership, notes.ownership),
                         evidence := Distinct(t.notes.evidence + notes.evidence),
                         dueConfidence := MaxConfidence(t.notes.dueConfidence, notes.dueConfidence),
                         priority := Strongest(t.notes.priority, notes.priority)))
  }

  function NewCandidate(p: Proposal, now: Time): Candidate {
    Candidate(p, Pending, None, now, None, Some(now + SUGGESTION_TTL))
  }

  function Insert(s: Store, id: CandidateId, p: Proposal, now: Time): Store {
    s.(candidates := s.candidates[id := NewCandidate(p, now)],
       aliases := s.aliases[id := Alias(id, p)],
       slots := if p.subject.CreateTask? then s.slots[(id.generation, p.subject.identity) := id] else s.slots)
  }

  /** Merge an exact repeat into `into`, and remember that this idempotency key means that candidate. */
  function Coalesce(s: Store, id: CandidateId, p: Proposal, into: CandidateId): Store
    requires into in s.candidates && p.subject.CreateTask?
  {
    var merged := Annotated(s.candidates[into], p.notes);
    s.(candidates := s.candidates[into := merged],
       aliases := s.aliases[id := Alias(into, p)],
       slots := s.slots[(id.generation, p.subject.identity) := into],
       tasks := if merged.status == Accepted && merged.result.Some? && merged.result.value in s.tasks then
                  s.tasks[merged.result.value := AnnotatedTask(s.tasks[merged.result.value], merged.proposal.notes)]
                else s.tasks)
  }

  predicate Blank(key: string) {
    forall ch | ch in key :: ch in " \t\n\r"
  }

  function CreateTxn(s: Store, p: Proposal, key: string, generation: nat, now: Time): (Store, Result<CandidateId>) {
    var id := CandidateId(generation, key);
    if Blank(key) then (s, Err(InvalidRequest))
    else if s.generation != generation then (s, Err(GenerationMismatch))
    else if id in s.aliases then
      if s.aliases[id].request != p || s.aliases[id].candidate !in s.candidates
         || s.aliases[id].candidate.generation != generation then (s, Err(Conflict))
      else (s, Ok(s.aliases[id].candidate))
    else if id in s.candidates then
      if s.candidates[id].proposal != p then (s, Err(Conflict))
      else (s.(aliases := s.aliases[id := Alias(id, p)]), Ok(id))
    else
      var into := if p.subject.CreateTask? then Reusable(s, generation, p.subject.identity, now) else None;
      if into.Some? then (Coalesce(s, id, p, into.value), Ok(into.value))
      else (Insert(s, id, p, now), Ok(id))
  }

  // ----- direct resolution -----

  datatype Receipt = Receipt(candidate: CandidateId, status: Status, task: Option<TaskId>, newlyResolved: bool, resolvedAt: Option<Time>)

  /** What the caller and the unmodelled task code supply: the relationship check and the expected links. */
  datatype TaskInput = TaskInput(relationshipOk: bool, expectedLinks: Option<(string, string)>)

  function Resolved(c: Candidate, status: Status, result: Option<TaskId>, now: Time): Candidate {
    c.(status := status, result := result, resolvedAt := Some(now), expiresAt := None)
  }

  function NewTask(id: CandidateId, c: Candidate): Task
    requires c.proposal.subject.CreateTask?
  {
    Task(Some(id), id.generation, Active, false, false, c.proposal.subject.identity, c.proposal.notes)
  }

  function AcceptCreate(s: Store, id: CandidateId, input: TaskInput, now: Time): (Store, Result<Receipt>)
    requires id in s.candidates && s.candidates[id].proposal.subject.CreateTask?
  {
    var c := s.candidates[id];
    var task := TaskFor(id);
    if !input.relationshipOk then (s, Err(Conflict))
    else if task in s.tasks && s.tasks[task].candidate != Some(id) then (s, Err(Conflict))
    else
      (s.(candidates := s.candidates[id := Resolved(c, Accepted, Some(task), now)],
          tasks := if task in s.tasks then s.tasks else s.tasks[task := NewTask(id, c)],
          outbox := s.outbox[id := Dispatch(task, id.generation, DispatchPending, 0, None, None)]),
       Ok(Receipt(id, Accepted, Some(task), true, Some(now))))
  }

  function Or<T>(given: Option<T>, kept: T): T { if given.Some? then given.value else kept }

  function ChangedIdentity(i: TaskIdentity, c: TaskChange): TaskIdentity {
    TaskIdentity(Or(c.description, i.description), Or(c.owner, i.owner), Or(c.dueAt, i.dueAt), Or(c.recurrenceRule, i.recurrenceRule),
                 Or(c.recurrenceParent, i.recurrenceParent), Or(c.goal, i.goal), Or(c.workstream, i.workstream))
  }

  /** The action decides status and completion; a plain update takes them from the payload, or leaves them. */
  function ChangedStatus(t: Task, action: TaskAction, c: TaskChange): (TaskStatus, bool) {
    match action
    case Complete => (TaskCompleted, true)
    case Cancel => (Cancelled, false)
    case Supersede => (Superseded, false)
    case Update => if c.status.SetStatus? then (c.status.status, c.status.status == TaskCompleted) else (t.status, t.completed)
  }

  /** The task after an accepted change: the fields the change sets, the action's status, and the new evidence. */
  function Patched(t: Task, generation: nat, action: TaskAction, c: TaskChange, evidence: seq<Evidence>): Task {
    var (status, completed) := ChangedStatus(t, action, c);
    t.(generation := generation, status := status, completed := completed, identity := ChangedIdentity(t.identity, c),
       notes := t.notes.(evidence := Distinct(t.notes.evidence + evidence),
                         dueConfidence := Or(c.dueConfidence, t.notes.dueConfidence),
                         priority := Or(c.priority, t.notes.priority)))
  }

  function AcceptChange(s: Store, id: CandidateId, input: TaskInput, now: Time): (Store, Result<Receipt>)
    requires id in s.candidates && s.candidates[id].proposal.subject.ChangeTask?
  {
    var p := s.candidates[id].proposal;
    var task := p.subject.task;
    if task !in s.tasks then (s, Err(NotFound))
    else
      var t := s.tasks[task];
      if t.generation != 0 && t.generation != id.generation then (s, Err(GenerationMismatch))
      else if input.expectedLinks.Some? && input.expectedLinks.value != (t.identity.goal, t.identity.workstream) then (s, Err(Conflict))
      else if p.subject.action == Update && p.subject.change.status.NullStatus? then (s, Err(InvalidRequest))
      else if !input.relationshipOk then (s, Err(Conflict))
      else
        (s.(candidates := s.candidates[id := Resolved(s.candidates[id], Accepted, Some(task), now)],
            tasks := s.tasks[task := Patched(t, id.generation, p.subject.action, p.subject.change, p.notes.evidence)]),
         Ok(Receipt(id, Accepted, Some(task), true, Some(now))))
  }

  function ResolveTaskTxn(s: Store, id: CandidateId, generation: nat, input: TaskInput, now: Time): (Store, Result<Receipt>) {
    if s.generation != generation then (s, Err(GenerationMismatch))
    else if id !in s.candidates then (s, Err(NotFound))
    else if id.generation != generation then (s, Err(GenerationMismatch))
    else
      var c := s.candidates[id];
      if c.status == Accepted then (s, Ok(Receipt(id, Accepted, c.result, false, c.resolvedAt)))
      else if c.status != Pending then (s, Err(Conflict))
      else if Blocked(s, id, now) then (s, Err(Conflict))
      else
        match c.proposal.subject
        case CreateWorkstream(_) => (s, Err(ResolverUnavailable))
        case CreateTask(_) => AcceptCreate(s, id, input, now)
        case ChangeTask(_, _, _) => AcceptChange(s, id, input, now)
  }

  function ResolveWithoutTxn(s: Store, id: CandidateId, status: Status, generation: nat, now: Time): (Store, Result<Receipt>) {
    if status != Rejected && status != Expired then (s, Err(InvalidRequest))
    else if s.generation != generation then (s, Err(GenerationMismatch))
    else if id !in s.candidates then (s, Err(NotFound))
    else if id.generation != generation then (s, Err(GenerationMismatch))
    else
      var c := s.candidates[id];
      if c.status == status then (s, Ok(Receipt(id, status, None, false, c.resolvedAt)))
      else if c.status != Pending then (s, Err(Conflict))
      else if Blocked(s, id, now) then (s, Err(Conflict))
      else
        (s.(candidates := s.candidates[id := Resolved(c, status, c.result, now)]),
         Ok(Receipt(id, status, None, true, Some(now))))
  }

  // ----- legacy promotion lane -----

  function ReconcileTxn(s: Store, id: CandidateId, status: Status, generation: nat, result: Option<TaskId>,
                        at: Time, token: Option<nat>): (Store, Result<CandidateId>)
  {
    if status == Pending || (status == Accepted && result.None?) then (s, Err(InvalidRequest))
    else if s.generation != generation then (s, Err(GenerationMismatch))
    else if id !in s.candidates then (s, Err(NotFound))
    else if id.generation != generation then (s, Err(GenerationMismatch))
    else
      var c := s.candidates[id];
      if c.status == status then (s, Ok(id))
      else if c.status != Pending then (s, Err(Conflict))
      else if Blocked(s, id, at) &&
              (|| token != Some(s.claims[id].token)
               || !OwnerIsActive(s.claims[id], at)
               || s.claims[id].phase != MutationStarted
               || status != Accepted
               || s.claims[id].result != result) then (s, Err(Conflict))
      else if !Blocked(s, id, at) && token.Some? then (s, Err(Conflict))
      else
        (s.(candidates := s.candidates[id := Resolved(c, status, if result.Some? then result else c.result, at)],
            claims := if token.Some? then s.claims[id := s.claims[id].(active := false)] else s.claims),
         Ok(id))
  }

  function ClaimTxn(s: Store, id: CandidateId, generation: nat, resume: bool, leaseSeconds: int, now: Time)
    : (Store, Result<nat>)
  {
    if s.generation != generation then (s, Err(GenerationMismatch))
    else if id !in s.candidates then (s, Err(NotFound))
    else if id.generation != generation then (s, Err(GenerationMismatch))
    else if s.candidates[id].status != Pending then (s, Err(Conflict))
    else if id in s.claims && OwnerIsActive(s.claims[id], now) then
      if resume then (s, Ok(s.claims[id].token)) else (s, Err(Conflict))
    else if id in s.claims && s.claims[id].active && s.claims[id].phase == MutationStarted then
      if s.claims[id].result.None? then (s, Err(Conflict))
      else
        (s.(claims := s.claims[id := s.claims[id].(token := s.nextToken, leaseExpiresAt := now + leaseSeconds)],
            nextToken := s.nextToken + 1),
         Ok(s.nextToken))
    else
      (s.(claims := s.claims[id := Claim(s.nextToken, true, PreMutation, None, None, now + leaseSeconds)],
          nextToken := s.nextToken + 1),
       Ok(s.nextToken))
  }

  datatype BeginRequest = BeginRequest(
    token: nat, result: TaskId, preferred: Option<TaskId>, alreadyCommitted: bool, leaseSeconds: int)

  predicate PreferredIsActive(s: Store, preferred: Option<TaskId>) {
    && preferred.Some? && preferred.value in s.tasks
    && !s.tasks[preferred.value].completed && !s.tasks[preferred.value].deleted
    && s.tasks[preferred.value].status == Active
  }

  function BeginTxn(s: Store, id: CandidateId, generation: nat, q: BeginRequest, now: Time)
    : (Store, Result<(TaskId, Reservation)>)
  {
    if s.generation != generation then (s, Err(GenerationMismatch))
    else if id !in s.candidates then (s, Err(NotFound))
    else if id.generation != generation then (s, Err(GenerationMismatch))
    else if s.candidates[id].status != Pending then (s, Err(Conflict))
    else if id !in s.claims then (s, Err(Conflict))
    else
      var c := s.claims[id];
      if !c.active || c.token != q.token || !OwnerIsActive(c, now) then (s, Err(Conflict))
      else if c.phase == MutationStarted then
        if c.result.None? || c.kind.None? then (s, Err(Conflict)) else (s, Ok((c.result.value, c.kind.value)))
      else
        var (task, kind) :=
          if q.alreadyCommitted then (q.result, Committed)
          else if PreferredIsActive(s, q.preferred) then (q.preferred.value, Existing)
          else (q.result, Create);
        (s.(claims := s.claims[id := c.(phase := MutationStarted, result := Some(task), kind := Some(kind),
                                        leaseExpiresAt := now + q.leaseSeconds)]),
         Ok((task, kind)))
  }

  // ----- integration outbox -----

  function ClaimDispatchTxn(s: Store, id: CandidateId, generation: nat, leaseSeconds: int, now: Time): (Store, Option<nat>) {
    if id !in s.outbox then (s, None)
    else
      var d := s.outbox[id];
      if d.generation != generation || s.generation != generation then
        (s.(outbox := s.outbox[id := d.(status := Suppressed)]), None)
      else if d.status == Dispatched || d.status == Suppressed then (s, None)
      else if d.status == Dispatching && d.claimedAt.Some? && d.claimedAt.value + leaseSeconds > now then (s, None)
      else
        (s.(outbox := s.outbox[id := d.(status := Dispatching, attempts := d.attempts + 1,
                                         token := Some(s.nextToken), claimedAt := Some(now))],
            nextToken := s.nextToken + 1),
         Some(s.nextToken))
  }

  function CompleteDispatchTxn(s: Store, id: CandidateId, generation: nat, token: nat, succeeded: bool): (Store, bool) {
    if id !in s.outbox then (s, false)
    else
      var d := s.outbox[id];
      if d.generation != generation || s.generation != generation then
        (s.(outbox := s.outbox[id := d.(status := Suppressed)]), false)
      else if d.status != Dispatching || d.token != Some(token) then (s, false)
      else
        (s.(outbox := s.outbox[id := d.(status := if succeeded then Dispatched else DispatchFailed, token := None)]), true)
  }

  // ----- arbitrary interleavings -----

  /** `clock` is the latest instant a create ran at; nothing else needs time to be ordered. */
  datatype System = System(store: Store, clock: Time)

  datatype Op =
    | OpCreate(now: Time, proposal: Proposal, key: string, generation: nat)
    | OpResolve(id: CandidateId, generation: nat, input: TaskInput, now: Time)
    | OpResolveWithout(id: CandidateId, status: Status, generation: nat, now: Time)
    | OpReconcile(id: CandidateId, status: Status, generation: nat, result: Option<TaskId>, at: Time, token: Option<nat>)
    | OpClaim(id: CandidateId, generation: nat, resume: bool, leaseSeconds: int, now: Time)
    | OpBegin(id: CandidateId, generation: nat, begin: BeginRequest, now: Time)
    | OpClaimDispatch(id: CandidateId, generation: nat, leaseSeconds: int, now: Time)
    | OpCompleteDispatch(id: CandidateId, generation: nat, dispatchToken: nat, succeeded: bool)
    | OpSetGeneration(generation: nat)
    | OpTask(task: TaskId, written: Option<Task>)

  predicate Enabled(s: System, op: Op) {
    op.OpCreate? ==> s.clock <= op.now
  }

  function Effect(s: Store, op: Op): Store {
    match op
    case OpCreate(now, p, key, g) => CreateTxn(s, p, key, g, now).0
    case OpResolve(id, g, input, now) => ResolveTaskTxn(s, id, g, input, now).0
    case OpResolveWithout(id, status, g, now) => ResolveWithoutTxn(s, id, status, g, now).0
    case OpReconcile(id, status, g, result, at, token) => ReconcileTxn(s, id, status, g, result, at, token).0
    case OpClaim(id, g, resume, lease, now) => ClaimTxn(s, id, g, resume, lease, now).0
    case OpBegin(id, g, q, now) => BeginTxn(s, id, g, q, now).0
    case OpClaimDispatch(id, g, lease, now) => ClaimDispatchTxn(s, id, g, lease, now).0
    case OpCompleteDispatch(id, g, token, ok) => CompleteDispatchTxn(s, id, g, token, ok).0
    case OpSetGeneration(g) => s.(generation := g)
    case OpTask(task, written) =>
      if written.Some? then s.(tasks := s.tasks[task := written.value]) else s.(tasks := s.tasks - {task})
  }

  function Step(s: System, op: Op): System {
    System(Effect(s.store, op), if op.OpCreate? then op.now else s.clock)
  }

  ghost predicate Runs(s: System, ops: seq<Op>)
    decreases |ops|
  {
    ops == [] || (Enabled(s, ops[0]) && Runs(Step(s, ops[0]), ops[1..]))
  }

  ghost function After(s: System, ops: seq<Op>): System
    decreases |ops|
  {
    if ops == [] then s else After(Step(s, ops[0]), ops[1..])
  }

  function Initial(generation: nat, clock: Time): System {
    System(Store(generation, map[], map[], map[], map[], map[], map[], 0), clock)
  }
}
