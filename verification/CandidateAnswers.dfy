/**
  What each candidate transaction answers and writes, exactly when, spelled out on the stored documents; and what
  follows over whole runs for repeated captures and for superseded promotion workers.
*/
module CandidateAnswers {
  import opened Wrappers
  import opened CandidateModel
  import opened CandidateTransactions
  import opened CandidateRuns

  // ----- 1. captures -----

  ghost predicate FreshKey(s: Store, key: string, g: nat) {
    && s.generation == g && (exists ch :: ch in key && ch !in " \t\n\r")
    && CandidateId(g, key) !in s.aliases && CandidateId(g, key) !in s.candidates
  }

  /** The slot of this identity names a pending candidate that the user can still read. */
  ghost predicate NamesReadable(s: Store, g: nat, identity: TaskIdentity, now: Time) {
    && (g, identity) in s.slots && s.slots[(g, identity)] in s.candidates && s.slots[(g, identity)].generation == g
    && var c := s.candidates[s.slots[(g, identity)]];
       c.status == Pending && now < (if c.expiresAt.Some? then c.expiresAt.value else c.createdAt + 2 * 24 * 3600)
  }

  /** The slot of this identity names an accepted candidate whose task is still open, for this generation, and the same work. */
  ghost predicate NamesOpenWork(s: Store, g: nat, identity: TaskIdentity) {
    && (g, identity) in s.slots && s.slots[(g, identity)] in s.candidates && s.slots[(g, identity)].generation == g
    && var c := s.candidates[s.slots[(g, identity)]];
       && c.status == Accepted && c.result.Some? && c.result.value in s.tasks && c.proposal.subject.CreateTask?
       && var task := s.tasks[c.result.value];
          && (task.generation == 0 || task.generation == g)
          && task.status == Active && !task.completed && !task.deleted
          && task.identity == c.proposal.subject.identity
  }

  /**
    A capture of a task under a fresh key mints a candidate exactly when its slot names neither a readable pending
    candidate nor open accepted work. Otherwise it answers the named candidate and mints none.
  */
  lemma CaptureMintsExactlyWhen(s: Store, p: Proposal, key: string, g: nat, now: Time)
    requires FreshKey(s, key, g) && p.subject.CreateTask?
    ensures var (t, reply) := CreateTxn(s, p, key, g, now);
            var own, slot := CandidateId(g, key), (g, p.subject.identity);
            && reply.Ok? && t.aliases == s.aliases[own := Alias(reply.value, p)]
            && t.claims == s.claims && t.outbox == s.outbox && t.nextToken == s.nextToken && t.generation == g
            && if NamesReadable(s, g, p.subject.identity, now) || NamesOpenWork(s, g, p.subject.identity) then
                 reply.value == s.slots[slot] && t.candidates.Keys == s.candidates.Keys && t.slots == s.slots
               else
                 && reply.value == own && t.slots == s.slots[slot := own] && t.tasks == s.tasks
                 && t.candidates == s.candidates[own := Candidate(p, Pending, None, now, None, Some(now + 2 * 24 * 3600))]
  {
  }

  /** Proposals that are not task creations share no slot: a fresh key always mints. */
  lemma OtherCaptureMints(s: Store, p: Proposal, key: string, g: nat, now: Time)
    requires FreshKey(s, key, g) && !p.subject.CreateTask?
    ensures var own := CandidateId(g, key);
            CreateTxn(s, p, key, g, now) ==
              (s.(candidates := s.candidates[own := Candidate(p, Pending, None, now, None, Some(now + 2 * 24 * 3600))],
                  aliases := s.aliases[own := Alias(own, p)]),
               Ok(own))
  {
  }

  ghost predicate TakesGreater(a: real, b: real, r: real) { r >= a && r >= b && (r == a || r == b) }

  /**
    A joined capture adds its annotations to the named candidate and changes nothing else about it. If that candidate
    was accepted, its task gains the same annotations; otherwise no task is touched.
  */
  lemma JoinedCaptureAnnotates(s: Store, p: Proposal, key: string, g: nat, now: Time)
    requires FreshKey(s, key, g) && p.subject.CreateTask?
    requires NamesReadable(s, g, p.subject.identity, now) || NamesOpenWork(s, g, p.subject.identity)
    ensures var t := CreateTxn(s, p, key, g, now).0;
            var id := s.slots[(g, p.subject.identity)];
            var was, becomes := s.candidates[id], t.candidates[id];
            && t.candidates == s.candidates[id := becomes]
            && becomes == was.(proposal := Proposal(was.proposal.subject, becomes.proposal.notes))
            && TakesGreater(was.proposal.notes.capture, p.notes.capture, becomes.proposal.notes.capture)
            && TakesGreater(was.proposal.notes.ownership, p.notes.ownership, becomes.proposal.notes.ownership)
            && becomes.proposal.notes.evidence == MergeEvidence(was.proposal.notes.evidence, p.notes.evidence)
            && (was.status == Pending ==> t.tasks == s.tasks)
            && (was.status == Accepted ==>
                  && NamesOpenWork(s, g, p.subject.identity)
                  && var x := was.result.value;
                     && t.tasks == s.tasks[x := t.tasks[x]] && t.tasks[x] == s.tasks[x].(notes := t.tasks[x].notes)
                     && t.tasks[x].notes.capture >= p.notes.capture && t.tasks[x].notes.ownership >= p.notes.ownership
                     && (forall e :: e in t.tasks[x].notes.evidence <==>
                           e in s.tasks[x].notes.evidence || e in becomes.proposal.notes.evidence))
  {
    var id := s.slots[(g, p.subject.identity)];
    var was, becomes := s.candidates[id], CreateTxn(s, p, key, g, now).0.candidates[id];
    assert becomes == Annotated(was, p.notes);
    if was.status == Accepted {
      DistinctProperties(s.tasks[was.result.value].notes.evidence + becomes.proposal.notes.evidence);
    }
  }

  /** What is asked of every capture before its content matters, and how a key that is already known answers. */
  lemma KnownKeyAnswers(s: Store, p: Proposal, key: string, g: nat, now: Time)
    ensures var (t, reply) := CreateTxn(s, p, key, g, now);
            var own := CandidateId(g, key);
            if forall ch :: ch in key ==> ch in " \t\n\r" then t == s && reply == Err(InvalidRequest)
            else if s.generation != g then t == s && reply == Err(GenerationMismatch)
            else if own in s.aliases then
              && t == s
              && (reply.Ok? <==> s.aliases[own].request == p && s.aliases[own].candidate in s.candidates
                                 && s.aliases[own].candidate.generation == g)
              && reply == if reply.Ok? then Ok(s.aliases[own].candidate) else Err(Conflict)
            else if own in s.candidates then
              && (reply.Ok? <==> s.candidates[own].proposal == p)
              && (reply.Ok? ==> reply.value == own && t == s.(aliases := s.aliases[own := Alias(own, p)]))
              && (!reply.Ok? ==> t == s && reply == Err(Conflict))
            else FreshKey(s, key, g)
  {
  }

  // ----- open work is proposed once -----

  /** The candidate behind open work: accepted with this task. */
  ghost predicate OpenWork(s: Store, id: CandidateId, g: nat, identity: TaskIdentity, x: TaskId) {
    NamesOpenWork(s, g, identity) && s.slots[(g, identity)] == id && s.candidates[id].result == Some(x)
    && s.candidates[id].proposal.subject == CreateTask(identity)
  }

  ghost predicate TaskIsOpen(s: Store, x: TaskId, g: nat, identity: TaskIdentity) {
    && x in s.tasks && (s.tasks[x].generation == 0 || s.tasks[x].generation == g)
    && s.tasks[x].status == Active && !s.tasks[x].completed && !s.tasks[x].deleted && s.tasks[x].identity == identity
  }

  /** The task is open and unchanged after every step of the run. */
  ghost predicate StaysOpen(s: System, ops: seq<Op>, x: TaskId, g: nat, identity: TaskIdentity)
    decreases |ops|
  {
    TaskIsOpen(s.store, x, g, identity) && (ops == [] || StaysOpen(Step(s, ops[0]), ops[1..], x, g, identity))
  }

  ghost predicate Proposes(s: Store, c: CandidateId, g: nat, identity: TaskIdentity) {
    c in s.candidates && c.generation == g && s.candidates[c].proposal.subject == CreateTask(identity)
  }

  /** No step mints a second proposal for open work, nor renames its slot. */
  lemma CaptureKeepsOpenWork(s: Store, p: Proposal, key: string, g2: nat, now: Time, id: CandidateId, g: nat, identity: TaskIdentity, x: TaskId)
    requires OpenWork(s, id, g, identity, x)
    ensures var t := CreateTxn(s, p, key, g2, now).0;
            && (g, identity) in t.slots && t.slots[(g, identity)] == id
            && forall c | Proposes(t, c, g, identity) :: Proposes(s, c, g, identity)
  {
    KnownKeyAnswers(s, p, key, g2, now);
    if FreshKey(s, key, g2) {
      if p.subject.CreateTask? {
        CaptureMintsExactlyWhen(s, p, key, g2, now);
        if NamesReadable(s, g2, p.subject.identity, now) || NamesOpenWork(s, g2, p.subject.identity) {
          JoinedCaptureAnnotates(s, p, key, g2, now);
        }
      } else {
        OtherCaptureMints(s, p, key, g2, now);
      }
    }
  }

  /** Only captures write slots or mint candidates. */
  ghost predicate SameNames(s: Store, t: Store) { t.slots == s.slots && t.candidates.Keys == s.candidates.Keys }

  lemma ResolveKeepsNames(s: Store, x: CandidateId, g: nat, input: TaskInput, now: Time)
    ensures SameNames(s, ResolveTaskTxn(s, x, g, input, now).0)
  {
  }

  lemma RejectKeepsNames(s: Store, x: CandidateId, status: Status, g: nat, now: Time)
    ensures SameNames(s, ResolveWithoutTxn(s, x, status, g, now).0)
  {
  }

  lemma ReconcileKeepsNames(s: Store, x: CandidateId, status: Status, g: nat, result: Option<TaskId>, at: Time, token: Option<nat>)
    ensures SameNames(s, ReconcileTxn(s, x, status, g, result, at, token).0)
  {
  }

  lemma LaneKeepsNames(s: Store, x: CandidateId, g: nat, resume: bool, lease: int, q: BeginRequest, now: Time)
    ensures SameNames(s, ClaimTxn(s, x, g, resume, lease, now).0) && SameNames(s, BeginTxn(s, x, g, q, now).0)
  {
  }

  lemma DispatchKeepsNames(s: Store, x: CandidateId, g: nat, lease: int, now: Time, token: nat, ok: bool)
    ensures SameNames(s, ClaimDispatchTxn(s, x, g, lease, now).0) && SameNames(s, CompleteDispatchTxn(s, x, g, token, ok).0)
  {
  }

  lemma OtherOpsKeepNames(s: Store, op: Op)
    requires !op.OpCreate?
    ensures SameNames(s, Effect(s, op))
  {
    match op
    case OpResolve(x, g, input, now) => ResolveKeepsNames(s, x, g, input, now);
    case OpResolveWithout(x, status, g, now) => RejectKeepsNames(s, x, status, g, now);
    case OpReconcile(x, status, g, result, at, token) => ReconcileKeepsNames(s, x, status, g, result, at, token);
    case OpClaim(x, g, resume, lease, now) => LaneKeepsNames(s, x, g, resume, lease, BeginRequest(0, TaskFor(x), None, false, 0), now);
    case OpBegin(x, g, q, now) => LaneKeepsNames(s, x, g, false, 0, q, now);
    case OpClaimDispatch(x, g, lease, now) => DispatchKeepsNames(s, x, g, lease, now, 0, false);
    case OpCompleteDispatch(x, g, token, ok) => DispatchKeepsNames(s, x, g, 0, 0, token, ok);
    case _ =>
  }

  lemma StepKeepsOpenWork(s: System, op: Op, id: CandidateId, g: nat, identity: TaskIdentity, x: TaskId)
    requires Inv(s) && Enabled(s, op) && OpenWork(s.store, id, g, identity, x)
    requires TaskIsOpen(Step(s, op).store, x, g, identity)
    ensures OpenWork(Step(s, op).store, id, g, identity, x)
    ensures forall c | Proposes(Step(s, op).store, c, g, identity) :: Proposes(s.store, c, g, identity)
  {
    StepKeepsInv(s, op);
    if op.OpCreate? {
      CaptureKeepsOpenWork(s.store, op.proposal, op.key, op.generation, op.now, id, g, identity, x);
    } else {
      OtherOpsKeepNames(s.store, op);
    }
    assert CandidateEvolves(s.store.candidates[id], Step(s, op).store.candidates[id]);
    forall c | Proposes(Step(s, op).store, c, g, identity) ensures Proposes(s.store, c, g, identity) {
      if c in s.store.candidates { assert CandidateEvolves(s.store.candidates[c], Step(s, op).store.candidates[c]); }
    }
  }

  /**
    While accepted work stays open and unchanged, whatever else runs, no second proposal for it is ever minted, and
    every new capture of it joins the accepted candidate.
  */
  lemma {:induction false} OpenWorkIsProposedOnce(s: System, ops: seq<Op>, id: CandidateId, g: nat, identity: TaskIdentity, x: TaskId)
    requires Inv(s) && Runs(s, ops) && OpenWork(s.store, id, g, identity, x) && StaysOpen(s, ops, x, g, identity)
    ensures forall c | Proposes(After(s, ops).store, c, g, identity) :: Proposes(s.store, c, g, identity)
    ensures forall p: Proposal, key, now | FreshKey(After(s, ops).store, key, g) && p.subject == CreateTask(identity) ::
              CreateTxn(After(s, ops).store, p, key, g, now).1 == Ok(id)
    decreases |ops|
  {
    if ops == [] {
      forall p: Proposal, key, now | FreshKey(s.store, key, g) && p.subject == CreateTask(identity)
        ensures CreateTxn(s.store, p, key, g, now).1 == Ok(id)
      {
        CaptureMintsExactlyWhen(s.store, p, key, g, now);
      }
    } else {
      assert StaysOpen(Step(s, ops[0]), ops[1..], x, g, identity);
      StepKeepsOpenWork(s, ops[0], id, g, identity, x);
      StepKeepsInv(s, ops[0]);
      OpenWorkIsProposedOnce(Step(s, ops[0]), ops[1..], id, g, identity, x);
    }
  }

  // ----- 2. direct resolution -----

  /** The legacy lane has started its task, or holds an unexpired lease. */
  ghost predicate LaneHolds(s: Store, id: CandidateId, now: Time) {
    id in s.claims && s.claims[id].active && (s.claims[id].phase == MutationStarted || now < s.claims[id].leaseExpiresAt)
  }

  /** What every resolution asks first; `confirms` is the status that merely repeats. */
  function OpeningAnswer(s: Store, id: CandidateId, g: nat): Option<Error> {
    if s.generation != g then Some(GenerationMismatch)
    else if id !in s.candidates then Some(NotFound)
    else if id.generation != g then Some(GenerationMismatch)
    else None
  }

  /** Accepting a create newly resolves it exactly when it waits, the legacy lane does not hold it, and its task id is free or its own. */
  lemma CreateAcceptedExactlyWhen(s: Store, id: CandidateId, g: nat, input: TaskInput, now: Time)
    requires id in s.candidates && s.candidates[id].proposal.subject.CreateTask?
    ensures var (t, reply) := ResolveTaskTxn(s, id, g, input, now);
            var c := s.candidates[id];
            if OpeningAnswer(s, id, g).Some? then t == s && reply == Err(OpeningAnswer(s, id, g).value)
            else if c.status == Accepted then t == s && reply == Ok(Receipt(id, Accepted, c.result, false, c.resolvedAt))
            else if && c.status == Pending && !LaneHolds(s, id, now) && input.relationshipOk
                    && (TaskFor(id) in s.tasks ==> s.tasks[TaskFor(id)].candidate == Some(id)) then
              && reply == Ok(Receipt(id, Accepted, Some(TaskFor(id)), true, Some(now)))
              && t.candidates == s.candidates[id := c.(status := Accepted, result := Some(TaskFor(id)), resolvedAt := Some(now), expiresAt := None)]
              && t.outbox == s.outbox[id := Dispatch(TaskFor(id), id.generation, DispatchPending, 0, None, None)]
            else t == s && reply == Err(Conflict)
  {
  }

  /** Accepting a change newly resolves it exactly when it waits, its task is still there as expected, and the change is one. */
  lemma ChangeAcceptedExactlyWhen(s: Store, id: CandidateId, g: nat, input: TaskInput, now: Time)
    requires id in s.candidates && s.candidates[id].proposal.subject.ChangeTask?
    ensures var (t, reply) := ResolveTaskTxn(s, id, g, input, now);
            var c := s.candidates[id];
            var x := c.proposal.subject.task;
            if OpeningAnswer(s, id, g).Some? then t == s && reply == Err(OpeningAnswer(s, id, g).value)
            else if c.status == Accepted then t == s && reply == Ok(Receipt(id, Accepted, c.result, false, c.resolvedAt))
            else if c.status != Pending || LaneHolds(s, id, now) then t == s && reply == Err(Conflict)
            else if x !in s.tasks then t == s && reply == Err(NotFound)
            else if s.tasks[x].generation != 0 && s.tasks[x].generation != g then t == s && reply == Err(GenerationMismatch)
            else if input.expectedLinks.Some? && input.expectedLinks.value != (s.tasks[x].identity.goal, s.tasks[x].identity.workstream) then
              t == s && reply == Err(Conflict)
            else if c.proposal.subject.action == Update && c.proposal.subject.change.status.NullStatus? then t == s && reply == Err(InvalidRequest)
            else if !input.relationshipOk then t == s && reply == Err(Conflict)
            else
              && reply == Ok(Receipt(id, Accepted, Some(x), true, Some(now)))
              && t.candidates == s.candidates[id := c.(status := Accepted, result := Some(x), resolvedAt := Some(now), expiresAt := None)]
  {
  }

  lemma OtherAcceptanceAnswers(s: Store, id: CandidateId, g: nat, input: TaskInput, now: Time)
    requires id in s.candidates ==> s.candidates[id].proposal.subject.CreateWorkstream?
    ensures var (t, reply) := ResolveTaskTxn(s, id, g, input, now);
            && t == s
            && reply == if OpeningAnswer(s, id, g).Some? then Err(OpeningAnswer(s, id, g).value)
                        else if s.candidates[id].status == Accepted then
                          Ok(Receipt(id, Accepted, s.candidates[id].result, false, s.candidates[id].resolvedAt))
                        else if s.candidates[id].status != Pending || LaneHolds(s, id, now) then Err(Conflict)
                        else Err(ResolverUnavailable)
  {
  }

  /** Rejecting or expiring newly resolves exactly a waiting candidate the legacy lane does not hold. */
  lemma RejectedExactlyWhen(s: Store, id: CandidateId, status: Status, g: nat, now: Time)
    ensures var (t, reply) := ResolveWithoutTxn(s, id, status, g, now);
            if status == Pending || status == Accepted then t == s && reply == Err(InvalidRequest)
            else if OpeningAnswer(s, id, g).Some? then t == s && reply == Err(OpeningAnswer(s, id, g).value)
            else
              var c := s.candidates[id];
              if c.status == status then t == s && reply == Ok(Receipt(id, status, None, false, c.resolvedAt))
              else if c.status == Pending && !LaneHolds(s, id, now) then
                && reply == Ok(Receipt(id, status, None, true, Some(now)))
                && t == s.(candidates := s.candidates[id := c.(status := status, resolvedAt := Some(now), expiresAt := None)])
              else t == s && reply == Err(Conflict)
  {
  }

  // ----- 3. the legacy lane -----

  /**
    A legacy outcome is imported exactly onto a waiting candidate: without a token if the lane does not hold it, and
    otherwise only by the token of the unexpired claim that started this very task.
  */
  lemma ReconciledExactlyWhen(s: Store, id: CandidateId, status: Status, g: nat, result: Option<TaskId>, at: Time, token: Option<nat>)
    ensures var (t, reply) := ReconcileTxn(s, id, status, g, result, at, token);
            if status == Pending || (status == Accepted && result.None?) then t == s && reply == Err(InvalidRequest)
            else if OpeningAnswer(s, id, g).Some? then t == s && reply == Err(OpeningAnswer(s, id, g).value)
            else
              var c := s.candidates[id];
              if c.status == status then t == s && reply == Ok(id)
              else if c.status != Pending then t == s && reply == Err(Conflict)
              else if LaneHolds(s, id, at) then
                var k := s.claims[id];
                if token == Some(k.token) && at < k.leaseExpiresAt && k.phase == MutationStarted && status == Accepted && k.result == result then
                  && reply == Ok(id)
                  && t == s.(candidates := s.candidates[id := c.(status := Accepted, result := result, resolvedAt := Some(at), expiresAt := None)],
                             claims := s.claims[id := k.(active := false)])
                else t == s && reply == Err(Conflict)
              else if token.Some? then t == s && reply == Err(Conflict)
              else
                && reply == Ok(id)
                && t == s.(candidates := s.candidates[id :=
                             c.(status := status, result := if result.Some? then result else c.result, resolvedAt := Some(at), expiresAt := None)])
  {
  }

  /**
    A promotion worker is answered by the claim it finds: under an unexpired lease only a resuming caller is let in, on
    the same token; a started task whose worker is gone is taken over under a new token, its reservation untouched; and
    otherwise a new claim begins.
  */
  lemma PromotionClaimAnswers(s: Store, id: CandidateId, g: nat, resume: bool, leaseSeconds: int, now: Time)
    ensures var (t, reply) := ClaimTxn(s, id, g, resume, leaseSeconds, now);
            if OpeningAnswer(s, id, g).Some? then t == s && reply == Err(OpeningAnswer(s, id, g).value)
            else if s.candidates[id].status != Pending then t == s && reply == Err(Conflict)
            else if id in s.claims && s.claims[id].active && now < s.claims[id].leaseExpiresAt then
              t == s && reply == if resume then Ok(s.claims[id].token) else Err(Conflict)
            else if id in s.claims && s.claims[id].active && s.claims[id].phase == MutationStarted && s.claims[id].result.None? then
              t == s && reply == Err(Conflict)
            else
              && reply == Ok(s.nextToken)
              && t == s.(nextToken := s.nextToken + 1,
                         claims := s.claims[id :=
                           if id in s.claims && s.claims[id].active && s.claims[id].phase == MutationStarted
                           then s.claims[id].(token := s.nextToken, leaseExpiresAt := now + leaseSeconds)
                           else Claim(s.nextToken, true, PreMutation, None, None, now + leaseSeconds)])
  {
  }

  /** A promotion is begun exactly by the token of the unexpired claim on a waiting candidate; begun again, it hands out what is reserved. */
  lemma BegunExactlyWhen(s: Store, id: CandidateId, g: nat, q: BeginRequest, now: Time)
    ensures var (t, reply) := BeginTxn(s, id, g, q, now);
            if OpeningAnswer(s, id, g).Some? then t == s && reply == Err(OpeningAnswer(s, id, g).value)
            else if && s.candidates[id].status == Pending && id in s.claims && s.claims[id].active && s.claims[id].token == q.token
                    && now < s.claims[id].leaseExpiresAt
                    && (s.claims[id].phase == MutationStarted ==> s.claims[id].result.Some? && s.claims[id].kind.Some?) then
              var k := s.claims[id];
              if k.phase == MutationStarted then t == s && reply == Ok((k.result.value, k.kind.value))
              else
                && reply.Ok?
                && t == s.(claims := s.claims[id := k.(phase := MutationStarted, result := Some(reply.value.0), kind := Some(reply.value.1),
                                                       leaseExpiresAt := now + q.leaseSeconds)])
            else t == s && reply == Err(Conflict)
  {
  }

  /** The task a first begin reserves: the preferred one exactly when it exists and is open, and nothing was committed yet. */
  lemma BegunReserves(s: Store, id: CandidateId, g: nat, q: BeginRequest, now: Time)
    requires id in s.claims && s.claims[id].phase == PreMutation && BeginTxn(s, id, g, q, now).1.Ok?
    ensures var reply := BeginTxn(s, id, g, q, now).1.value;
            if q.alreadyCommitted then reply == (q.result, Committed)
            else if && q.preferred.Some? && q.preferred.value in s.tasks && s.tasks[q.preferred.value].status == Active
                    && !s.tasks[q.preferred.value].completed && !s.tasks[q.preferred.value].deleted then reply == (q.preferred.value, Existing)
            else reply == (q.result, Create)
  {
  }

  /** A promotion token that was issued once and is not the current one of its claim. */
  ghost predicate StaleClaim(s: Store, id: CandidateId, token: nat) {
    token < s.nextToken && (id in s.claims ==> s.claims[id].token != token)
  }

  /** The token of a claim moves only to one never issued before. */
  ghost predicate TokenMoves(s: Store, t: Store, id: CandidateId) {
    && s.nextToken <= t.nextToken
    && (id in t.claims ==> (id in s.claims && t.claims[id].token == s.claims[id].token) || t.claims[id].token == s.nextToken)
  }

  lemma ResolutionMovesNoToken(s: Store, x: CandidateId, g: nat, input: TaskInput, status: Status, now: Time, id: CandidateId)
    ensures TokenMoves(s, ResolveTaskTxn(s, x, g, input, now).0, id)
    ensures TokenMoves(s, ResolveWithoutTxn(s, x, status, g, now).0, id)
  {
  }

  lemma CreateMovesNoToken(s: Store, p: Proposal, key: string, g: nat, now: Time, id: CandidateId)
    ensures TokenMoves(s, CreateTxn(s, p, key, g, now).0, id)
  {
  }

  lemma LaneMovesToken(s: Store, x: CandidateId, g: nat, resume: bool, lease: int, q: BeginRequest, now: Time, id: CandidateId)
    ensures TokenMoves(s, ClaimTxn(s, x, g, resume, lease, now).0, id)
    ensures TokenMoves(s, BeginTxn(s, x, g, q, now).0, id)
  {
  }

  lemma ReconcileMovesNoToken(s: Store, x: CandidateId, status: Status, g: nat, result: Option<TaskId>, at: Time, token: Option<nat>,
                              id: CandidateId)
    ensures TokenMoves(s, ReconcileTxn(s, x, status, g, result, at, token).0, id)
  {
  }

  lemma DispatchMovesNoToken(s: Store, x: CandidateId, g: nat, lease: int, now: Time, token: nat, ok: bool, id: CandidateId)
    ensures TokenMoves(s, ClaimDispatchTxn(s, x, g, lease, now).0, id)
    ensures TokenMoves(s, CompleteDispatchTxn(s, x, g, token, ok).0, id)
  {
  }

  lemma StepMovesToken(s: Store, op: Op, id: CandidateId)
    ensures TokenMoves(s, Effect(s, op), id)
  {
    match op
    case OpClaim(x, g, resume, lease, now) => LaneMovesToken(s, x, g, resume, lease, BeginRequest(0, TaskFor(x), None, false, 0), now, id);
    case OpBegin(x, g, q, now) => LaneMovesToken(s, x, g, false, 0, q, now, id);
    case OpReconcile(x, status, g, result, at, token) => ReconcileMovesNoToken(s, x, status, g, result, at, token, id);
    case OpCreate(now, p, key, g) => CreateMovesNoToken(s, p, key, g, now, id);
    case OpResolve(x, g, input, now) => ResolutionMovesNoToken(s, x, g, input, Rejected, now, id);
    case OpResolveWithout(x, status, g, now) => ResolutionMovesNoToken(s, x, g, TaskInput(false, None), status, now, id);
    case OpClaimDispatch(x, g, lease, now) => DispatchMovesNoToken(s, x, g, lease, now, 0, false, id);
    case OpCompleteDispatch(x, g, token, ok) => DispatchMovesNoToken(s, x, g, 0, 0, token, ok, id);
    case _ =>
  }

  /** Neither beginning nor importing works with this token. */
  ghost predicate PromotionRefused(s: Store, id: CandidateId, token: nat) {
    && (forall g, q: BeginRequest, now | q.token == token :: BeginTxn(s, id, g, q, now).1.Err?)
    && (forall status, g, result, at :: ReconcileTxn(s, id, status, g, result, at, Some(token)).0 == s)
  }

  lemma StaleIsRefused(s: Store, id: CandidateId, token: nat)
    requires StaleClaim(s, id, token)
    ensures PromotionRefused(s, id, token)
  {
    forall g, q: BeginRequest, now | q.token == token ensures BeginTxn(s, id, g, q, now).1.Err? {
      BegunExactlyWhen(s, id, g, q, now);
    }
    forall status, g, result, at ensures ReconcileTxn(s, id, status, g, result, at, Some(token)).0 == s {
      ReconciledExactlyWhen(s, id, status, g, result, at, Some(token));
    }
  }

  /** Once a promotion was taken over under a new token, the old worker can neither begin nor import anything, for ever. */
  lemma {:induction false} SupersededPromotionIsInert(s: System, ops: seq<Op>, id: CandidateId, token: nat)
    requires StaleClaim(s.store, id, token)
    ensures PromotionRefused(After(s, ops).store, id, token)
    decreases |ops|
  {
    if ops == [] {
      StaleIsRefused(s.store, id, token);
    } else {
      StepMovesToken(s.store, ops[0], id);
      SupersededPromotionIsInert(Step(s, ops[0]), ops[1..], id, token);
    }
  }

  /** A takeover supersedes: after any claim that issues a new token, the token it replaced is refused for ever. */
  lemma TakeoverSupersedes(s: System, id: CandidateId, g: nat, resume: bool, leaseSeconds: int, now: Time, ops: seq<Op>)
    requires Inv(s) && id in s.store.claims && ClaimTxn(s.store, id, g, resume, leaseSeconds, now).1.Ok?
    requires ClaimTxn(s.store, id, g, resume, leaseSeconds, now).1.value != s.store.claims[id].token
    ensures PromotionRefused(After(Step(s, OpClaim(id, g, resume, leaseSeconds, now)), ops).store, id, s.store.claims[id].token)
  {
    PromotionClaimAnswers(s.store, id, g, resume, leaseSeconds, now);
    SupersededPromotionIsInert(Step(s, OpClaim(id, g, resume, leaseSeconds, now)), ops, id, s.store.claims[id].token);
  }

  // ----- 4. dispatch -----

  /** A dispatch is handed out exactly when its row is not settled and no delivery is under way within the lease. */
  lemma DispatchClaimAnswers(s: Store, id: CandidateId, g: nat, leaseSeconds: int, now: Time)
    ensures var (t, token) := ClaimDispatchTxn(s, id, g, leaseSeconds, now);
            if id !in s.outbox then t == s && token == None
            else
              var d := s.outbox[id];
              if d.generation != g || s.generation != g then token == None && t == s.(outbox := s.outbox[id := d.(status := Suppressed)])
              else if d.status == DispatchPending || d.status == DispatchFailed
                      || (d.status == Dispatching && (d.claimedAt.Some? ==> d.claimedAt.value + leaseSeconds <= now)) then
                && token == Some(s.nextToken)
                && t == s.(nextToken := s.nextToken + 1,
                           outbox := s.outbox[id := d.(status := Dispatching, attempts := d.attempts + 1,
                                                       token := Some(s.nextToken), claimedAt := Some(now))])
              else t == s && token == None
  {
  }

  /** A delivery is recorded exactly by the token that holds the row; a failure makes it claimable again. */
  lemma DispatchCompletionAnswers(s: Store, id: CandidateId, g: nat, token: nat, succeeded: bool)
    ensures var (t, done) := CompleteDispatchTxn(s, id, g, token, succeeded);
            if id !in s.outbox then t == s && !done
            else
              var d := s.outbox[id];
              if d.generation != g || s.generation != g then !done && t == s.(outbox := s.outbox[id := d.(status := Suppressed)])
              else if d.status == Dispatching && d.token == Some(token) then
                done && t == s.(outbox := s.outbox[id := d.(status := if succeeded then Dispatched else DispatchFailed, token := None)])
              else t == s && !done
  {
  }
}
