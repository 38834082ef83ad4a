/**
  The candidate store as the backend runs it: each transaction checks its documents in order and then
  writes them. Every method refines the transaction of the same name over values.
*/
module CandidateStore {
  import opened Wrappers
  import opened CandidateModel
  import opened CandidateTransactions

  /** The patch of an accepted change: payload fields, links and evidence first, then the action's own status. */
  method PatchTask(t: Task, generation: nat, action: TaskAction, change: TaskChange, evidence: seq<Evidence>) returns (patched: Task)
    ensures patched == Patched(t, generation, action, change, evidence)
  {
    patched := t.(generation := generation, identity := ChangedIdentity(t.identity, change),
                  notes := t.notes.(evidence := Distinct(t.notes.evidence + evidence),
                                    dueConfidence := Or(change.dueConfidence, t.notes.dueConfidence),
                                    priority := Or(change.priority, t.notes.priority)));
    match action {
      case Complete => patched := patched.(status := TaskCompleted, completed := true);
      case Cancel => patched := patched.(status := Cancelled, completed := false);
      case Supersede => patched := patched.(status := Superseded, completed := false);
      case Update =>
        if change.status.SetStatus? {
          patched := patched.(status := change.status.status, completed := change.status.status == TaskCompleted);
        }
    }
  }

  class Documents {
    var generation: nat
    var candidates: map<CandidateId, Candidate>
    var aliases: map<CandidateId, Alias>
    var slots: map<Slot, CandidateId>
    var claims: map<CandidateId, Claim>
    var tasks: map<TaskId, Task>
    var outbox: map<CandidateId, Dispatch>
    var nextToken: nat

    ghost function State(): Store
      reads this
    {
      Store(generation, candidates, aliases, slots, claims, tasks, outbox, nextToken)
    }

    constructor (generation: nat)
      ensures State() == Initial(generation, 0).store
    {
      this.generation := generation;
      candidates, aliases, slots, claims, tasks, outbox := map[], map[], map[], map[], map[], map[];
      nextToken := 0;
    }

    /** A token never issued before. */
    method FreshToken() returns (token: nat)
      modifies this`nextToken
      ensures token == old(nextToken) && nextToken == token + 1
    {
      token := nextToken;
      nextToken := nextToken + 1;
    }

    method ReadSlot(identity: TaskIdentity, now: Time) returns (into: Option<CandidateId>)
      ensures into == Reusable(State(), generation, identity, now)
    {
      into := None;
      var slot := (generation, identity);
      if slot in slots && slots[slot] in candidates && slots[slot].generation == generation {
        var c := candidates[slots[slot]];
        if c.status == Pending && !Lapsed(c, now) {
          into := Some(slots[slot]);
        } else if c.status == Accepted && c.result.Some? && c.result.value in tasks && c.proposal.subject.CreateTask? {
          var t := tasks[c.result.value];
          if TaskIsActive(t, generation) && t.identity == c.proposal.subject.identity {
            into := Some(slots[slot]);
          }
        }
      }
    }

    /** Merge annotations into an existing candidate and, when it was accepted, into its task. */
    method JoinExisting(id: CandidateId, p: Proposal, into: CandidateId)
      requires into in candidates && p.subject.CreateTask?
      modifies this
      ensures State() == Coalesce(old(State()), id, p, into)
    {
      var c := candidates[into];
      var evidence := MergeEvidenceLoop(c.proposal.notes.evidence, p.notes.evidence);
      var notes := Annotations(
        MaxReal(c.proposal.notes.capture, p.notes.capture), MaxReal(c.proposal.notes.ownership, p.notes.ownership),
        evidence, Overlay(c.proposal.notes.compatibility, p.notes.compatibility),
        MaxConfidence(c.proposal.notes.dueConfidence, p.notes.dueConfidence),
        Strongest(c.proposal.notes.priority, p.notes.priority));
      candidates := candidates[into := c.(proposal := c.proposal.(notes := notes))];
      if c.status == Accepted && c.result.Some? && c.result.value in tasks {
        tasks := tasks[c.result.value := AnnotatedTask(tasks[c.result.value], notes)];
      }
      aliases := aliases[id := Alias(into, p)];
      slots := slots[(id.generation, p.subject.identity) := into];
    }

    method CreateCandidate(p: Proposal, key: string, accountGeneration: nat, now: Time) returns (reply: Result<CandidateId>)
      modifies this
      ensures (State(), reply) == CreateTxn(old(State()), p, key, accountGeneration, now)
    {
      if Blank(key) { return Err(InvalidRequest); }
      if generation != accountGeneration { return Err(GenerationMismatch); }
      var id := CandidateId(accountGeneration, key);
      if id in aliases {
        var alias := aliases[id];
        if alias.request != p || alias.candidate !in candidates || alias.candidate.generation != accountGeneration {
          return Err(Conflict);
        }
        return Ok(alias.candidate);
      }
      if id in candidates {
        if candidates[id].proposal != p { return Err(Conflict); }
        aliases := aliases[id := Alias(id, p)];
        return Ok(id);
      }
      if p.subject.CreateTask? {
        var into := ReadSlot(p.subject.identity, now);
        if into.Some? {
          JoinExisting(id, p, into.value);
          return Ok(into.value);
        }
      }
      candidates := candidates[id := NewCandidate(p, now)];
      aliases := aliases[id := Alias(id, p)];
      if p.subject.CreateTask? {
        slots := slots[(accountGeneration, p.subject.identity) := id];
      }
      return Ok(id);
    }

    method CreateTaskOf(id: CandidateId, input: TaskInput, now: Time) returns (reply: Result<Receipt>)
      requires id in candidates && candidates[id].proposal.subject.CreateTask?
      modifies this
      ensures (State(), reply) == AcceptCreate(old(State()), id, input, now)
    {
      var c := candidates[id];
      var task := TaskFor(id);
      if !input.relationshipOk { return Err(Conflict); }
      if task in tasks {
        if tasks[task].candidate != Some(id) { return Err(Conflict); }
      } else {
        tasks := tasks[task := NewTask(id, c)];
      }
      candidates := candidates[id := Resolved(c, Accepted, Some(task), now)];
      outbox := outbox[id := Dispatch(task, id.generation, DispatchPending, 0, None, None)];
      return Ok(Receipt(id, Accepted, Some(task), true, Some(now)));
    }

    method ChangeTaskOf(id: CandidateId, input: TaskInput, now: Time) returns (reply: Result<Receipt>)
      requires id in candidates && candidates[id].proposal.subject.ChangeTask?
      modifies this
      ensures (State(), reply) == AcceptChange(old(State()), id, input, now)
    {
      var p := candidates[id].proposal;
      var task, action, change := p.subject.task, p.subject.action, p.subject.change;
      if task !in tasks { return Err(NotFound); }
      var t := tasks[task];
      if t.generation != 0 && t.generation != id.generation { return Err(GenerationMismatch); }
      if input.expectedLinks.Some? && input.expectedLinks.value != (t.identity.goal, t.identity.workstream) { return Err(Conflict); }
      if action == Update && change.status.NullStatus? { return Err(InvalidRequest); }
      var patched := PatchTask(t, id.generation, action, change, p.notes.evidence);
      if !input.relationshipOk { return Err(Conflict); }
      tasks := tasks[task := patched];
      candidates := candidates[id := Resolved(candidates[id], Accepted, Some(task), now)];
      return Ok(Receipt(id, Accepted, Some(task), true, Some(now)));
    }

    method ResolveTaskCandidate(id: CandidateId, accountGeneration: nat, input: TaskInput, now: Time) returns (reply: Result<Receipt>)
      modifies this
      ensures (State(), reply) == ResolveTaskTxn(old(State()), id, accountGeneration, input, now)
    {
      if generation != accountGeneration { return Err(GenerationMismatch); }
      if id !in candidates { return Err(NotFound); }
      if id.generation != accountGeneration { return Err(GenerationMismatch); }
      var c := candidates[id];
      if c.status == Accepted { return Ok(Receipt(id, Accepted, c.result, false, c.resolvedAt)); }
      if c.status != Pending { return Err(Conflict); }
      if id in claims && BlocksResolution(claims[id], now) { return Err(Conflict); }
      match c.proposal.subject {
        case CreateWorkstream(_) => reply := Err(ResolverUnavailable);
        case CreateTask(_) => reply := CreateTaskOf(id, input, now);
        case ChangeTask(_, _, _) => reply := ChangeTaskOf(id, input, now);
      }
    }

    method ResolveWithoutMutation(id: CandidateId, status: Status, accountGeneration: nat, now: Time) returns (reply: Result<Receipt>)
      modifies this
      ensures (State(), reply) == ResolveWithoutTxn(old(State()), id, status, accountGeneration, now)
    {
      if status != Rejected && status != Expired { return Err(InvalidRequest); }
      if generation != accountGeneration { return Err(GenerationMismatch); }
      if id !in candidates { return Err(NotFound); }
      if id.generation != accountGeneration { return Err(GenerationMismatch); }
      var c := candidates[id];
      if c.status == status { return Ok(Receipt(id, status, None, false, c.resolvedAt)); }
      if c.status != Pending { return Err(Conflict); }
      if id in claims && BlocksResolution(claims[id], now) { return Err(Conflict); }
      candidates := candidates[id := Resolved(c, status, c.result, now)];
      return Ok(Receipt(id, status, None, true, Some(now)));
    }

    method ReconcileMigrated(id: CandidateId, status: Status, accountGeneration: nat, result: Option<TaskId>,
                             at: Time, token: Option<nat>) returns (reply: Result<CandidateId>)
      modifies this
      ensures (State(), reply) == ReconcileTxn(old(State()), id, status, accountGeneration, result, at, token)
    {
      if status == Pending || (status == Accepted && result.None?) { return Err(InvalidRequest); }
      if generation != accountGeneration { return Err(GenerationMismatch); }
      if id !in candidates { return Err(NotFound); }
      if id.generation != accountGeneration { return Err(GenerationMismatch); }
      var c := candidates[id];
      if c.status == status { return Ok(id); }
      if c.status != Pending { return Err(Conflict); }
      if id in claims && BlocksResolution(claims[id], at) {
        var claim := claims[id];
        if token != Some(claim.token) { return Err(Conflict); }
        if !OwnerIsActive(claim, at) { return Err(Conflict); }
        if claim.phase != MutationStarted { return Err(Conflict); }
        if status != Accepted || claim.result != result { return Err(Conflict); }
      } else if token.Some? {
        return Err(Conflict);
      }
      candidates := candidates[id := Resolved(c, status, if result.Some? then result else c.result, at)];
      if token.Some? {
        claims := claims[id := claims[id].(active := false)];
      }
      return Ok(id);
    }

    method ClaimForPromotion(id: CandidateId, accountGeneration: nat, resume: bool, leaseSeconds: int, now: Time) returns (reply: Result<nat>)
      modifies this
      ensures (State(), reply) == ClaimTxn(old(State()), id, accountGeneration, resume, leaseSeconds, now)
    {
      if generation != accountGeneration { return Err(GenerationMismatch); }
      if id !in candidates { return Err(NotFound); }
      if id.generation != accountGeneration { return Err(GenerationMismatch); }
      if candidates[id].status != Pending { return Err(Conflict); }
      if id in claims {
        var claim := claims[id];
        if OwnerIsActive(claim, now) {
          if resume { return Ok(claim.token); }
          return Err(Conflict);
        }
        if claim.active && claim.phase == MutationStarted {
          if claim.result.None? { return Err(Conflict); }
          var token := FreshToken();
          claims := claims[id := claim.(token := token, leaseExpiresAt := now + leaseSeconds)];
          return Ok(token);
        }
      }
      var token := FreshToken();
      claims := claims[id := Claim(token, true, PreMutation, None, None, now + leaseSeconds)];
      return Ok(token);
    }

    method BeginPromotion(id: CandidateId, accountGeneration: nat, q: BeginRequest, now: Time) returns (reply: Result<(TaskId, Reservation)>)
      modifies this
      ensures (State(), reply) == BeginTxn(old(State()), id, accountGeneration, q, now)
    {
      if generation != accountGeneration { return Err(GenerationMismatch); }
      if id !in candidates { return Err(NotFound); }
      if id.generation != accountGeneration { return Err(GenerationMismatch); }
      if candidates[id].status != Pending { return Err(Conflict); }
      if id !in claims { return Err(Conflict); }
      var claim := claims[id];
      if !claim.active || claim.token != q.token || !OwnerIsActive(claim, now) { return Err(Conflict); }
      if claim.phase == MutationStarted {
        if claim.result.None? || claim.kind.None? { return Err(Conflict); }
        return Ok((claim.result.value, claim.kind.value));
      }
      var task, kind := q.result, if q.alreadyCommitted then Committed else Create;
      if q.preferred.Some? && !q.alreadyCommitted && q.preferred.value in tasks {
        var t := tasks[q.preferred.value];
        if !t.completed && !t.deleted && t.status == Active {
          task, kind := q.preferred.value, Existing;
        }
      }
      claims := claims[id := claim.(phase := MutationStarted, result := Some(task), kind := Some(kind),
                                    leaseExpiresAt := now + q.leaseSeconds)];
      return Ok((task, kind));
    }

    method ClaimDispatch(id: CandidateId, accountGeneration: nat, leaseSeconds: int, now: Time) returns (token: Option<nat>)
      modifies this
      ensures (State(), token) == ClaimDispatchTxn(old(State()), id, accountGeneration, leaseSeconds, now)
    {
      if id !in outbox { return None; }
      var d := outbox[id];
      if d.generation != accountGeneration || generation != accountGeneration {
        outbox := outbox[id := d.(status := Suppressed)];
        return None;
      }
      if d.status == Dispatched || d.status == Suppressed { return None; }
      if d.status == Dispatching && d.claimedAt.Some? && d.claimedAt.value + leaseSeconds > now { return None; }
      var issued := FreshToken();
      outbox := outbox[id := d.(status := Dispatching, attempts := d.attempts + 1, token := Some(issued), claimedAt := Some(now))];
      return Some(issued);
    }

    method CompleteDispatch(id: CandidateId, accountGeneration: nat, token: nat, succeeded: bool) returns (done: bool)
      modifies this
      ensures (State(), done) == CompleteDispatchTxn(old(State()), id, accountGeneration, token, succeeded)
    {
      if id !in outbox { return false; }
      var d := outbox[id];
      if d.generation != accountGeneration || generation != accountGeneration {
        outbox := outbox[id := d.(status := Suppressed)];
        return false;
      }
      if d.status != Dispatching || d.token != Some(token) { return false; }
      outbox := outbox[id := d.(status := if succeeded then Dispatched else DispatchFailed, token := None)];
      return true;
    }
  }
}
