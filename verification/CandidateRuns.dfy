/** What every run of the candidate store keeps: one resolution, exclusive lanes, one readable candidate per identity. */
module CandidateRuns {
  import opened Wrappers
  import opened CandidateModel
  import opened CandidateTransactions

  // ----- what never changes -----

  /** Identity and creation time are fixed; a pending deadline is fixed; a resolution is final. */
  ghost predicate CandidateEvolves(c: Candidate, d: Candidate) {
    && d.proposal.subject == c.proposal.subject
    && d.createdAt == c.createdAt
    && (d.status == Pending ==> c.status == Pending && d.expiresAt == c.expiresAt)
    && (c.status != Pending ==> d.status == c.status && d.result == c.result && d.resolvedAt == c.resolvedAt)
  }

  ghost predicate CandidatesEvolve(before: Candidates, after: Candidates) {
    forall id | id in before :: id in after && CandidateEvolves(before[id], after[id])
  }

  ghost predicate Grows(s: Store, t: Store) {
    && CandidatesEvolve(s.candidates, t.candidates)
    && (forall id | id in s.aliases :: id in t.aliases && t.aliases[id] == s.aliases[id])
    && (forall id | id in s.outbox :: id in t.outbox)
    && s.nextToken <= t.nextToken
  }

  lemma GrowsTransitive(s: Store, t: Store, u: Store)
    requires Grows(s, t) && Grows(t, u)
    ensures Grows(s, u)
  {
    forall id | id in s.candidates ensures id in u.candidates && CandidateEvolves(s.candidates[id], u.candidates[id]) {
      assert CandidateEvolves(s.candidates[id], t.candidates[id]);
      assert CandidateEvolves(t.candidates[id], u.candidates[id]);
    }
  }

  // ----- the invariant -----

  type Candidates = map<CandidateId, Candidate>

  ghost predicate AliasInv(candidates: Candidates, aliases: map<CandidateId, Alias>) {
    forall id | id in aliases :: aliases[id].candidate in candidates && aliases[id].candidate.generation == id.generation
  }

  /** A slot names a task-create candidate of exactly that generation and identity. */
  ghost predicate SlotInv(candidates: Candidates, slots: map<Slot, CandidateId>) {
    forall k | k in slots ::
      && slots[k] in candidates
      && slots[k].generation == k.0
      && candidates[slots[k]].proposal.subject == CreateTask(k.1)
  }

  predicate PendingCreate(candidates: Candidates, id: CandidateId) {
    id in candidates && candidates[id].status == Pending && candidates[id].proposal.subject.CreateTask?
  }

  function SlotOf(candidates: Candidates, id: CandidateId): Slot
    requires PendingCreate(candidates, id)
  {
    (id.generation, candidates[id].proposal.subject.identity)
  }

  predicate NamedOrLapsed(candidates: Candidates, slots: map<Slot, CandidateId>, id: CandidateId, clock: Time)
    requires PendingCreate(candidates, id)
  {
    SlotOf(candidates, id) in slots && (slots[SlotOf(candidates, id)] == id || Lapsed(candidates[id], clock))
  }

  /** A pending create candidate that its slot no longer names has already lapsed. */
  ghost predicate PendingInv(candidates: Candidates, slots: map<Slot, CandidateId>, clock: Time) {
    forall id | PendingCreate(candidates, id) :: NamedOrLapsed(candidates, slots, id, clock)
  }

  /** A claim of the legacy lane against its candidate: consumed exactly when its own task was accepted. */
  ghost predicate ClaimOk(c: Candidate, k: Claim) {
    && (k.phase == MutationStarted ==> k.result.Some? && k.kind.Some?)
    && (k.phase == MutationStarted && k.active ==> c.status == Pending)
    && (!k.active ==> k.phase == MutationStarted && c.status == Accepted && c.result == k.result)
  }

  ghost predicate ClaimInv(candidates: Candidates, claims: map<CandidateId, Claim>) {
    forall id | id in claims :: id in candidates && ClaimOk(candidates[id], claims[id])
  }

  ghost predicate Started(claims: map<CandidateId, Claim>, id: CandidateId) {
    id in claims && claims[id].phase == MutationStarted
  }

  /** Only direct creation enqueues a dispatch, and a started legacy mutation rules it out. */
  ghost predicate DispatchOk(id: CandidateId, c: Candidate, claims: map<CandidateId, Claim>) {
    && c.status == Accepted && c.proposal.subject.CreateTask? && c.result == Some(TaskFor(id))
    && !Started(claims, id)
  }

  ghost predicate OutboxInv(candidates: Candidates, claims: map<CandidateId, Claim>, outbox: map<CandidateId, Dispatch>) {
    forall id | id in outbox :: id in candidates && DispatchOk(id, candidates[id], claims)
  }

  /** Tokens are issued once: everything stored is older than the next one. */
  ghost predicate TokenInv(s: Store) {
    && (forall id | id in s.claims :: s.claims[id].token < s.nextToken)
    && (forall id | id in s.outbox :: s.outbox[id].token.Some? ==> s.outbox[id].token.value < s.nextToken)
  }

  ghost predicate NamingInv(s: Store, clock: Time) {
    && AliasInv(s.candidates, s.aliases)
    && SlotInv(s.candidates, s.slots)
    && PendingInv(s.candidates, s.slots, clock)
  }

  ghost predicate LaneInv(s: Store) {
    ClaimInv(s.candidates, s.claims) && OutboxInv(s.candidates, s.claims, s.outbox) && TokenInv(s)
  }

  ghost predicate Inv(s: System) {
    NamingInv(s.store, s.clock) && LaneInv(s.store)
  }

  lemma InitialInv(generation: nat, clock: Time)
    ensures Inv(Initial(generation, clock))
  {
  }

  // ----- one document at a time -----

  lemma LaterKeepsNaming(s: Store, clock: Time, now: Time)
    requires NamingInv(s, clock) && clock <= now
    ensures NamingInv(s, now)
  {
    forall x | PendingCreate(s.candidates, x) ensures NamedOrLapsed(s.candidates, s.slots, x, now) {
      assert NamedOrLapsed(s.candidates, s.slots, x, clock);
    }
  }

  /** Rewriting one candidate without changing what it is keeps every alias and slot right. */
  lemma UpdateKeepsNaming(s: Store, clock: Time, id: CandidateId, d: Candidate)
    requires NamingInv(s, clock) && id in s.candidates && CandidateEvolves(s.candidates[id], d)
    ensures NamingInv(s.(candidates := s.candidates[id := d]), clock)
    ensures CandidatesEvolve(s.candidates, s.candidates[id := d])
  {
    var after := s.candidates[id := d];
    forall x | PendingCreate(after, x) ensures NamedOrLapsed(after, s.slots, x, clock) {
      assert PendingCreate(s.candidates, x);
      assert NamedOrLapsed(s.candidates, s.slots, x, clock);
      assert SlotOf(after, x) == SlotOf(s.candidates, x);
    }
  }

  /** Any write that leaves candidates, aliases and slots alone. */
  lemma LaneWriteKeepsInv(s: System, t: Store)
    requires Inv(s) && LaneInv(t)
    requires t.candidates == s.store.candidates && t.aliases == s.store.aliases && t.slots == s.store.slots
    requires s.store.nextToken <= t.nextToken && forall id | id in s.store.outbox :: id in t.outbox
    ensures Inv(System(t, s.clock)) && Grows(s.store, t)
  {
  }

  // ----- creation -----

  lemma InsertKeepsNaming(s: Store, id: CandidateId, p: Proposal, now: Time)
    requires NamingInv(s, now) && id !in s.candidates
    requires p.subject.CreateTask? ==> Reusable(s, id.generation, p.subject.identity, now).None?
    ensures NamingInv(Insert(s, id, p, now), now)
  {
    var t := Insert(s, id, p, now);
    forall x | PendingCreate(t.candidates, x) ensures NamedOrLapsed(t.candidates, t.slots, x, now) {
      if x != id {
        assert PendingCreate(s.candidates, x) && NamedOrLapsed(s.candidates, s.slots, x, now);
        assert SlotOf(t.candidates, x) == SlotOf(s.candidates, x);
      }
    }
  }

  lemma InsertKeepsLanes(s: Store, id: CandidateId, c: Candidate)
    requires LaneInv(s) && id !in s.candidates
    ensures LaneInv(s.(candidates := s.candidates[id := c]))
    ensures CandidatesEvolve(s.candidates, s.candidates[id := c])
  {
    var after := s.candidates[id := c];
    forall x | x in s.claims ensures x in after && ClaimOk(after[x], s.claims[x]) {
      assert ClaimOk(s.candidates[x], s.claims[x]);
    }
    forall x | x in s.outbox ensures x in after && DispatchOk(x, after[x], s.claims) {
      assert DispatchOk(x, s.candidates[x], s.claims);
    }
  }

  lemma InsertKeepsInv(s: Store, clock: Time, id: CandidateId, p: Proposal, now: Time)
    requires NamingInv(s, clock) && LaneInv(s) && clock <= now && id !in s.candidates && id !in s.aliases
    requires p.subject.CreateTask? ==> Reusable(s, id.generation, p.subject.identity, now).None?
    ensures Inv(System(Insert(s, id, p, now), now)) && Grows(s, Insert(s, id, p, now))
  {
    LaterKeepsNaming(s, clock, now);
    InsertKeepsNaming(s, id, p, now);
    InsertKeepsLanes(s, id, NewCandidate(p, now));
  }

  lemma AnnotationKeepsLanes(s: Store, id: CandidateId, notes: Annotations)
    requires LaneInv(s) && id in s.candidates
    ensures LaneInv(s.(candidates := s.candidates[id := Annotated(s.candidates[id], notes)]))
    ensures CandidateEvolves(s.candidates[id], Annotated(s.candidates[id], notes))
  {
    var after := s.candidates[id := Annotated(s.candidates[id], notes)];
    forall x | x in s.claims ensures x in after && ClaimOk(after[x], s.claims[x]) {
      assert ClaimOk(s.candidates[x], s.claims[x]);
    }
    forall x | x in s.outbox ensures x in after && DispatchOk(x, after[x], s.claims) {
      assert DispatchOk(x, s.candidates[x], s.claims);
    }
  }

  lemma CoalesceKeepsInv(s: Store, clock: Time, id: CandidateId, p: Proposal, into: CandidateId, now: Time)
    requires NamingInv(s, clock) && LaneInv(s) && clock <= now && id !in s.aliases && p.subject.CreateTask?
    requires Reusable(s, id.generation, p.subject.identity, now) == Some(into)
    ensures Inv(System(Coalesce(s, id, p, into), now)) && Grows(s, Coalesce(s, id, p, into))
  {
    LaterKeepsNaming(s, clock, now);
    AnnotationKeepsLanes(s, into, p.notes);
    UpdateKeepsNaming(s, now, into, Annotated(s.candidates[into], p.notes));
    var t := Coalesce(s, id, p, into);
    assert t.slots == s.slots;
    assert AliasInv(t.candidates, t.aliases);
  }

  lemma AliasKeepsInv(s: System, id: CandidateId, p: Proposal, now: Time)
    requires Inv(s) && s.clock <= now && id in s.store.candidates && id !in s.store.aliases
    ensures var t := s.store.(aliases := s.store.aliases[id := Alias(id, p)]); Inv(System(t, now)) && Grows(s.store, t)
  {
    LaterKeepsNaming(s.store, s.clock, now);
  }

  lemma CreateKeepsInv(s: System, p: Proposal, key: string, g: nat, now: Time)
    requires Inv(s) && s.clock <= now
    ensures var t := CreateTxn(s.store, p, key, g, now).0; Inv(System(t, now)) && Grows(s.store, t)
  {
    var st := s.store;
    var id := CandidateId(g, key);
    LaterKeepsNaming(st, s.clock, now);
    if !Blank(key) && st.generation == g && id !in st.aliases {
      var into := if p.subject.CreateTask? then Reusable(st, g, p.subject.identity, now) else None;
      if id in st.candidates {
        AliasKeepsInv(s, id, p, now);
      } else if into.Some? {
        CoalesceKeepsInv(st, s.clock, id, p, into.value, now);
      } else {
        InsertKeepsInv(st, s.clock, id, p, now);
      }
    }
  }

  // ----- resolution -----

  /** Resolving a pending candidate: the claim, if its mutation started, is consumed with its own task. */
  lemma ResolutionKeepsLanes(s: Store, id: CandidateId, d: Candidate, claims: map<CandidateId, Claim>)
    requires LaneInv(s) && id in s.candidates && s.candidates[id].status == Pending
    requires claims == s.claims || (id in s.claims && claims == s.claims[id := s.claims[id].(active := false)])
    requires id in claims ==> ClaimOk(d, claims[id])
    ensures LaneInv(s.(candidates := s.candidates[id := d], claims := claims))
  {
    var after := s.candidates[id := d];
    forall x | x in claims ensures x in after && ClaimOk(after[x], claims[x]) {
      if x != id { assert ClaimOk(s.candidates[x], s.claims[x]); }
    }
    forall x | x in s.outbox ensures x in after && DispatchOk(x, after[x], claims) {
      assert DispatchOk(x, s.candidates[x], s.claims);
    }
  }

  lemma ResolutionKeepsInv(s: System, id: CandidateId, d: Candidate, claims: map<CandidateId, Claim>)
    requires Inv(s) && id in s.store.candidates && s.store.candidates[id].status == Pending
    requires CandidateEvolves(s.store.candidates[id], d)
    requires claims == s.store.claims || (id in s.store.claims && claims == s.store.claims[id := s.store.claims[id].(active := false)])
    requires id in claims ==> ClaimOk(d, claims[id])
    ensures var t := s.store.(candidates := s.store.candidates[id := d], claims := claims);
            Inv(System(t, s.clock)) && Grows(s.store, t)
  {
    ResolutionKeepsLanes(s.store, id, d, claims);
    UpdateKeepsNaming(s.store, s.clock, id, d);
  }

  /** Enqueueing the dispatch of a directly created task. */
  lemma EnqueueKeepsInv(s: System, id: CandidateId, d: Dispatch, tasks: map<TaskId, Task>)
    requires Inv(s) && id in s.store.candidates && DispatchOk(id, s.store.candidates[id], s.store.claims) && d.token.None?
    ensures var t := s.store.(outbox := s.store.outbox[id := d], tasks := tasks); Inv(System(t, s.clock)) && Grows(s.store, t)
  {
    LaneWriteKeepsInv(s, s.store.(outbox := s.store.outbox[id := d], tasks := tasks));
  }

  lemma AcceptCreateKeepsInv(s: System, id: CandidateId, input: TaskInput, now: Time)
    requires Inv(s) && PendingCreate(s.store.candidates, id) && !Blocked(s.store, id, now)
    ensures var t := AcceptCreate(s.store, id, input, now).0; Inv(System(t, s.clock)) && Grows(s.store, t)
  {
    var st := s.store;
    var d := Resolved(st.candidates[id], Accepted, Some(TaskFor(id)), now);
    var t := AcceptCreate(st, id, input, now).0;
    if t != st {
      if id in st.claims { assert ClaimOk(st.candidates[id], st.claims[id]); }
      ResolutionKeepsInv(s, id, d, st.claims);
      var u := st.(candidates := st.candidates[id := d], claims := st.claims);
      EnqueueKeepsInv(System(u, s.clock), id, t.outbox[id], t.tasks);
      GrowsTransitive(st, u, t);
    }
  }

  lemma AcceptChangeKeepsInv(s: System, id: CandidateId, input: TaskInput, now: Time)
    requires Inv(s) && id in s.store.candidates && s.store.candidates[id].status == Pending && !Blocked(s.store, id, now)
    requires s.store.candidates[id].proposal.subject.ChangeTask?
    ensures var t := AcceptChange(s.store, id, input, now).0; Inv(System(t, s.clock)) && Grows(s.store, t)
  {
    var st := s.store;
    var d := Resolved(st.candidates[id], Accepted, Some(st.candidates[id].proposal.subject.task), now);
    var t := AcceptChange(st, id, input, now).0;
    if t != st {
      if id in st.claims { assert ClaimOk(st.candidates[id], st.claims[id]); }
      ResolutionKeepsInv(s, id, d, st.claims);
      var u := st.(candidates := st.candidates[id := d], claims := st.claims);
      LaneWriteKeepsInv(System(u, s.clock), t);
      GrowsTransitive(st, u, t);
    }
  }

  lemma ResolveKeepsInv(s: System, id: CandidateId, g: nat, input: TaskInput, now: Time)
    requires Inv(s)
    ensures var t := ResolveTaskTxn(s.store, id, g, input, now).0; Inv(System(t, s.clock)) && Grows(s.store, t)
  {
    var st := s.store;
    if id in st.candidates && st.candidates[id].status == Pending && !Blocked(st, id, now) {
      match st.candidates[id].proposal.subject
      case CreateWorkstream(_) =>
      case CreateTask(_) => AcceptCreateKeepsInv(s, id, input, now);
      case ChangeTask(_, _, _) => AcceptChangeKeepsInv(s, id, input, now);
    }
  }

  lemma ResolveWithoutKeepsInv(s: System, id: CandidateId, status: Status, g: nat, now: Time)
    requires Inv(s)
    ensures var t := ResolveWithoutTxn(s.store, id, status, g, now).0; Inv(System(t, s.clock)) && Grows(s.store, t)
  {
    var st := s.store;
    var t := ResolveWithoutTxn(st, id, status, g, now).0;
    if t != st {
      var c := st.candidates[id];
      if id in st.claims { assert ClaimOk(c, st.claims[id]); }
      ResolutionKeepsInv(s, id, Resolved(c, status, c.result, now), st.claims);
    }
  }

  lemma ReconcileKeepsInv(s: System, id: CandidateId, status: Status, g: nat, result: Option<TaskId>, at: Time, token: Option<nat>)
    requires Inv(s)
    ensures var t := ReconcileTxn(s.store, id, status, g, result, at, token).0; Inv(System(t, s.clock)) && Grows(s.store, t)
  {
    var st := s.store;
    var t := ReconcileTxn(st, id, status, g, result, at, token).0;
    if t != st {
      var c := st.candidates[id];
      if id in st.claims { assert ClaimOk(c, st.claims[id]); }
      ResolutionKeepsInv(s, id, Resolved(c, status, if result.Some? then result else c.result, at), t.claims);
    }
  }

  // ----- the legacy lane -----

  lemma ClaimWriteKeepsInv(s: System, id: CandidateId, k: Claim, nextToken: nat)
    requires Inv(s) && id in s.store.candidates && s.store.candidates[id].status == Pending
    requires ClaimOk(s.store.candidates[id], k) && k.token < nextToken && s.store.nextToken <= nextToken
    ensures var t := s.store.(claims := s.store.claims[id := k], nextToken := nextToken);
            Inv(System(t, s.clock)) && Grows(s.store, t)
  {
    var st := s.store;
    var t := st.(claims := st.claims[id := k], nextToken := nextToken);
    forall x | x in t.outbox ensures x in t.candidates && DispatchOk(x, t.candidates[x], t.claims) {
      assert DispatchOk(x, st.candidates[x], st.claims);
    }
    LaneWriteKeepsInv(s, t);
  }

  /** A claim that is written is either a fresh one or the started one under a new token. */
  lemma ClaimShape(s: Store, id: CandidateId, g: nat, resume: bool, lease: int, now: Time) returns (k: Claim)
    ensures var t := ClaimTxn(s, id, g, resume, lease, now).0;
            t == s || (&& id in s.candidates && s.candidates[id].status == Pending
                       && t == s.(claims := s.claims[id := k], nextToken := s.nextToken + 1)
                       && k.token == s.nextToken && k.active
                       && (k.phase == PreMutation ||
                           (id in s.claims && s.claims[id].phase == MutationStarted && k.result == s.claims[id].result && k.kind == s.claims[id].kind)))
  {
    var t := ClaimTxn(s, id, g, resume, lease, now).0;
    k := if id in t.claims then t.claims[id] else Claim(0, true, PreMutation, None, None, 0);
  }

  lemma ClaimKeepsInv(s: System, id: CandidateId, g: nat, resume: bool, lease: int, now: Time)
    requires Inv(s)
    ensures var t := ClaimTxn(s.store, id, g, resume, lease, now).0; Inv(System(t, s.clock)) && Grows(s.store, t)
  {
    var st := s.store;
    var k := ClaimShape(st, id, g, resume, lease, now);
    if ClaimTxn(st, id, g, resume, lease, now).0 != st {
      if id in st.claims { assert ClaimOk(st.candidates[id], st.claims[id]); }
      ClaimWriteKeepsInv(s, id, k, st.nextToken + 1);
    }
  }

  lemma BeginKeepsInv(s: System, id: CandidateId, g: nat, q: BeginRequest, now: Time)
    requires Inv(s)
    ensures var t := BeginTxn(s.store, id, g, q, now).0; Inv(System(t, s.clock)) && Grows(s.store, t)
  {
    var st := s.store;
    var t := BeginTxn(st, id, g, q, now).0;
    if t != st {
      assert st.nextToken == t.nextToken;
      ClaimWriteKeepsInv(s, id, t.claims[id], st.nextToken);
    }
  }

  lemma DispatchWriteKeepsInv(s: System, id: CandidateId, d: Dispatch, nextToken: nat)
    requires Inv(s) && id in s.store.outbox && s.store.nextToken <= nextToken
    requires d.token.Some? ==> d.token.value < nextToken
    ensures var t := s.store.(outbox := s.store.outbox[id := d], nextToken := nextToken);
            Inv(System(t, s.clock)) && Grows(s.store, t)
  {
    LaneWriteKeepsInv(s, s.store.(outbox := s.store.outbox[id := d], nextToken := nextToken));
  }

  lemma ClaimDispatchKeepsInv(s: System, id: CandidateId, g: nat, lease: int, now: Time)
    requires Inv(s)
    ensures var t := ClaimDispatchTxn(s.store, id, g, lease, now).0; Inv(System(t, s.clock)) && Grows(s.store, t)
  {
    var st := s.store;
    if id in st.outbox {
      var d := st.outbox[id];
      DispatchWriteKeepsInv(s, id, d.(status := Suppressed), st.nextToken);
      DispatchWriteKeepsInv(s, id, d.(status := Dispatching, attempts := d.attempts + 1, token := Some(st.nextToken), claimedAt := Some(now)),
                            st.nextToken + 1);
    }
  }

  lemma CompleteDispatchKeepsInv(s: System, id: CandidateId, g: nat, token: nat, ok: bool)
    requires Inv(s)
    ensures var t := CompleteDispatchTxn(s.store, id, g, token, ok).0; Inv(System(t, s.clock)) && Grows(s.store, t)
  {
    var st := s.store;
    if id in st.outbox {
      var d := st.outbox[id];
      DispatchWriteKeepsInv(s, id, d.(status := Suppressed), st.nextToken);
      DispatchWriteKeepsInv(s, id, d.(status := if ok then Dispatched else DispatchFailed, token := None), st.nextToken);
    }
  }

  /** Moving the account to another generation, or any write by the task code. */
  lemma OutsideKeepsInv(s: System, op: Op)
    requires Inv(s) && (op.OpSetGeneration? || op.OpTask?)
    ensures Inv(Step(s, op)) && Grows(s.store, Step(s, op).store)
  {
    var st := s.store;
    match op
    case OpSetGeneration(g) => LaneWriteKeepsInv(s, st.(generation := g));
    case OpTask(task, written) =>
      LaneWriteKeepsInv(s, st.(tasks := if written.Some? then st.tasks[task := written.value] else st.tasks - {task}));
  }

  lemma StepKeepsInv(s: System, op: Op)
    requires Inv(s) && Enabled(s, op)
    ensures Inv(Step(s, op)) && Grows(s.store, Step(s, op).store)
  {
    match op
    case OpCreate(now, p, key, g) => CreateKeepsInv(s, p, key, g, now);
    case OpResolve(id, g, input, now) => ResolveKeepsInv(s, id, g, input, now);
    case OpResolveWithout(id, status, g, now) => ResolveWithoutKeepsInv(s, id, status, g, now);
    case OpReconcile(id, status, g, result, at, token) => ReconcileKeepsInv(s, id, status, g, result, at, token);
    case OpClaim(id, g, resume, lease, now) => ClaimKeepsInv(s, id, g, resume, lease, now);
    case OpBegin(id, g, q, now) => BeginKeepsInv(s, id, g, q, now);
    case OpClaimDispatch(id, g, lease, now) => ClaimDispatchKeepsInv(s, id, g, lease, now);
    case OpCompleteDispatch(id, g, token, ok) => CompleteDispatchKeepsInv(s, id, g, token, ok);
    case _ => OutsideKeepsInv(s, op);
  }

  lemma {:induction false} RunKeepsInv(s: System, ops: seq<Op>)
    requires Inv(s) && Runs(s, ops)
    ensures Inv(After(s, ops)) && Grows(s.store, After(s, ops).store)
    decreases |ops|
  {
    if ops != [] {
      StepKeepsInv(s, ops[0]);
      RunKeepsInv(Step(s, ops[0]), ops[1..]);
      GrowsTransitive(s.store, Step(s, ops[0]).store, After(s, ops).store);
    }
  }

  // ----- 1. a started legacy mutation survives every crash, expiry, reclaim and competing resolution -----

  /** The candidate still waits for exactly task `t`, or was accepted with it. */
  ghost predicate Fenced(s: Store, id: CandidateId, t: TaskId, kind: Reservation) {
    && id in s.candidates && id in s.claims
    && s.claims[id].phase == MutationStarted && s.claims[id].result == Some(t) && s.claims[id].kind == Some(kind)
    && (|| (s.candidates[id].status == Pending && s.claims[id].active)
        || (s.candidates[id].status == Accepted && s.candidates[id].result == Some(t)))
  }

  lemma CreateKeepsFence(s: Store, p: Proposal, key: string, g: nat, now: Time, id: CandidateId, t: TaskId, kind: Reservation)
    requires Fenced(s, id, t, kind)
    ensures Fenced(CreateTxn(s, p, key, g, now).0, id, t, kind)
  {
  }

  lemma StepKeepsFence(s: System, op: Op, id: CandidateId, t: TaskId, kind: Reservation)
    requires Fenced(s.store, id, t, kind)
    ensures Fenced(Step(s, op).store, id, t, kind)
  {
    match op
    case OpCreate(now, p, key, g) => CreateKeepsFence(s.store, p, key, g, now, id, t, kind);
    case OpClaim(x, g, resume, lease, now) => var k := ClaimShape(s.store, x, g, resume, lease, now);
    case OpResolve(x, g, input, now) => ResolveKeepsFence(s.store, x, g, input, now, id, t, kind);
    case OpReconcile(x, status, g, result, at, token) => ReconcileKeepsFence(s.store, x, status, g, result, at, token, id, t, kind);
    case OpResolveWithout(x, status, g, now) => ResolveWithoutKeepsFence(s.store, x, status, g, now, id, t, kind);
    case OpBegin(x, g, q, now) => BeginKeepsFence(s.store, x, g, q, now, id, t, kind);
    case _ =>
  }

  lemma ResolveWithoutKeepsFence(s: Store, x: CandidateId, status: Status, g: nat, now: Time, id: CandidateId, t: TaskId, kind: Reservation)
    requires Fenced(s, id, t, kind)
    ensures Fenced(ResolveWithoutTxn(s, x, status, g, now).0, id, t, kind)
  {
  }

  lemma BeginKeepsFence(s: Store, x: CandidateId, g: nat, q: BeginRequest, now: Time, id: CandidateId, t: TaskId, kind: Reservation)
    requires Fenced(s, id, t, kind)
    ensures Fenced(BeginTxn(s, x, g, q, now).0, id, t, kind)
  {
  }

  lemma ResolveKeepsFence(s: Store, x: CandidateId, g: nat, input: TaskInput, now: Time, id: CandidateId, t: TaskId, kind: Reservation)
    requires Fenced(s, id, t, kind)
    ensures Fenced(ResolveTaskTxn(s, x, g, input, now).0, id, t, kind)
  {
  }

  lemma ReconcileKeepsFence(s: Store, x: CandidateId, status: Status, g: nat, result: Option<TaskId>, at: Time, token: Option<nat>,
                            id: CandidateId, t: TaskId, kind: Reservation)
    requires Fenced(s, id, t, kind)
    ensures Fenced(ReconcileTxn(s, x, status, g, result, at, token).0, id, t, kind)
  {
  }

  lemma {:induction false} RunKeepsFence(s: System, ops: seq<Op>, id: CandidateId, t: TaskId, kind: Reservation)
    requires Fenced(s.store, id, t, kind)
    ensures Fenced(After(s, ops).store, id, t, kind)
    decreases |ops|
  {
    if ops != [] {
      StepKeepsFence(s, ops[0], id, t, kind);
      RunKeepsFence(Step(s, ops[0]), ops[1..], id, t, kind);
    }
  }

  /**
    Once a promotion has begun with task `t`, then after any further operations at any times the candidate is
    pending or accepted with `t`; whoever begins again is handed `t` with the same kind, and whatever resolution
    reports success reports `t`.
  */
  lemma StartedPromotionIsCrashSafe(s: System, id: CandidateId, g: nat, q: BeginRequest, now: Time, ops: seq<Op>)
    requires BeginTxn(s.store, id, g, q, now).1.Ok?
    ensures var (t, kind) := BeginTxn(s.store, id, g, q, now).1.value;
            var after := After(Step(s, OpBegin(id, g, q, now)), ops).store;
            && id in after.candidates
            && (after.candidates[id].status == Pending ||
                (after.candidates[id].status == Accepted && after.candidates[id].result == Some(t)))
            && (forall g2, q2, later :: BeginTxn(after, id, g2, q2, later).1.Ok? ==>
                  BeginTxn(after, id, g2, q2, later).1.value == (t, kind))
            && (forall g2, input, later :: ResolveTaskTxn(after, id, g2, input, later).1.Ok? ==>
                  ResolveTaskTxn(after, id, g2, input, later).1.value.task == Some(t) &&
                  !ResolveTaskTxn(after, id, g2, input, later).1.value.newlyResolved)
            && (forall status, g2, later :: ResolveWithoutTxn(after, id, status, g2, later).1.Err?)
  {
    var (t, kind) := BeginTxn(s.store, id, g, q, now).1.value;
    RunKeepsFence(Step(s, OpBegin(id, g, q, now)), ops, id, t, kind);
  }

  // ----- 2. one resolution -----

  /** Whether this operation reports a new resolution of `id`. */
  ghost predicate NewlyResolves(s: Store, op: Op, id: CandidateId) {
    match op
    case OpResolve(x, g, input, now) =>
      x == id && ResolveTaskTxn(s, x, g, input, now).1.Ok? && ResolveTaskTxn(s, x, g, input, now).1.value.newlyResolved
    case OpResolveWithout(x, status, g, now) =>
      x == id && ResolveWithoutTxn(s, x, status, g, now).1.Ok? && ResolveWithoutTxn(s, x, status, g, now).1.value.newlyResolved
    case _ => false
  }

  ghost predicate Closed(s: Store, id: CandidateId) {
    id in s.candidates && s.candidates[id].status != Pending
  }

  ghost function NewResolutions(s: System, ops: seq<Op>, id: CandidateId): nat
    decreases |ops|
  {
    if ops == [] then 0
    else (if NewlyResolves(s.store, ops[0], id) then 1 else 0) + NewResolutions(Step(s, ops[0]), ops[1..], id)
  }

  lemma NewlyResolvesCloses(s: Store, op: Op, id: CandidateId)
    requires NewlyResolves(s, op, id)
    ensures !Closed(s, id) && Closed(Effect(s, op), id)
  {
  }

  /** In every run at most one call reports that it resolved a candidate, and none once it is resolved. */
  lemma {:induction false} ResolvedAtMostOnce(s: System, ops: seq<Op>, id: CandidateId)
    requires Inv(s) && Runs(s, ops)
    ensures NewResolutions(s, ops, id) <= if Closed(s.store, id) then 0 else 1
    ensures NewResolutions(s, ops, id) == 1 ==> Closed(After(s, ops).store, id)
    decreases |ops|
  {
    if ops != [] {
      var t := Step(s, ops[0]);
      StepKeepsInv(s, ops[0]);
      if id in s.store.candidates { assert CandidateEvolves(s.store.candidates[id], t.store.candidates[id]); }
      if NewlyResolves(s.store, ops[0], id) { NewlyResolvesCloses(s.store, ops[0], id); }
      ResolvedAtMostOnce(t, ops[1..], id);
      RunKeepsInv(t, ops[1..]);
      if Closed(t.store, id) { assert CandidateEvolves(t.store.candidates[id], After(s, ops).store.candidates[id]); }
    }
  }

  lemma AcceptedAnswers(s: Store, id: CandidateId)
    requires id in s.candidates && s.candidates[id].status == Accepted
    ensures forall g, input, now :: ResolveTaskTxn(s, id, g, input, now) ==
              (s, if s.generation != g || id.generation != g then Err(GenerationMismatch)
                  else Ok(Receipt(id, Accepted, s.candidates[id].result, false, s.candidates[id].resolvedAt)))
    ensures forall status, g, now :: ResolveWithoutTxn(s, id, status, g, now).1.Err?
    ensures forall g, q, now :: BeginTxn(s, id, g, q, now).1.Err?
  {
  }

  lemma RefusedAnswers(s: Store, id: CandidateId)
    requires id in s.candidates && s.candidates[id].status in {Rejected, Expired}
    ensures forall status, g, now ::
              ResolveWithoutTxn(s, id, status, g, now).1.Ok? <==>
                status == s.candidates[id].status && s.generation == g && id.generation == g
    ensures forall status, g, now :: ResolveWithoutTxn(s, id, status, g, now).1.Ok? ==>
              ResolveWithoutTxn(s, id, status, g, now).1.value == Receipt(id, status, None, false, s.candidates[id].resolvedAt)
    ensures forall g, input, now :: ResolveTaskTxn(s, id, g, input, now).1.Err?
  {
  }

  /** The candidate a receipt describes. */
  ghost predicate Receipted(s: Store, r: Receipt) {
    && r.candidate in s.candidates && r.status != Pending
    && s.candidates[r.candidate].status == r.status && s.candidates[r.candidate].resolvedAt == r.resolvedAt
    && (r.status == Accepted ==> s.candidates[r.candidate].result == r.task)
    && (r.status != Accepted ==> r.task == None)
  }

  lemma ReceiptLasts(s: System, r: Receipt, ops: seq<Op>)
    requires Inv(s) && Runs(s, ops) && Receipted(s.store, r)
    ensures Receipted(After(s, ops).store, r)
  {
    RunKeepsInv(s, ops);
    assert CandidateEvolves(s.store.candidates[r.candidate], After(s, ops).store.candidates[r.candidate]);
  }

  /** Repeating an accepted resolution, whatever happened since, returns the same task and instant and is not new. */
  lemma RepeatedResolutionReturnsSameReceipt(s: System, id: CandidateId, g: nat, input: TaskInput, now: Time, ops: seq<Op>)
    requires Inv(s) && ResolveTaskTxn(s.store, id, g, input, now).1.Ok?
    requires Runs(Step(s, OpResolve(id, g, input, now)), ops)
    ensures var receipt := ResolveTaskTxn(s.store, id, g, input, now).1.value;
            var after := After(Step(s, OpResolve(id, g, input, now)), ops).store;
            && (forall g2, input2, later :: ResolveTaskTxn(after, id, g2, input2, later) ==
                  (after, if after.generation != g2 || id.generation != g2 then Err(GenerationMismatch)
                          else Ok(receipt.(newlyResolved := false))))
            && (forall status, g2, later :: ResolveWithoutTxn(after, id, status, g2, later).1.Err?)
            && (forall g2, q, later :: BeginTxn(after, id, g2, q, later).1.Err?)
  {
    var op := OpResolve(id, g, input, now);
    var receipt := ResolveTaskTxn(s.store, id, g, input, now).1.value;
    StepKeepsInv(s, op);
    ReceiptLasts(Step(s, op), receipt, ops);
    AcceptedAnswers(After(Step(s, op), ops).store, id);
  }

  /** Likewise a rejection or an expiry: it is final, and only that same status is ever reported again. */
  lemma RepeatedRejectionReturnsSameReceipt(s: System, id: CandidateId, status: Status, g: nat, now: Time, ops: seq<Op>)
    requires Inv(s) && ResolveWithoutTxn(s.store, id, status, g, now).1.Ok?
    requires Runs(Step(s, OpResolveWithout(id, status, g, now)), ops)
    ensures var receipt := ResolveWithoutTxn(s.store, id, status, g, now).1.value;
            var after := After(Step(s, OpResolveWithout(id, status, g, now)), ops).store;
            && (forall status2, g2, later ::
                  ResolveWithoutTxn(after, id, status2, g2, later).1.Ok? <==>
                    status2 == status && after.generation == g2 && id.generation == g2)
            && (forall g2, later :: ResolveWithoutTxn(after, id, status, g2, later).1.Ok? ==>
                  ResolveWithoutTxn(after, id, status, g2, later).1.value == receipt.(newlyResolved := false))
            && (forall g2, input, later :: ResolveTaskTxn(after, id, g2, input, later).1.Err?)
  {
    var op := OpResolveWithout(id, status, g, now);
    var receipt := ResolveWithoutTxn(s.store, id, status, g, now).1.value;
    StepKeepsInv(s, op);
    ReceiptLasts(Step(s, op), receipt, ops);
    RefusedAnswers(After(Step(s, op), ops).store, id);
  }

  // ----- 3. the two lanes exclude each other -----

  /** In every reachable state: a queued direct creation and a started legacy mutation never share a candidate. */
  lemma LanesAreExclusive(generation: nat, clock: Time, ops: seq<Op>, id: CandidateId)
    requires Runs(Initial(generation, clock), ops)
    ensures var s := After(Initial(generation, clock), ops).store;
            && !(id in s.outbox && Started(s.claims, id))
            && (id in s.outbox ==> id in s.candidates && s.candidates[id].status == Accepted && s.candidates[id].result == Some(TaskFor(id)))
            && (Started(s.claims, id) ==>
                  && id in s.candidates
                  && s.candidates[id].status == (if s.claims[id].active then Pending else Accepted)
                  && (!s.claims[id].active ==> s.candidates[id].result == s.claims[id].result))
  {
    InitialInv(generation, clock);
    RunKeepsInv(Initial(generation, clock), ops);
    var s := After(Initial(generation, clock), ops).store;
    if id in s.claims { assert ClaimOk(s.candidates[id], s.claims[id]); }
    if id in s.outbox { assert DispatchOk(id, s.candidates[id], s.claims); }
  }

  // ----- 4. one readable candidate per identity -----

  /** Pending, a task creation of that generation and identity, and still inside its suggestion window. */
  ghost predicate Readable(s: Store, id: CandidateId, generation: nat, identity: TaskIdentity, now: Time) {
    && PendingCreate(s.candidates, id)
    && SlotOf(s.candidates, id) == (generation, identity)
    && !Lapsed(s.candidates[id], now)
  }

  /** In every reachable state and at every later instant, readable candidates of one identity are one candidate: the slot's. */
  lemma OneReadablePerIdentity(generation: nat, clock: Time, ops: seq<Op>, g: nat, identity: TaskIdentity, now: Time)
    requires Runs(Initial(generation, clock), ops) && After(Initial(generation, clock), ops).clock <= now
    ensures var s := After(Initial(generation, clock), ops).store;
            forall id | Readable(s, id, g, identity, now) :: (g, identity) in s.slots && s.slots[(g, identity)] == id
  {
    InitialInv(generation, clock);
    RunKeepsInv(Initial(generation, clock), ops);
    var t := After(Initial(generation, clock), ops);
    forall id | Readable(t.store, id, g, identity, now)
      ensures (g, identity) in t.store.slots && t.store.slots[(g, identity)] == id
    {
      assert NamedOrLapsed(t.store.candidates, t.store.slots, id, t.clock);
    }
  }

  /** Creating again joins the readable candidate; it never mints a second one, nor moves the first one's deadline. */
  lemma RepeatedCaptureJoins(s: System, p: Proposal, key: string, g: nat, now: Time, id: CandidateId)
    requires Inv(s) && s.clock <= now && p.subject.CreateTask? && !Blank(key) && s.store.generation == g
    requires Readable(s.store, id, g, p.subject.identity, now)
    requires CandidateId(g, key) !in s.store.aliases && CandidateId(g, key) !in s.store.candidates
    ensures var (t, reply) := CreateTxn(s.store, p, key, g, now);
            && reply == Ok(id) && t.candidates.Keys == s.store.candidates.Keys
            && Deadline(t.candidates[id]) == Deadline(s.store.candidates[id])
            && t.candidates[id].proposal == Proposal(s.store.candidates[id].proposal.subject, Merge(s.store.candidates[id].proposal.notes, p.notes))
  {
    assert NamedOrLapsed(s.store.candidates, s.store.slots, id, s.clock);
  }

  // ----- 5. idempotency keys -----

  lemma CreateRecordsAlias(s: Store, p: Proposal, key: string, g: nat, now: Time)
    requires CreateTxn(s, p, key, g, now).1.Ok?
    ensures var (t, reply) := CreateTxn(s, p, key, g, now);
            !Blank(key) && CandidateId(g, key) in t.aliases && t.aliases[CandidateId(g, key)] == Alias(reply.value, p)
  {
  }

  lemma AliasAnswers(s: Store, key: string, g: nat, id: CandidateId, p: Proposal)
    requires AliasInv(s.candidates, s.aliases) && !Blank(key)
    requires CandidateId(g, key) in s.aliases && s.aliases[CandidateId(g, key)] == Alias(id, p)
    ensures forall p2, later :: CreateTxn(s, p2, key, g, later) ==
              (s, if s.generation != g then Err(GenerationMismatch) else if p2 == p then Ok(id) else Err(Conflict))
  {
  }

  /** A key that once produced a candidate produces the same one forever, and refuses any other proposal. */
  lemma KeyMeansOneCandidate(s: System, p: Proposal, key: string, g: nat, now: Time, ops: seq<Op>)
    requires Inv(s) && s.clock <= now && CreateTxn(s.store, p, key, g, now).1.Ok?
    requires Runs(Step(s, OpCreate(now, p, key, g)), ops)
    ensures var id := CreateTxn(s.store, p, key, g, now).1.value;
            var after := After(Step(s, OpCreate(now, p, key, g)), ops).store;
            forall p2, later :: CreateTxn(after, p2, key, g, later) ==
              (after, if after.generation != g then Err(GenerationMismatch) else if p2 == p then Ok(id) else Err(Conflict))
  {
    var op := OpCreate(now, p, key, g);
    var t := Step(s, op);
    var id := CreateTxn(s.store, p, key, g, now).1.value;
    CreateRecordsAlias(s.store, p, key, g, now);
    assert CandidateId(g, key) in t.store.aliases;
    StepKeepsInv(s, op);
    RunKeepsInv(t, ops);
    AliasAnswers(After(t, ops).store, key, g, id, p);
  }

  // ----- 6. dispatch of accepted tasks -----

  ghost predicate Delivers(s: Store, op: Op, id: CandidateId) {
    op.OpCompleteDispatch? && op.id == id && op.succeeded && CompleteDispatchTxn(s, id, op.generation, op.dispatchToken, true).1
  }

  ghost predicate Settled(s: Store, id: CandidateId) {
    id in s.outbox && (s.outbox[id].status == Dispatched || s.outbox[id].status == Suppressed)
  }

  ghost function Deliveries(s: System, ops: seq<Op>, id: CandidateId): nat
    decreases |ops|
  {
    if ops == [] then 0
    else (if Delivers(s.store, ops[0], id) then 1 else 0) + Deliveries(Step(s, ops[0]), ops[1..], id)
  }

  /** A dispatch row is written again only by the dispatch transactions. */
  lemma OtherOpsLeaveRow(s: Store, op: Op, id: CandidateId)
    requires id in s.outbox && Closed(s, id) && !op.OpClaimDispatch? && !op.OpCompleteDispatch?
    ensures id in Effect(s, op).outbox && Effect(s, op).outbox[id] == s.outbox[id]
  {
    match op
    case OpCreate(now, p, key, g) => CreateLeavesOutbox(s, p, key, g, now);
    case OpResolve(x, g, input, now) => ResolveLeavesOutbox(s, x, g, input, now, id);
    case OpResolveWithout(x, status, g, now) => assert ResolveWithoutTxn(s, x, status, g, now).0.outbox == s.outbox;
    case OpReconcile(x, status, g, result, at, token) =>
      assert ReconcileTxn(s, x, status, g, result, at, token).0.outbox == s.outbox;
    case OpClaim(x, g, resume, lease, now) => var k := ClaimShape(s, x, g, resume, lease, now);
    case OpBegin(x, g, q, now) => assert BeginTxn(s, x, g, q, now).0.outbox == s.outbox;
    case _ =>
  }

  /** What any operation can do to one dispatch row. */
  lemma RowEvolves(s: System, op: Op, id: CandidateId)
    requires Inv(s) && id in s.store.outbox
    ensures id in Step(s, op).store.outbox
    ensures Settled(s.store, id) ==> Settled(Step(s, op).store, id)
    ensures var token := Step(s, op).store.outbox[id].token;
            token == s.store.outbox[id].token || token == None || token == Some(s.store.nextToken)
  {
    if op.OpClaimDispatch? {
      ClaimDispatchWrites(s.store, op.id, op.generation, op.leaseSeconds, op.now, id);
    } else if op.OpCompleteDispatch? {
      CompleteDispatchWrites(s.store, op.id, op.generation, op.dispatchToken, op.succeeded, id);
    } else {
      assert DispatchOk(id, s.store.candidates[id], s.store.claims);
      OtherOpsLeaveRow(s.store, op, id);
    }
  }

  /** A claim leaves a settled row alone and otherwise replaces its token by a new one, or suppresses it. */
  lemma ClaimDispatchWrites(s: Store, x: CandidateId, g: nat, lease: int, now: Time, id: CandidateId)
    requires id in s.outbox
    ensures var t := ClaimDispatchTxn(s, x, g, lease, now).0;
            && id in t.outbox
            && (Settled(s, id) ==> Settled(t, id))
            && (t.outbox[id].token == s.outbox[id].token || t.outbox[id].token == Some(s.nextToken))
  {
  }

  lemma CompleteDispatchWrites(s: Store, x: CandidateId, g: nat, token: nat, ok: bool, id: CandidateId)
    requires id in s.outbox
    ensures var (t, done) := CompleteDispatchTxn(s, x, g, token, ok);
            && id in t.outbox
            && (Settled(s, id) ==> Settled(t, id) && (x == id ==> !done))
            && (t.outbox[id].token == s.outbox[id].token || t.outbox[id].token == None)
  {
  }

  lemma CreateLeavesOutbox(s: Store, p: Proposal, key: string, g: nat, now: Time)
    ensures CreateTxn(s, p, key, g, now).0.outbox == s.outbox
  {
  }

  lemma ResolveLeavesOutbox(s: Store, x: CandidateId, g: nat, input: TaskInput, now: Time, id: CandidateId)
    requires id in s.outbox && Closed(s, id)
    ensures var t := ResolveTaskTxn(s, x, g, input, now).0; id in t.outbox && t.outbox[id] == s.outbox[id]
  {
  }

  lemma SettledStays(s: System, op: Op, id: CandidateId)
    requires Inv(s) && Settled(s.store, id)
    ensures Settled(Step(s, op).store, id)
    ensures !Delivers(s.store, op, id)
  {
    RowEvolves(s, op, id);
    if op.OpCompleteDispatch? { CompleteDispatchWrites(s.store, op.id, op.generation, op.dispatchToken, true, id); }
  }

  lemma DeliverySettles(s: System, op: Op, id: CandidateId)
    requires Delivers(s.store, op, id)
    ensures Settled(Step(s, op).store, id)
  {
  }

  /** Over any run the integration of one accepted task is reported delivered at most once; once settled, never again. */
  lemma {:induction false} DeliveredAtMostOnce(s: System, ops: seq<Op>, id: CandidateId)
    requires Inv(s) && Runs(s, ops)
    ensures Deliveries(s, ops, id) <= if Settled(s.store, id) then 0 else 1
    decreases |ops|
  {
    if ops != [] {
      StepKeepsInv(s, ops[0]);
      if Settled(s.store, id) { SettledStays(s, ops[0], id); }
      if Delivers(s.store, ops[0], id) { DeliverySettles(s, ops[0], id); }
      DeliveredAtMostOnce(Step(s, ops[0]), ops[1..], id);
    }
  }

  /** A token that is not the current one of its row. */
  ghost predicate StaleDispatch(s: Store, id: CandidateId, token: nat) {
    id in s.outbox && token < s.nextToken && s.outbox[id].token != Some(token)
  }

  lemma StepKeepsStale(s: System, op: Op, id: CandidateId, token: nat)
    requires Inv(s) && Enabled(s, op) && StaleDispatch(s.store, id, token)
    ensures StaleDispatch(Step(s, op).store, id, token)
  {
    StepKeepsInv(s, op);
    RowEvolves(s, op, id);
  }

  /** After a later worker claimed the row, the completion of any earlier token is refused for ever. */
  lemma {:induction false} SupersededDispatchIsInert(s: System, ops: seq<Op>, id: CandidateId, token: nat, g: nat, ok: bool)
    requires Inv(s) && Runs(s, ops) && StaleDispatch(s.store, id, token)
    ensures !CompleteDispatchTxn(After(s, ops).store, id, g, token, ok).1
    decreases |ops|
  {
    if ops != [] {
      StepKeepsInv(s, ops[0]);
      StepKeepsStale(s, ops[0], id, token);
      SupersededDispatchIsInert(Step(s, ops[0]), ops[1..], id, token, g, ok);
    }
  }

  // ----- 7. what happens to tasks -----

  /** Joining an accepted candidate only adds to its task: same work, same provenance, no confidence or evidence lost. */
  lemma AnnotatedTaskOnlyGains(t: Task, notes: Annotations)
    ensures var u := AnnotatedTask(t, notes);
            && u == t.(notes := u.notes) && u.notes.compatibility == t.notes.compatibility
            && u.notes.capture >= t.notes.capture && u.notes.capture >= notes.capture
            && u.notes.ownership >= t.notes.ownership && u.notes.ownership >= notes.ownership
            && NoDuplicates(u.notes.evidence)
            && (forall e :: e in u.notes.evidence <==> e in t.notes.evidence || e in notes.evidence)
            && (t.notes.dueConfidence.None? ==> u.notes.dueConfidence == notes.dueConfidence)
            && (notes.dueConfidence.None? ==> u.notes.dueConfidence == t.notes.dueConfidence)
            && (t.notes.dueConfidence.Some? && notes.dueConfidence.Some? ==>
                  u.notes.dueConfidence == if t.notes.dueConfidence.value >= notes.dueConfidence.value then t.notes.dueConfidence else notes.dueConfidence)
            && (t.notes.priority.Some? ==> u.notes.priority.Some? && Rank(u.notes.priority.value) >= Rank(t.notes.priority.value))
            && (notes.priority.Some? ==> u.notes.priority.Some? && Rank(u.notes.priority.value) >= Rank(notes.priority.value))
  {
    DistinctProperties(t.notes.evidence + notes.evidence);
  }

  /**
    A new acceptance of a create writes exactly its own task, with the candidate's identity and annotations unless an
    earlier attempt already wrote it, and queues its dispatch; no other task, candidate or dispatch changes.
  */
  lemma AcceptanceCreatesOneTask(s: Store, id: CandidateId, g: nat, input: TaskInput, now: Time)
    requires id in s.candidates && s.candidates[id].proposal.subject.CreateTask?
    requires ResolveTaskTxn(s, id, g, input, now).1.Ok? && ResolveTaskTxn(s, id, g, input, now).1.value.newlyResolved
    ensures var t, task := ResolveTaskTxn(s, id, g, input, now).0, TaskFor(id);
            && task in t.tasks && t.tasks[task].candidate == Some(id)
            && (task !in s.tasks ==>
                  && t.tasks[task].identity == s.candidates[id].proposal.subject.identity
                  && t.tasks[task].notes == s.candidates[id].proposal.notes
                  && TaskIsActive(t.tasks[task], g))
            && (task in s.tasks ==> t.tasks[task] == s.tasks[task])
            && (forall x | x != task :: x in t.tasks <==> x in s.tasks)
            && (forall x | x != task && x in s.tasks :: t.tasks[x] == s.tasks[x])
            && id in t.outbox && t.outbox[id].task == task && t.outbox[id].status == DispatchPending
            && (forall x | x != id && x in s.candidates :: t.candidates[x] == s.candidates[x])
            && t.claims == s.claims && t.aliases == s.aliases && t.slots == s.slots
  {
  }

  /**
    A new acceptance of a change rewrites exactly its task: the action's status with a completion flag that agrees with
    it, exactly the fields the change sets, all evidence old and new, and the candidate's generation. No other task changes.
  */
  lemma AcceptancePatchesOneTask(s: Store, id: CandidateId, g: nat, input: TaskInput, now: Time)
    requires id in s.candidates && s.candidates[id].proposal.subject.ChangeTask?
    requires ResolveTaskTxn(s, id, g, input, now).1.Ok? && ResolveTaskTxn(s, id, g, input, now).1.value.newlyResolved
    ensures var t := ResolveTaskTxn(s, id, g, input, now).0;
            var p := s.candidates[id].proposal;
            var x, c := p.subject.task, p.subject.change;
            && x in s.tasks && t.tasks.Keys == s.tasks.Keys && (forall y | y in s.tasks && y != x :: t.tasks[y] == s.tasks[y])
            && var was, becomes := s.tasks[x], t.tasks[x];
            && becomes.generation == g && becomes.candidate == was.candidate && becomes.deleted == was.deleted
            && (p.subject.action == Complete ==> becomes.status == TaskCompleted)
            && (p.subject.action == Cancel ==> becomes.status == Cancelled)
            && (p.subject.action == Supersede ==> becomes.status == Superseded)
            && (p.subject.action == Update ==> becomes.status == if c.status.SetStatus? then c.status.status else was.status)
            && (p.subject.action != Update || c.status.SetStatus? ==> (becomes.completed <==> becomes.status == TaskCompleted))
            && (p.subject.action == Update && !c.status.SetStatus? ==> becomes.completed == was.completed)
            && becomes.identity.description == (if c.description.Some? then c.description.value else was.identity.description)
            && becomes.identity.owner == (if c.owner.Some? then c.owner.value else was.identity.owner)
            && becomes.identity.dueAt == (if c.dueAt.Some? then c.dueAt.value else was.identity.dueAt)
            && becomes.identity.recurrenceRule == (if c.recurrenceRule.Some? then c.recurrenceRule.value else was.identity.recurrenceRule)
            && becomes.identity.recurrenceParent == (if c.recurrenceParent.Some? then c.recurrenceParent.value else was.identity.recurrenceParent)
            && becomes.identity.goal == (if c.goal.Some? then c.goal.value else was.identity.goal)
            && becomes.identity.workstream == (if c.workstream.Some? then c.workstream.value else was.identity.workstream)
            && becomes.notes.dueConfidence == (if c.dueConfidence.Some? then c.dueConfidence.value else was.notes.dueConfidence)
            && becomes.notes.priority == (if c.priority.Some? then c.priority.value else was.notes.priority)
            && becomes.notes.capture == was.notes.capture && becomes.notes.ownership == was.notes.ownership
            && becomes.notes.compatibility == was.notes.compatibility
            && (forall e :: e in becomes.notes.evidence <==> e in was.notes.evidence || e in p.notes.evidence)
            && t.outbox == s.outbox && t.claims == s.claims
  {
    var p := s.candidates[id].proposal;
    DistinctProperties(s.tasks[p.subject.task].notes.evidence + p.notes.evidence);
  }

  /** The first begin reserves an open existing task if one is preferred, and otherwise the caller's own task. */
  lemma BeginReservesOpenTask(s: Store, id: CandidateId, g: nat, q: BeginRequest, now: Time)
    requires id in s.claims && s.claims[id].phase == PreMutation && BeginTxn(s, id, g, q, now).1.Ok?
    ensures var (task, kind) := BeginTxn(s, id, g, q, now).1.value;
            && (kind == Existing <==> !q.alreadyCommitted && PreferredIsActive(s, q.preferred))
            && (kind == Existing ==> Some(task) == q.preferred && task in s.tasks && s.tasks[task].status == Active)
            && (kind != Existing ==> task == q.result && (kind == Committed <==> q.alreadyCommitted))
            && Fenced(BeginTxn(s, id, g, q, now).0, id, task, kind)
            && BeginTxn(s, id, g, q, now).0.candidates == s.candidates
  {
  }
}
