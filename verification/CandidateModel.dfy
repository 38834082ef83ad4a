/**
  Candidates: proposals to create or change a task, one document per idempotency key of one user
  (backend/database/candidates.py). Every document below belongs to one user, so the uid is left implicit.
*/
module CandidateModel {
  import opened Wrappers

  const SUGGESTION_TTL: int := 2 * 86_400
  const MAX_EVIDENCE: nat := 20

  /** Injective ids: the hash of (generation, idempotency key), and the deterministic task of a candidate. */
  datatype CandidateId = CandidateId(generation: nat, key: string)
  datatype TaskId = TaskFor(candidate: CandidateId) | OtherTask(name: string)

  /**
    Everything that makes two task-create proposals "the same work"; the rest is annotation. The description is the
    normalised one: the request digest covers the raw text, so here two requests that differ only in spelling that
    normalisation removes count as one request.
  */
  datatype TaskIdentity = TaskIdentity(
    description: string, owner: string, dueAt: Option<Time>, recurrenceRule: string,
    recurrenceParent: string, goal: string, workstream: string)

  datatype Priority = Low | Medium | High
  datatype Evidence = Evidence(kind: string, id: string)
  datatype Compatibility = Compatibility(metadata: Option<string>, category: Option<string>, relevance: Option<nat>)

  datatype Annotations = Annotations(
    capture: real, ownership: real, evidence: seq<Evidence>, compatibility: Option<Compatibility>,
    dueConfidence: Option<real>, priority: Option<Priority>)

  datatype TaskStatus = Active | TaskCompleted | Cancelled | Superseded
  datatype TaskAction = Update | Complete | Cancel | Supersede

  /** The status of a change payload: left out, set, or explicitly null, which is not a status. */
  datatype StatusChange = KeepStatus | SetStatus(status: TaskStatus) | NullStatus

  /** The fields a change sets; a field it leaves out is None, and a cleared instant or grade is Some(None). */
  datatype TaskChange = TaskChange(
    description: Option<string>, owner: Option<string>, dueAt: Option<Option<Time>>, recurrenceRule: Option<string>,
    recurrenceParent: Option<string>, goal: Option<string>, workstream: Option<string>,
    dueConfidence: Option<Option<real>>, priority: Option<Option<Priority>>, status: StatusChange)

  datatype Subject =
    | CreateTask(identity: TaskIdentity)
    | ChangeTask(task: TaskId, action: TaskAction, change: TaskChange)
    | CreateWorkstream(title: string)

  datatype Proposal = Proposal(subject: Subject, notes: Annotations)

  datatype Status = Pending | Accepted | Rejected | Expired

  datatype Candidate = Candidate(
    proposal: Proposal, status: Status, result: Option<TaskId>,
    createdAt: Time, resolvedAt: Option<Time>, expiresAt: Option<Time>)

  // ----- suggestion window -----

  function Deadline(c: Candidate): Time {
    if c.expiresAt.Some? then c.expiresAt.value else c.createdAt + SUGGESTION_TTL
  }

  predicate Lapsed(c: Candidate, now: Time) {
    c.status == Pending && Deadline(c) <= now
  }

  // ----- annotation merging -----

  function MaxReal(a: real, b: real): real { if a < b then b else a }

  function MaxConfidence(a: Option<real>, b: Option<real>): Option<real> {
    if a.None? then b else if b.None? then a else Some(MaxReal(a.value, b.value))
  }

  function Rank(p: Priority): nat {
    match p case Low => 0 case Medium => 1 case High => 2
  }

  function Strongest(a: Option<Priority>, b: Option<Priority>): Option<Priority> {
    if a.None? then b else if b.None? then a else if Rank(a.value) < Rank(b.value) then b else a
  }

  function Overlay(a: Option<Compatibility>, b: Option<Compatibility>): Option<Compatibility> {
    if b.None? then a
    else
      var c := if a.Some? then a.value else Compatibility(None, None, None);
      Some(Compatibility(if b.value.metadata.Some? then b.value.metadata else c.metadata,
                         if b.value.category.Some? then b.value.category else c.category,
                         if b.value.relevance.Some? then b.value.relevance else c.relevance))
  }

  /** First occurrences, in order. */
  function Distinct(refs: seq<Evidence>): (r: seq<Evidence>)
    ensures |r| <= |refs|
  {
    if refs == [] then []
    else
      var d := Distinct(refs[..|refs| - 1]);
      var last := refs[|refs| - 1];
      if last in d then d else d + [last]
  }

  function Capped(refs: seq<Evidence>): seq<Evidence> {
    if |refs| <= MAX_EVIDENCE then refs else refs[..MAX_EVIDENCE]
  }

  function MergeEvidence(a: seq<Evidence>, b: seq<Evidence>): seq<Evidence> {
    Capped(Distinct(a + b))
  }

  /** What a repeated capture adds to an existing candidate: never its identity, never its deadline. */
  function Merge(a: Annotations, b: Annotations): Annotations {
    Annotations(MaxReal(a.capture, b.capture), MaxReal(a.ownership, b.ownership),
                MergeEvidence(a.evidence, b.evidence), Overlay(a.compatibility, b.compatibility),
                MaxConfidence(a.dueConfidence, b.dueConfidence), Strongest(a.priority, b.priority))
  }

  ghost predicate NoDuplicates(s: seq<Evidence>) {
    forall i, j :: 0 <= i < j < |s| ==> s[i] != s[j]
  }

  lemma {:induction false} DistinctProperties(refs: seq<Evidence>)
    ensures NoDuplicates(Distinct(refs))
    ensures forall e :: e in Distinct(refs) <==> e in refs
  {
    if refs != [] {
      var n := |refs| - 1;
      DistinctProperties(refs[..n]);
      assert refs == refs[..n] + [refs[n]];
    }
  }

  lemma {:induction false} DistinctGrows(refs: seq<Evidence>, k: nat)
    requires k <= |refs|
    ensures Distinct(refs[..k]) <= Distinct(refs)
    decreases |refs|
  {
    if k < |refs| {
      var n := |refs| - 1;
      DistinctGrows(refs[..n], k);
      assert refs[..n][..k] == refs[..k];
    } else {
      assert refs[..k] == refs;
    }
  }

  /** Appending evidence that is already there, to evidence without duplicates, changes nothing. */
  lemma {:induction false} DistinctAbsorbs(a: seq<Evidence>, b: seq<Evidence>)
    requires NoDuplicates(a) && forall e | e in b :: e in a
    ensures Distinct(a + b) == a
    decreases |a| + |b|
  {
    if b != [] {
      var n := |b| - 1;
      assert (a + b)[..|a| + n] == a + b[..n];
      assert b[n] in b;
      DistinctAbsorbs(a, b[..n]);
    } else if a != [] {
      var n := |a| - 1;
      assert (a + b)[..n] == a[..n] + [] && a + b == a;
      DistinctAbsorbs(a[..n], []);
      assert a == a[..n] + [a[n]];
      assert a[n] !in a[..n];
    }
  }

  lemma DistinctStep(refs: seq<Evidence>, i: nat)
    requires i < |refs|
    ensures var d := Distinct(refs[..i]);
            Distinct(refs[..i + 1]) == if refs[i] in d then d else d + [refs[i]]
    ensures |Distinct(refs[..i + 1])| == MAX_EVIDENCE ==> MergeEvidence(refs, []) == Distinct(refs[..i + 1])
  {
    assert refs[..i + 1][..i] == refs[..i];
    assert refs + [] == refs;
    DistinctGrows(refs, i + 1);
  }

  /** The merge loop: a running list and a seen-set, stopping at the cap. */
  method MergeEvidenceLoop(existing: seq<Evidence>, proposed: seq<Evidence>) returns (evidence: seq<Evidence>)
    ensures evidence == MergeEvidence(existing, proposed)
  {
    var refs := existing + proposed;
    assert refs + [] == refs;
    evidence := [];
    var seen: set<Evidence> := {};
    var i := 0;
    while i < |refs|
      invariant 0 <= i <= |refs|
      invariant evidence == Distinct(refs[..i]) && |evidence| < MAX_EVIDENCE
      invariant forall e :: e in seen <==> e in evidence
    {
      var ref := refs[i];
      DistinctStep(refs, i);
      i := i + 1;
      if ref in seen { continue; }
      seen := seen + {ref};
      evidence := evidence + [ref];
      if |evidence| == MAX_EVIDENCE {
        return;
      }
    }
    assert refs[..i] == refs;
  }

  lemma MergeEvidenceIdempotent(a: seq<Evidence>, b: seq<Evidence>)
    ensures MergeEvidence(MergeEvidence(a, b), b) == MergeEvidence(a, b)
    ensures NoDuplicates(MergeEvidence(a, b))
  {
    var d := Distinct(a + b);
    var m := MergeEvidence(a, b);
    DistinctProperties(a + b);
    if |d| <= MAX_EVIDENCE {
      DistinctAbsorbs(m, b);
    } else {
      DistinctAbsorbs(m, []);
      assert m + [] == m && (m + b)[..MAX_EVIDENCE] == m;
      DistinctGrows(m + b, MAX_EVIDENCE);
      assert Distinct(m + b)[..MAX_EVIDENCE] == m;
    }
  }

  /** Redelivering a capture that was already merged changes nothing, capped or not. */
  lemma MergeIsIdempotent(a: Annotations, b: Annotations)
    ensures Merge(Merge(a, b), b) == Merge(a, b)
  {
    MergeEvidenceIdempotent(a.evidence, b.evidence);
  }

  /** Merging loses evidence exactly when the union exceeds the cap. */
  lemma MergeKeepsUnionIffUnderCap(a: Annotations, b: Annotations)
    ensures (forall e :: e in a.evidence + b.evidence ==> e in Merge(a, b).evidence) <==>
              |Distinct(a.evidence + b.evidence)| <= 20
    ensures forall e :: e in Merge(a, b).evidence ==> e in a.evidence + b.evidence
  {
    var d := Distinct(a.evidence + b.evidence);
    DistinctProperties(a.evidence + b.evidence);
    if |d| > MAX_EVIDENCE {
      var lost := d[MAX_EVIDENCE];
      assert lost in d && lost !in d[..MAX_EVIDENCE];
    }
  }

  /**
    Which annotation wins: of two confidences or priorities the stronger, one that is missing never hides one that is
    given, and compatibility data is overwritten field by field by what the new capture carries.
  */
  lemma MergeTakesStrongest(a: Annotations, b: Annotations)
    ensures var m := Merge(a, b);
            && m.capture == (if a.capture >= b.capture then a.capture else b.capture)
            && m.ownership == (if a.ownership >= b.ownership then a.ownership else b.ownership)
            && (a.dueConfidence.None? ==> m.dueConfidence == b.dueConfidence)
            && (b.dueConfidence.None? ==> m.dueConfidence == a.dueConfidence)
            && (a.dueConfidence.Some? && b.dueConfidence.Some? ==>
                  m.dueConfidence == if a.dueConfidence.value >= b.dueConfidence.value then a.dueConfidence else b.dueConfidence)
            && m.priority == (if a.priority == Some(High) || b.priority == Some(High) then Some(High)
                              else if a.priority == Some(Medium) || b.priority == Some(Medium) then Some(Medium)
                              else if a.priority == Some(Low) || b.priority == Some(Low) then Some(Low) else None)
            && (b.compatibility.None? ==> m.compatibility == a.compatibility)
            && (b.compatibility.Some? ==>
                  var was := if a.compatibility.Some? then a.compatibility.value else Compatibility(None, None, None);
                  var given := b.compatibility.value;
                  && m.compatibility.Some?
                  && m.compatibility.value.metadata == (if given.metadata.Some? then given.metadata else was.metadata)
                  && m.compatibility.value.category == (if given.category.Some? then given.category else was.category)
                  && m.compatibility.value.relevance == (if given.relevance.Some? then given.relevance else was.relevance))
  {
    if a.priority.Some? { PriorityIsOneOf(a.priority.value); }
    if b.priority.Some? { PriorityIsOneOf(b.priority.value); }
  }

  lemma PriorityIsOneOf(p: Priority)
    ensures (p == Low && Rank(p) == 0) || (p == Medium && Rank(p) == 1) || (p == High && Rank(p) == 2)
  {
  }

  /** Confidence, due confidence and priority strength do not depend on the order captures arrive in. */
  lemma MergeOrderIrrelevant(a: Annotations, b: Annotations, c: Annotations)
    ensures var x, y := Merge(Merge(a, b), c), Merge(Merge(a, c), b);
            && x.capture == y.capture && x.ownership == y.ownership
            && x.dueConfidence == y.dueConfidence
            && x.priority == y.priority
    ensures Merge(a, b).capture >= a.capture && Merge(a, b).ownership >= a.ownership
  {
    if a.priority.Some? && b.priority.Some? { RankInjective(a.priority.value, b.priority.value); }
    if a.priority.Some? && c.priority.Some? { RankInjective(a.priority.value, c.priority.value); }
    if b.priority.Some? && c.priority.Some? { RankInjective(b.priority.value, c.priority.value); }
  }

  lemma RankInjective(p: Priority, q: Priority)
    ensures Rank(p) == Rank(q) ==> p == q
  {
  }
}
