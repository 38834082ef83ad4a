/** What every run of the release channels keeps. */
module ChannelRuns {
  import opened Wrappers
  import opened ChannelTransactions

  function PointerOf(s: Registry, channel: Channel): Option<Pointer> {
    match channel case Stable => s.stable case Beta => s.beta
  }

  /** A set channel pointer resolves: it names a stored manifest with the same version and build. */
  ghost predicate Resolves(p: Option<Pointer>, manifests: map<ReleaseId, Manifest>) {
    p.Some? ==>
      && p.value.release in manifests
      && p.value.version == manifests[p.value.release].version
      && p.value.build == manifests[p.value.release].build
      && manifests[p.value.release].platform == "macos"
  }

  ghost predicate Inv(s: Registry) {
    && (forall id | id in s.manifests :: s.manifests[id].releaseId == id)
    && Resolves(s.stable, s.manifests)
    && Resolves(s.beta, s.manifests)
    && (s.stable.Some? ==> s.manifests[s.stable.value.release].evidence != Emergency)
    && (s.control.Some? && s.control.value.reserved.Some? ==> CanonicalTag(s.control.value.reserved.value))
    && (s.control.Some? && s.control.value.enabled ==> s.control.value.reserved.Some?)
  }

  /** Manifests are immutable and audits are never rewritten. */
  ghost predicate Retains(s: Registry, t: Registry) {
    && (forall id | id in s.manifests :: id in t.manifests && t.manifests[id] == s.manifests[id])
    && (forall id | id in s.audits :: id in t.audits && t.audits[id] == s.audits[id])
  }

  /** A pointer built for a manifest resolves once that manifest is stored. */
  lemma BuiltPointerResolves(current: Option<Pointer>, m: Manifest, t: Transition, release: ReleaseId, generation: Option<nat>,
                             expected: Option<ReleaseId>, manifests: map<ReleaseId, Manifest>)
    requires Resolves(current, manifests) && release in manifests && manifests[release] == m
    requires BuildPointer(current, m, t, release, generation, expected).Ok?
    ensures Resolves(Some(BuildPointer(current, m, t, release, generation, expected).value), manifests)
  {
  }

  /** Storing a manifest under a free id, or the same one again, breaks no pointer. */
  lemma StoringKeepsInv(s: Registry, m: Manifest)
    requires Inv(s) && (m.releaseId in s.manifests ==> s.manifests[m.releaseId] == m)
    ensures var t := s.(manifests := s.manifests[m.releaseId := m]); Inv(t) && Retains(s, t)
  {
  }

  lemma BreakGlassKeepsInv(s: Registry, q: Incident)
    requires Inv(s)
    ensures Inv(BreakGlassTxn(s, q).0) && Retains(s, BreakGlassTxn(s, q).0)
  {
    if BreakGlassTxn(s, q).1.Ok? {
      var target := TargetOf(s, q).value;
      var u := if q.emergency.Some? then s.(manifests := s.manifests[q.target := target]) else s;
      StoringKeepsInv(s, target);
      BuiltPointerResolves(s.beta, target, BreakGlass, q.target, Some(q.expectedGeneration), Some(q.current), u.manifests);
    }
  }

  lemma AdmitKeepsInv(s: Registry, m: Manifest, captured: nat)
    requires Inv(s)
    ensures Inv(AdmitTxn(s, m, captured).0) && Retains(s, AdmitTxn(s, m, captured).0)
  {
    if AdmitTxn(s, m, captured).1.Ok? {
      StoringKeepsInv(s, m);
      BuiltPointerResolves(s.beta, m, Promote, m.releaseId, None, None, s.manifests[m.releaseId := m]);
    }
  }

  lemma StepKeepsInv(s: Registry, op: Op)
    requires Inv(s)
    ensures Inv(Step(s, op)) && Retains(s, Step(s, op))
  {
    match op
    case OpBreakGlass(q) => BreakGlassKeepsInv(s, q);
    case OpAdmit(m, captured) => AdmitKeepsInv(s, m, captured);
    case _ =>
  }

  lemma {:induction false} RunKeepsInv(s: Registry, ops: seq<Op>)
    requires Inv(s)
    ensures Inv(After(s, ops)) && Retains(s, After(s, ops))
    decreases |ops|
  {
    if ops != [] {
      StepKeepsInv(s, ops[0]);
      RunKeepsInv(Step(s, ops[0]), ops[1..]);
    }
  }

  // ----- 1. pointers -----

  function PointerGeneration(p: Option<Pointer>): nat { if p.Some? then p.value.generation else 0 }

  /** How often a channel really changed its release. */
  ghost function PointerChanges(s: Registry, ops: seq<Op>, channel: Channel): nat
    decreases |ops|
  {
    if ops == [] then 0
    else (if PointerOf(Step(s, ops[0]), channel) != PointerOf(s, channel) then 1 else 0) + PointerChanges(Step(s, ops[0]), ops[1..], channel)
  }

  /** A step leaves a pointer alone, or moves it to another release and counts one generation; promotion only rolls forward. */
  lemma StepMovesPointer(s: Registry, op: Op, channel: Channel)
    ensures var p, r := PointerOf(s, channel), PointerOf(Step(s, op), channel);
            || r == p
            || (&& r.Some? && r.value.generation == PointerGeneration(p) + 1
                && (p.Some? ==> r.value.release != p.value.release)
                && (p.Some? && (op.OpAdmit? || (op.OpPromote? && !op.repoint)) ==> p.value.build < r.value.build)
                && (channel == Beta <==> op.OpAdmit? || op.OpBreakGlass?)
                && (op.OpBreakGlass? && op.incident.emergency.Some? ==> p.Some? && p.value.build < r.value.build))
  {
    match op
    case OpBreakGlass(q) => BreakGlassMovesBeta(s, q);
    case _ =>
  }

  lemma BreakGlassMovesBeta(s: Registry, q: Incident)
    ensures var t := BreakGlassTxn(s, q).0;
            && t.stable == s.stable
            && (t.beta == s.beta ||
                (s.beta.Some? && t.beta.Some? && t.beta.value.generation == s.beta.value.generation + 1
                 && t.beta.value.release != s.beta.value.release
                 && (q.emergency.Some? ==> s.beta.value.build < t.beta.value.build)))
  {
  }

  /** In every run from the empty registry, a pointer's generation is the number of its real changes. */
  lemma {:induction false} GenerationCountsChanges(s: Registry, ops: seq<Op>, channel: Channel)
    ensures PointerGeneration(PointerOf(After(s, ops), channel)) == PointerGeneration(PointerOf(s, channel)) + PointerChanges(s, ops, channel)
    decreases |ops|
  {
    if ops != [] {
      StepMovesPointer(s, ops[0], channel);
      GenerationCountsChanges(Step(s, ops[0]), ops[1..], channel);
    }
  }

  /** Every reachable pointer resolves; Stable never names an emergency manifest; generations count changes. */
  lemma PointersResolve(ops: seq<Op>)
    ensures var s := After(EMPTY, ops);
            && Resolves(s.stable, s.manifests) && Resolves(s.beta, s.manifests)
            && (s.stable.Some? ==> s.manifests[s.stable.value.release].evidence != Emergency)
            && PointerGeneration(s.stable) == PointerChanges(EMPTY, ops, Stable)
            && PointerGeneration(s.beta) == PointerChanges(EMPTY, ops, Beta)
  {
    RunKeepsInv(EMPTY, ops);
    GenerationCountsChanges(EMPTY, ops, Stable);
    GenerationCountsChanges(EMPTY, ops, Beta);
  }

  /** A registered manifest is never altered: whatever runs, its id answers with the same record, and any other is refused. */
  lemma ManifestsAreImmutable(s: Registry, ops: seq<Op>, id: ReleaseId, other: Manifest)
    requires Inv(s) && id in s.manifests && other.releaseId == id && other != s.manifests[id]
    ensures var t := After(s, ops);
            && id in t.manifests && t.manifests[id] == s.manifests[id]
            && RegisterTxn(t, other) == (t, Err(ManifestCollision))
            && (forall captured :: AdmitTxn(t, other, captured).1.Err? && AdmitTxn(t, other, captured).0 == t)
  {
    RunKeepsInv(s, ops);
  }

  // ----- 2. the control generation counts control changes -----

  function ControlGeneration(s: Registry): nat { if s.control.Some? then s.control.value.generation else 0 }

  ghost function ControlChanges(s: Registry, ops: seq<Op>): nat
    decreases |ops|
  {
    if ops == [] then 0
    else (if Step(s, ops[0]).control != s.control then 1 else 0) + ControlChanges(Step(s, ops[0]), ops[1..])
  }

  lemma StepCountsControl(s: Registry, op: Op)
    ensures Step(s, op).control == s.control || ControlGeneration(Step(s, op)) == ControlGeneration(s) + 1
  {
    match op
    case OpBreakGlass(q) =>
      assert BreakGlassTxn(s, q).0.control == s.control || ControlGeneration(BreakGlassTxn(s, q).0) == ControlGeneration(s) + 1;
    case _ =>
  }

  lemma {:induction false} ControlGenerationCounts(s: Registry, ops: seq<Op>)
    ensures ControlGeneration(After(s, ops)) == ControlGeneration(s) + ControlChanges(s, ops)
    ensures ControlChanges(s, ops) == 0 ==> After(s, ops).control == s.control
    decreases |ops|
  {
    if ops != [] {
      StepCountsControl(s, ops[0]);
      ControlGenerationCounts(Step(s, ops[0]), ops[1..]);
    }
  }

  /**
    An admission passes its control checks with a captured generation exactly when nothing changed the
    control document since the capture: no new reservation, no pause, no resume, no break-glass.
  */
  lemma AdmissionNeedsUnchangedControl(s: Registry, tag: ReleaseId, ops: seq<Op>, m: Manifest)
    requires Capture(s, tag).Ok? && m.releaseId == tag
    ensures AdmissionVerdict(After(s, ops), m, Capture(s, tag).value.generation).None? <==> ControlChanges(s, ops) == 0
  {
    ControlGenerationCounts(s, ops);
  }

  /** So an admission that commits saw no such change, whichever manifest it carries. */
  lemma CommittedAdmissionSawNoChange(s: Registry, tag: ReleaseId, ops: seq<Op>, m: Manifest)
    requires Capture(s, tag).Ok? && AdmitTxn(After(s, ops), m, Capture(s, tag).value.generation).1.Ok?
    ensures ControlChanges(s, ops) == 0 && After(s, ops).control == s.control && m.releaseId == tag
  {
    ControlGenerationCounts(s, ops);
  }

  // ----- 3. reservations roll forward -----

  ghost predicate RollsForward(a: Option<ReleaseId>, b: Option<ReleaseId>) {
    || b == a
    || (a.None? && b.Some? && CanonicalTag(b.value))
    || (&& a.Some? && b.Some? && CanonicalTag(a.value) && CanonicalTag(b.value)
        && a.value.tagBuild < b.value.tagBuild && !Less(b.value.tagVersion, a.value.tagVersion))
  }

  function Reserved(s: Registry): Option<ReleaseId> { if s.control.Some? then s.control.value.reserved else None }

  lemma LessIsTransitive(a: Version, b: Version, c: Version)
    requires !Less(b, a) && !Less(c, b)
    ensures !Less(c, a)
  {
  }

  lemma StepRollsForward(s: Registry, op: Op)
    requires Inv(s)
    ensures RollsForward(Reserved(s), Reserved(Step(s, op)))
  {
    match op
    case OpBreakGlass(q) => assert Reserved(BreakGlassTxn(s, q).0) == Reserved(s);
    case _ =>
  }

  /** Over any run the reserved candidate is unchanged, or has a higher build and no lower version. */
  lemma {:induction false} ReservationsRollForward(s: Registry, ops: seq<Op>)
    requires Inv(s)
    ensures RollsForward(Reserved(s), Reserved(After(s, ops)))
    decreases |ops|
  {
    if ops != [] {
      var t := Step(s, ops[0]);
      StepRollsForward(s, ops[0]);
      StepKeepsInv(s, ops[0]);
      ReservationsRollForward(t, ops[1..]);
      RollsForwardTransitive(Reserved(s), Reserved(t), Reserved(After(s, ops)));
    }
  }

  lemma RollsForwardTransitive(a: Option<ReleaseId>, b: Option<ReleaseId>, c: Option<ReleaseId>)
    requires RollsForward(a, b) && RollsForward(b, c)
    ensures RollsForward(a, c)
  {
    if a.Some? && b.Some? && c.Some? && a.value.Canonical? && b.value.Canonical? && c.value.Canonical? {
      if !Less(b.value.tagVersion, a.value.tagVersion) && !Less(c.value.tagVersion, b.value.tagVersion) {
        LessIsTransitive(a.value.tagVersion, b.value.tagVersion, c.value.tagVersion);
      }
    }
  }

  // ----- 4. break-glass -----

  /** A committed break-glass pauses admission and voids every earlier capture, for ever and for every manifest. */
  lemma BreakGlassVoidsCaptures(s: Registry, tag: ReleaseId, before: seq<Op>, q: Incident, after: seq<Op>, m: Manifest)
    requires Capture(s, tag).Ok?
    requires BreakGlassTxn(After(s, before), q).1.Ok?
    ensures var t := BreakGlassTxn(After(s, before), q).0;
            && t.control.Some? && !t.control.value.enabled
            && (forall other :: Capture(t, other).Err?)
            && AdmitTxn(After(t, after), m, Capture(s, tag).value.generation).0 == After(t, after)
            && AdmitTxn(After(t, after), m, Capture(s, tag).value.generation).1.Err?
  {
    ControlGenerationCounts(s, before);
    ControlGenerationCounts(BreakGlassTxn(After(s, before), q).0, after);
  }

  /** One request id commits at most one break-glass. */
  lemma RequestCommitsOnce(s: Registry, q: Incident, ops: seq<Op>, again: Incident)
    requires Inv(s) && BreakGlassTxn(s, q).1.Ok? && again.requestId == q.requestId
    ensures var t := After(BreakGlassTxn(s, q).0, ops); BreakGlassTxn(t, again).1.Err? && BreakGlassTxn(t, again).0 == t
  {
    BreakGlassKeepsInv(s, q);
    RunKeepsInv(BreakGlassTxn(s, q).0, ops);
  }

  /** Admission alone never puts an emergency build on Beta: only a break-glass rollout does. */
  lemma EmergencyOnlyByRollout(s: Registry, op: Op)
    requires Inv(s) && Step(s, op).beta != s.beta
    ensures Step(s, op).beta.Some? && Step(s, op).beta.value.release in Step(s, op).manifests
    ensures Step(s, op).manifests[Step(s, op).beta.value.release].evidence == Emergency <==> op.OpBreakGlass? && op.incident.emergency.Some?
  {
    StepKeepsInv(s, op);
    if op.OpBreakGlass? {
      RolloutTarget(s, op.incident);
    }
  }

  lemma RolloutTarget(s: Registry, q: Incident)
    requires BreakGlassTxn(s, q).1.Ok?
    ensures var t := BreakGlassTxn(s, q).0;
            t.beta.Some? && t.beta.value.release == q.target && q.target in t.manifests &&
            (t.manifests[q.target].evidence == Emergency <==> q.emergency.Some?)
  {
  }
}
