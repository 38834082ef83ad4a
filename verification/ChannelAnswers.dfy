/**
  What each channel transaction answers and writes, exactly when, spelled out on the stored documents; and the
  compare-and-swap of the channel pointers over whole runs.
*/
module ChannelAnswers {
  import opened Wrappers
  import opened ChannelTransactions
  import opened ChannelRuns

  // ----- 1. the Stable pointer -----

  function CurrentRelease(p: Option<Pointer>): Option<ReleaseId> { if p.Some? then Some(p.value.release) else None }

  /** A manifest that the normal path may put on a channel. */
  ghost predicate NormalPath(m: Manifest) { m.platform == "macos" && (m.evidence == T2 || m.evidence == SignedSmoke) }

  /**
    The Stable pointer moves exactly to another stored, normally qualified macOS release, when every expectation given
    about the current pointer is met: a repoint must name both the current release and its generation, and a promotion
    must raise the build.
  */
  lemma StableMovesExactlyWhen(s: Registry, release: ReleaseId, repoint: bool, expectedGeneration: Option<nat>, expectedCurrent: Option<ReleaseId>)
    ensures var (t, reply) := PromoteTxn(s, release, repoint, expectedGeneration, expectedCurrent);
            var generation := if s.stable.Some? then s.stable.value.generation else 0;
            var moves :=
              && release in s.manifests && NormalPath(s.manifests[release]) && CurrentRelease(s.stable) != Some(release)
              && (repoint ==> expectedGeneration.Some? && expectedCurrent.Some?)
              && (expectedGeneration.Some? ==> expectedGeneration.value == generation)
              && (expectedCurrent.Some? ==> CurrentRelease(s.stable) == expectedCurrent)
              && (!repoint && s.stable.Some? ==> s.stable.value.build < s.manifests[release].build);
            && (moves ==>
                  var p := Pointer(release, s.manifests[release].version, s.manifests[release].build, generation + 1);
                  t == s.(stable := Some(p)) && reply == Ok(p))
            && (!moves ==> t == s)
            && (!moves && reply.Ok? ==>
                  && s.stable == Some(reply.value) && reply.value.release == release
                  && release in s.manifests && NormalPath(s.manifests[release]))
  {
  }

  /** Each refusal of a promotion names the first expectation that fails. */
  lemma PromotionRefusals(s: Registry, release: ReleaseId, repoint: bool, expectedGeneration: Option<nat>, expectedCurrent: Option<ReleaseId>)
    ensures var reply := PromoteTxn(s, release, repoint, expectedGeneration, expectedCurrent).1;
            var generation := if s.stable.Some? then s.stable.value.generation else 0;
            if repoint && (expectedCurrent.None? || expectedGeneration.None?) then reply == Err(InvalidRequest)
            else if release !in s.manifests then reply == Err(ManifestMissing)
            else if s.manifests[release].platform != "macos" then reply == Err(WrongPlatform)
            else if s.manifests[release].evidence == Emergency then reply == Err(MissingEvidence)
            else if CurrentRelease(s.stable) == Some(release) then reply == Ok(s.stable.value)
            else if expectedCurrent.Some? && CurrentRelease(s.stable) != expectedCurrent then reply == Err(CurrentMismatch)
            else if expectedGeneration.Some? && expectedGeneration.value != generation then reply == Err(PointerGenerationMismatch)
            else if !repoint && s.stable.Some? && s.manifests[release].build <= s.stable.value.build then reply == Err(MustRollForward)
            else reply.Ok?
  {
  }

  lemma {:induction false} GenerationsNeverFall(s: Registry, ops: seq<Op>, channel: Channel)
    ensures PointerGeneration(PointerOf(After(s, ops), channel)) >= PointerGeneration(PointerOf(s, channel))
    decreases |ops|
  {
    if ops != [] {
      StepMovesPointer(s, ops[0], channel);
      GenerationsNeverFall(Step(s, ops[0]), ops[1..], channel);
    }
  }

  /** A pointer move that was told to expect this generation of the channel. */
  ghost predicate SwapsAt(s: Registry, op: Op, channel: Channel, generation: nat) {
    && PointerOf(Step(s, op), channel) != PointerOf(s, channel)
    && match op
       case OpPromote(_, _, expected, _) => expected == Some(generation)
       case OpBreakGlass(q) => q.expectedGeneration == generation
       case _ => false
  }

  lemma SwapMatchesGeneration(s: Registry, op: Op, channel: Channel, generation: nat)
    requires SwapsAt(s, op, channel, generation)
    ensures PointerGeneration(PointerOf(s, channel)) == generation
    ensures PointerGeneration(PointerOf(Step(s, op), channel)) == generation + 1
  {
    match op
    case OpPromote(release, repoint, expectedGeneration, expectedCurrent) =>
      StableMovesExactlyWhen(s, release, repoint, expectedGeneration, expectedCurrent);
    case OpBreakGlass(q) => BreakGlassExactlyWhen(s, q);
    case _ =>
  }

  ghost function Swaps(s: Registry, ops: seq<Op>, channel: Channel, generation: nat): nat
    decreases |ops|
  {
    if ops == [] then 0
    else (if SwapsAt(s, ops[0], channel, generation) then 1 else 0) + Swaps(Step(s, ops[0]), ops[1..], channel, generation)
  }

  lemma {:induction false} NoSwapAtPastGeneration(s: Registry, ops: seq<Op>, channel: Channel, generation: nat)
    requires PointerGeneration(PointerOf(s, channel)) > generation
    ensures Swaps(s, ops, channel, generation) == 0
    decreases |ops|
  {
    if ops != [] {
      if SwapsAt(s, ops[0], channel, generation) { SwapMatchesGeneration(s, ops[0], channel, generation); }
      StepMovesPointer(s, ops[0], channel);
      NoSwapAtPastGeneration(Step(s, ops[0]), ops[1..], channel, generation);
    }
  }

  /**
    Compare-and-swap of a channel pointer: over any run, of all the repoints, promotions and break-glass calls that
    present the same expected generation, at most one moves it.
  */
  lemma {:induction false} OneSwapPerGeneration(s: Registry, ops: seq<Op>, channel: Channel, generation: nat)
    ensures Swaps(s, ops, channel, generation) <= 1
    decreases |ops|
  {
    if ops != [] {
      if SwapsAt(s, ops[0], channel, generation) {
        SwapMatchesGeneration(s, ops[0], channel, generation);
        NoSwapAtPastGeneration(Step(s, ops[0]), ops[1..], channel, generation);
      } else {
        OneSwapPerGeneration(Step(s, ops[0]), ops[1..], channel, generation);
      }
    }
  }

  /** After a repoint moved Stable, whatever runs, a repoint that still presents the old generation moves nothing. */
  lemma LateRepointMovesNothing(s: Registry, first: ReleaseId, current: ReleaseId, generation: nat, ops: seq<Op>, second: ReleaseId, other: ReleaseId)
    requires PromoteTxn(s, first, true, Some(generation), Some(current)).0.stable != s.stable
    ensures var t := After(PromoteTxn(s, first, true, Some(generation), Some(current)).0, ops);
            PromoteTxn(t, second, true, Some(generation), Some(other)).0 == t
  {
    var u := PromoteTxn(s, first, true, Some(generation), Some(current)).0;
    StableMovesExactlyWhen(s, first, true, Some(generation), Some(current));
    GenerationsNeverFall(u, ops, Stable);
    StableMovesExactlyWhen(After(u, ops), second, true, Some(generation), Some(other));
  }

  // ----- 2. the Beta pointer -----

  /**
    Beta is admitted exactly under a live control document whose generation is the captured one and whose reservation is
    this very candidate, for a manifest that collides with no other and is normally qualified; Beta then moves
    forward, or was there already.
  */
  lemma AdmittedExactlyWhen(s: Registry, m: Manifest, captured: nat)
    ensures var (t, reply) := AdmitTxn(s, m, captured);
            var there := CurrentRelease(s.beta) == Some(m.releaseId);
            && (reply.Ok? <==>
                  && s.control.Some? && s.control.value.enabled && s.control.value.generation == captured
                  && s.control.value.reserved == Some(m.releaseId) && m.releaseId.Canonical? && m.releaseId.tagBuild > 0
                  && (m.releaseId in s.manifests ==> s.manifests[m.releaseId] == m)
                  && NormalPath(m)
                  && (there || s.beta.None? || s.beta.value.build < m.build))
            && (!reply.Ok? ==> t == s)
            && (reply.Ok? ==>
                  && reply.value == (if there then s.beta.value
                                     else Pointer(m.releaseId, m.version, m.build, (if s.beta.Some? then s.beta.value.generation else 0) + 1))
                  && t == s.(manifests := s.manifests[m.releaseId := m], beta := Some(reply.value)))
  {
  }

  /** The control checks of an admission, each with its refusal, in order. */
  lemma AdmissionRefusals(s: Registry, m: Manifest, captured: nat)
    ensures var reply := AdmitTxn(s, m, captured).1;
            if s.control.None? then reply == Err(Unavailable)
            else if !(m.releaseId.Canonical? && m.releaseId.tagBuild > 0) then reply == Err(InvalidTag)
            else if !s.control.value.enabled then reply == Err(Disabled)
            else if s.control.value.generation != captured then reply == Err(GenerationChanged)
            else if s.control.value.reserved != Some(m.releaseId) then reply == Err(ReservationMismatch)
            else if m.releaseId in s.manifests && s.manifests[m.releaseId] != m then reply == Err(ManifestCollision)
            else if m.platform != "macos" then reply == Err(WrongPlatform)
            else if m.evidence == Emergency then reply == Err(MissingEvidence)
            else if CurrentRelease(s.beta) != Some(m.releaseId) && s.beta.Some? && m.build <= s.beta.value.build then reply == Err(MustRollForward)
            else reply.Ok?
  {
  }

  /**
    Break-glass commits exactly for an unused request that names the current Beta release and its generation, under an
    existing control document: a rollback to a retained manifest that is no emergency build, or a rollout of an emergency
    build that is higher than the current one and collides with no other manifest.
  */
  lemma BreakGlassExactlyWhen(s: Registry, q: Incident)
    ensures var (t, reply) := BreakGlassTxn(s, q);
            && (reply.Ok? <==>
                  && q.requestId !in s.audits && s.control.Some?
                  && s.beta.Some? && s.beta.value.release == q.current && s.beta.value.generation == q.expectedGeneration
                  && (q.emergency.None? ==>
                        q.target in s.manifests && s.manifests[q.target].evidence != Emergency && s.manifests[q.target].platform == "macos")
                  && (q.emergency.Some? ==>
                        && q.emergency.value.releaseId == q.target && q.emergency.value.evidence == Emergency
                        && q.emergency.value.platform == "macos" && s.beta.value.build < q.emergency.value.build
                        && (q.target in s.manifests ==> s.manifests[q.target] == q.emergency.value)))
            && (!reply.Ok? ==> t == s)
            && (reply.Ok? ==>
                  var m := if q.emergency.Some? then q.emergency.value else s.manifests[q.target];
                  var p := if q.target == q.current then s.beta.value else Pointer(q.target, m.version, m.build, q.expectedGeneration + 1);
                  && reply == Ok(p)
                  && t == s.(beta := Some(p), manifests := s.manifests[q.target := m],
                             control := Some(s.control.value.(enabled := false, generation := s.control.value.generation + 1)),
                             audits := s.audits[q.requestId := Audit(q.emergency.Some?, q.current, q.target, p.generation)]))
  {
    if q.target in s.manifests { assert s.manifests[q.target := s.manifests[q.target]] == s.manifests; }
  }

  /** The checks of a break-glass request, each with its refusal, in order. */
  lemma BreakGlassRefusals(s: Registry, q: Incident)
    ensures var reply := BreakGlassTxn(s, q).1;
            if q.emergency.Some? && q.emergency.value.releaseId != q.target then reply == Err(InvalidRequest)
            else if q.requestId in s.audits then reply == Err(RequestUsed)
            else if s.control.None? then reply == Err(Unavailable)
            else if CurrentRelease(s.beta) != Some(q.current) then reply == Err(CurrentMismatch)
            else if s.beta.value.generation != q.expectedGeneration then reply == Err(PointerGenerationMismatch)
            else if q.emergency.None? && q.target !in s.manifests then reply == Err(ManifestMissing)
            else if q.emergency.None? && s.manifests[q.target].evidence == Emergency then reply == Err(EmergencyTarget)
            else if q.emergency.Some? && q.target in s.manifests && s.manifests[q.target] != q.emergency.value then reply == Err(ManifestCollision)
            else if q.emergency.Some? && q.emergency.value.evidence != Emergency then reply == Err(NotEmergency)
            else if q.emergency.Some? && q.emergency.value.build <= s.beta.value.build then reply == Err(NotHigher)
            else if (if q.emergency.Some? then q.emergency.value else s.manifests[q.target]).platform != "macos" then reply == Err(WrongPlatform)
            else reply.Ok?
  {
  }

  // ----- 3. admission control and manifests -----

  ghost predicate Older(a: Version, b: Version) {
    a.major < b.major || (a.major == b.major && (a.minor < b.minor || (a.minor == b.minor && a.patch < b.patch)))
  }

  /** A reservation is taken exactly for a well-formed tag that is the reserved one, or has a higher build and no older version. */
  lemma ReservedExactlyWhen(s: Registry, tag: ReleaseId)
    ensures var (t, reply) := ReserveTxn(s, tag);
            var held := if s.control.Some? then s.control.value.reserved else None;
            if !(tag.Canonical? && tag.tagBuild > 0) then t == s && reply == Err(InvalidTag)
            else if s.control.None? then reply == Ok(Control(false, Some(tag), 1)) && t == s.(control := Some(reply.value))
            else if held == Some(tag) then t == s && reply == Ok(s.control.value)
            else if held.Some? && held.value.Canonical? && (tag.tagBuild <= held.value.tagBuild || Older(tag.tagVersion, held.value.tagVersion)) then
              t == s && reply == Err(MustRollForward)
            else
              && reply == Ok(Control(s.control.value.enabled, Some(tag), s.control.value.generation + 1))
              && t == s.(control := Some(reply.value))
  {
  }

  /** Pausing always works; resuming needs a reservation; asking for what is already so changes nothing. */
  lemma EnabledExactlyWhen(s: Registry, enabled: bool)
    ensures var (t, reply) := SetEnabledTxn(s, enabled);
            if s.control.None? then
              if enabled then t == s && reply == Err(NoReservation)
              else reply == Ok(Control(false, None, 1)) && t == s.(control := Some(reply.value))
            else if s.control.value.enabled == enabled then t == s && reply == Ok(s.control.value)
            else if enabled && s.control.value.reserved == None then t == s && reply == Err(NoReservation)
            else
              && reply == Ok(Control(enabled, s.control.value.reserved, s.control.value.generation + 1))
              && t == s.(control := Some(reply.value))
  {
  }

  /** A capture succeeds exactly while admission is enabled for this very reservation. */
  lemma CapturedExactlyWhen(s: Registry, tag: ReleaseId)
    ensures var reply := Capture(s, tag);
            if !(tag.Canonical? && tag.tagBuild > 0) then reply == Err(InvalidTag)
            else if s.control.None? then reply == Err(Unavailable)
            else if !s.control.value.enabled then reply == Err(Disabled)
            else if s.control.value.reserved != Some(tag) then reply == Err(ReservationMismatch)
            else reply == Ok(s.control.value)
  {
  }

  lemma RegisteredExactlyWhen(s: Registry, m: Manifest)
    ensures var (t, reply) := RegisterTxn(s, m);
            if m.releaseId in s.manifests then t == s && reply == if s.manifests[m.releaseId] == m then Ok(m) else Err(ManifestCollision)
            else reply == Ok(m) && t == s.(manifests := s.manifests[m.releaseId := m])
  {
  }
}
