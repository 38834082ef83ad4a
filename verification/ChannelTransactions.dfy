/**
  Desktop release channels (backend/database/desktop_update_channels.py) and the incident-only Beta
  mutations (backend/database/desktop_beta_breakglass.py), on values.
*/
module ChannelTransactions {
  import opened Wrappers

  datatype Version = Version(major: nat, minor: nat, patch: nat)

  predicate Less(a: Version, b: Version) {
    || a.major < b.major
    || (a.major == b.major && a.minor < b.minor)
    || (a.major == b.major && a.minor == b.minor && a.patch < b.patch)
  }

  /** A canonical macOS tag carries a version and a positive build; any other id does not parse. */
  datatype ReleaseId = Canonical(text: string, tagVersion: Version, tagBuild: nat) | Plain(text: string)

  predicate CanonicalTag(id: ReleaseId) { id.Canonical? && id.tagBuild > 0 }

  /** The only qualification evidence the manifest schema admits. */
  datatype Evidence = T2 | SignedSmoke | Emergency

  datatype Manifest = Manifest(releaseId: ReleaseId, platform: string, version: string, build: nat, evidence: Evidence, metadata: string)

  datatype Control = Control(enabled: bool, reserved: Option<ReleaseId>, generation: nat)
  datatype Pointer = Pointer(release: ReleaseId, version: string, build: nat, generation: nat)

  datatype Channel = Stable | Beta

  datatype Registry = Registry(
    control: Option<Control>,
    stable: Option<Pointer>,
    beta: Option<Pointer>,
    manifests: map<ReleaseId, Manifest>,
    audits: map<string, Audit>)

  datatype Error =
    | InvalidTag | MustRollForward | NoReservation | Unavailable | Disabled | ReservationMismatch | GenerationChanged
    | ManifestCollision | ManifestMissing | WrongPlatform | MissingEvidence | CurrentMismatch | PointerGenerationMismatch
    | InvalidRequest | RequestUsed | EmergencyTarget | NotEmergency | NotHigher
  datatype Result<+T> = Ok(value: T) | Err(error: Error)

  // ----- Beta admission control -----

  function ReserveTxn(s: Registry, tag: ReleaseId): (Registry, Result<Control>) {
    if !CanonicalTag(tag) then (s, Err(InvalidTag))
    else if s.control.None? then
      var c := Control(false, Some(tag), 1);
      (s.(control := Some(c)), Ok(c))
    else
      var c := s.control.value;
      if c.reserved == Some(tag) then (s, Ok(c))
      else if c.reserved.Some? && c.reserved.value.Canonical? &&
              (tag.tagBuild <= c.reserved.value.tagBuild || Less(tag.tagVersion, c.reserved.value.tagVersion)) then
        (s, Err(MustRollForward))
      else
        var d := c.(reserved := Some(tag), generation := c.generation + 1);
        (s.(control := Some(d)), Ok(d))
  }

  function SetEnabledTxn(s: Registry, enabled: bool): (Registry, Result<Control>) {
    if s.control.None? then
      if enabled then (s, Err(NoReservation))
      else
        var c := Control(false, None, 1);
        (s.(control := Some(c)), Ok(c))
    else
      var c := s.control.value;
      if c.enabled == enabled then (s, Ok(c))
      else if enabled && c.reserved.None? then (s, Err(NoReservation))
      else
        var d := c.(enabled := enabled, generation := c.generation + 1);
        (s.(control := Some(d)), Ok(d))
  }

  function Capture(s: Registry, tag: ReleaseId): Result<Control> {
    if !CanonicalTag(tag) then Err(InvalidTag)
    else if s.control.None? then Err(Unavailable)
    else if !s.control.value.enabled then Err(Disabled)
    else if s.control.value.reserved != Some(tag) then Err(ReservationMismatch)
    else Ok(s.control.value)
  }

  // ----- manifests and pointers -----

  function RegisterTxn(s: Registry, m: Manifest): (Registry, Result<Manifest>) {
    if m.releaseId in s.manifests then
      if s.manifests[m.releaseId] != m then (s, Err(ManifestCollision)) else (s, Ok(m))
    else (s.(manifests := s.manifests[m.releaseId := m]), Ok(m))
  }

  datatype Transition = Promote | Repoint | BreakGlass

  predicate Accepts(t: Transition, e: Evidence) { t == BreakGlass || e != Emergency }
  predicate RequiresCurrent(t: Transition) { t != Promote }

  /** The single authority that constructs a pointer; the current pointer comes back for an exact retry. */
  function BuildPointer(current: Option<Pointer>, m: Manifest, t: Transition, release: ReleaseId,
                        expectedGeneration: Option<nat>, expectedCurrent: Option<ReleaseId>): Result<Pointer>
  {
    if m.platform != "macos" then Err(WrongPlatform)
    else if !Accepts(t, m.evidence) then Err(MissingEvidence)
    else if current.Some? && current.value.release == release then Ok(current.value)
    else
      var currentRelease := if current.Some? then Some(current.value.release) else None;
      var generation := if current.Some? then current.value.generation else 0;
      if (RequiresCurrent(t) || expectedCurrent.Some?) && currentRelease != expectedCurrent then Err(CurrentMismatch)
      else if expectedGeneration.Some? && expectedGeneration.value != generation then Err(PointerGenerationMismatch)
      else if t == Promote && current.Some? && m.build <= current.value.build then Err(MustRollForward)
      else Ok(Pointer(release, m.version, m.build, generation + 1))
  }

  /** The public promotion API: macOS Stable only, and only `promote` or `repoint`. */
  function PromoteTxn(s: Registry, release: ReleaseId, repoint: bool, expectedGeneration: Option<nat>, expectedCurrent: Option<ReleaseId>)
    : (Registry, Result<Pointer>)
  {
    if repoint && (expectedCurrent.None? || expectedGeneration.None?) then (s, Err(InvalidRequest))
    else if release !in s.manifests then (s, Err(ManifestMissing))
    else
      var reply := BuildPointer(s.stable, s.manifests[release], if repoint then Repoint else Promote, release, expectedGeneration, expectedCurrent);
      (if reply.Ok? then s.(stable := Some(reply.value)) else s, reply)
  }

  /** The checks against the admission control document, in order. */
  function AdmissionVerdict(s: Registry, m: Manifest, captured: nat): Option<Error> {
    if s.control.None? then Some(Unavailable)
    else if !CanonicalTag(m.releaseId) then Some(InvalidTag)
    else if !s.control.value.enabled then Some(Disabled)
    else if s.control.value.generation != captured then Some(GenerationChanged)
    else if s.control.value.reserved != Some(m.releaseId) then Some(ReservationMismatch)
    else None
  }

  function AdmitTxn(s: Registry, m: Manifest, captured: nat): (Registry, Result<Pointer>) {
    var verdict := AdmissionVerdict(s, m, captured);
    if verdict.Some? then (s, Err(verdict.value))
    else if m.releaseId in s.manifests && s.manifests[m.releaseId] != m then (s, Err(ManifestCollision))
    else
      var reply := BuildPointer(s.beta, m, Promote, m.releaseId, None, None);
      if reply.Err? then (s, reply)
      else (s.(manifests := s.manifests[m.releaseId := m], beta := Some(reply.value)), reply)
  }

  // ----- break-glass -----

  datatype Audit = Audit(rollout: bool, current: ReleaseId, target: ReleaseId, resultingGeneration: nat)

  /** `emergency` is given for a rollout only; a rollback names a retained manifest. */
  datatype Incident = Incident(requestId: string, current: ReleaseId, target: ReleaseId, expectedGeneration: nat, emergency: Option<Manifest>)

  function TargetOf(s: Registry, q: Incident): Result<Manifest>
    requires s.beta.Some?
  {
    if q.emergency.None? then
      if q.target !in s.manifests then Err(ManifestMissing)
      else if s.manifests[q.target].evidence == Emergency then Err(EmergencyTarget)
      else Ok(s.manifests[q.target])
    else
      var m := q.emergency.value;
      if q.target in s.manifests && s.manifests[q.target] != m then Err(ManifestCollision)
      else if m.evidence != Emergency then Err(NotEmergency)
      else if m.build <= s.beta.value.build then Err(NotHigher)
      else Ok(m)
  }

  function BreakGlassTxn(s: Registry, q: Incident): (Registry, Result<Pointer>) {
    if q.emergency.Some? && q.emergency.value.releaseId != q.target then (s, Err(InvalidRequest))
    else if q.requestId in s.audits then (s, Err(RequestUsed))
    else if s.control.None? then (s, Err(Unavailable))
    else if s.beta.None? || s.beta.value.release != q.current then (s, Err(CurrentMismatch))
    else if s.beta.value.generation != q.expectedGeneration then (s, Err(PointerGenerationMismatch))
    else
      var target := TargetOf(s, q);
      if target.Err? then (s, Err(target.error))
      else
        var reply := BuildPointer(s.beta, target.value, BreakGlass, q.target, Some(q.expectedGeneration), Some(q.current));
        if reply.Err? then (s, reply)
        else
          (s.(audits := s.audits[q.requestId := Audit(q.emergency.Some?, q.current, q.target, reply.value.generation)],
              manifests := if q.emergency.Some? then s.manifests[q.target := target.value] else s.manifests,
              control := Some(s.control.value.(enabled := false, generation := s.control.value.generation + 1)),
              beta := Some(reply.value)),
           reply)
  }

  // ----- arbitrary interleavings -----

  datatype Op =
    | OpReserve(tag: ReleaseId)
    | OpSetEnabled(enabled: bool)
    | OpRegister(manifest: Manifest)
    | OpPromote(release: ReleaseId, repoint: bool, expectedGeneration: Option<nat>, expectedCurrent: Option<ReleaseId>)
    | OpAdmit(manifest: Manifest, captured: nat)
    | OpBreakGlass(incident: Incident)

  function Step(s: Registry, op: Op): Registry {
    match op
    case OpReserve(tag) => ReserveTxn(s, tag).0
    case OpSetEnabled(enabled) => SetEnabledTxn(s, enabled).0
    case OpRegister(m) => RegisterTxn(s, m).0
    case OpPromote(release, repoint, generation, current) => PromoteTxn(s, release, repoint, generation, current).0
    case OpAdmit(m, captured) => AdmitTxn(s, m, captured).0
    case OpBreakGlass(q) => BreakGlassTxn(s, q).0
  }

  ghost function After(s: Registry, ops: seq<Op>): Registry
    decreases |ops|
  {
    if ops == [] then s else After(Step(s, ops[0]), ops[1..])
  }

  const EMPTY := Registry(None, None, None, map[], map[])
}
