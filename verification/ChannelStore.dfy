/** The channel documents as the backend runs them: every method refines the transaction of the same name over values. */
module ChannelStore {
  import opened Wrappers
  import opened ChannelTransactions
  import opened ChannelRuns

  class Documents {
    var control: Option<Control>
    var stable: Option<Pointer>
    var beta: Option<Pointer>
    var manifests: map<ReleaseId, Manifest>
    var audits: map<string, Audit>

    ghost function State(): Registry
      reads this
    {
      Registry(control, stable, beta, manifests, audits)
    }

    ghost predicate Valid()
      reads this
    {
      Inv(State())
    }

    constructor ()
      ensures Valid() && State() == EMPTY
    {
      control, stable, beta, manifests, audits := None, None, None, map[], map[];
    }

    method ReserveBetaCandidate(tag: ReleaseId) returns (reply: Result<Control>)
      requires Valid()
      modifies this`control
      ensures Valid() && (State(), reply) == ReserveTxn(old(State()), tag)
    {
      StepKeepsInv(State(), OpReserve(tag));
      if !CanonicalTag(tag) { return Err(InvalidTag); }
      if control.None? {
        control := Some(Control(false, Some(tag), 1));
        return Ok(control.value);
      }
      var current := control.value;
      if current.reserved == Some(tag) { return Ok(current); }
      if current.reserved.Some? {
        var held := current.reserved.value;
        if tag.tagBuild <= held.tagBuild || Less(tag.tagVersion, held.tagVersion) { return Err(MustRollForward); }
      }
      control := Some(current.(reserved := Some(tag), generation := current.generation + 1));
      return Ok(control.value);
    }

    method SetBetaAdmissionEnabled(enabled: bool) returns (reply: Result<Control>)
      requires Valid()
      modifies this`control
      ensures Valid() && (State(), reply) == SetEnabledTxn(old(State()), enabled)
    {
      StepKeepsInv(State(), OpSetEnabled(enabled));
      if control.None? {
        if enabled { return Err(NoReservation); }
        control := Some(Control(false, None, 1));
        return Ok(control.value);
      }
      var current := control.value;
      if current.enabled == enabled { return Ok(current); }
      if enabled && current.reserved.None? { return Err(NoReservation); }
      control := Some(current.(enabled := enabled, generation := current.generation + 1));
      return Ok(control.value);
    }

    method CaptureBetaAdmission(tag: ReleaseId) returns (reply: Result<Control>)
      ensures reply == Capture(State(), tag)
    {
      if !CanonicalTag(tag) { return Err(InvalidTag); }
      if control.None? { return Err(Unavailable); }
      if !control.value.enabled { return Err(Disabled); }
      if control.value.reserved != Some(tag) { return Err(ReservationMismatch); }
      return Ok(control.value);
    }

    method RegisterReleaseManifest(m: Manifest) returns (reply: Result<Manifest>)
      requires Valid()
      modifies this`manifests
      ensures Valid() && (State(), reply) == RegisterTxn(old(State()), m)
    {
      StepKeepsInv(State(), OpRegister(m));
      if m.releaseId in manifests {
        if manifests[m.releaseId] != m { return Err(ManifestCollision); }
        return Ok(manifests[m.releaseId]);
      }
      manifests := manifests[m.releaseId := m];
      return Ok(m);
    }

    method PromoteStable(release: ReleaseId, repoint: bool, expectedGeneration: Option<nat>, expectedCurrent: Option<ReleaseId>)
      returns (reply: Result<Pointer>)
      requires Valid()
      modifies this`stable
      ensures Valid() && (State(), reply) == PromoteTxn(old(State()), release, repoint, expectedGeneration, expectedCurrent)
    {
      StepKeepsInv(State(), OpPromote(release, repoint, expectedGeneration, expectedCurrent));
      if repoint && (expectedCurrent.None? || expectedGeneration.None?) { return Err(InvalidRequest); }
      if release !in manifests { return Err(ManifestMissing); }
      reply := BuildPointer(stable, manifests[release], if repoint then Repoint else Promote, release, expectedGeneration, expectedCurrent);
      if reply.Ok? && stable != Some(reply.value) {
        stable := Some(reply.value);
      }
    }

    method AdmitQualifiedBeta(m: Manifest, captured: nat) returns (reply: Result<Pointer>)
      requires Valid()
      modifies this`manifests, this`beta
      ensures Valid() && (State(), reply) == AdmitTxn(old(State()), m, captured)
    {
      StepKeepsInv(State(), OpAdmit(m, captured));
      if control.None? { return Err(Unavailable); }
      if !CanonicalTag(m.releaseId) { return Err(InvalidTag); }
      if !control.value.enabled { return Err(Disabled); }
      if control.value.generation != captured { return Err(GenerationChanged); }
      if control.value.reserved != Some(m.releaseId) { return Err(ReservationMismatch); }
      var retained := m.releaseId in manifests;
      if retained && manifests[m.releaseId] != m { return Err(ManifestCollision); }
      reply := BuildPointer(beta, m, Promote, m.releaseId, None, None);
      if reply.Err? { return; }
      if retained {
        assert manifests[m.releaseId := m] == manifests;
      } else {
        manifests := manifests[m.releaseId := m];
      }
      if beta != Some(reply.value) { beta := Some(reply.value); }
    }

    method BreakGlass(q: Incident) returns (reply: Result<Pointer>)
      requires Valid()
      modifies this`audits, this`manifests, this`control, this`beta
      ensures Valid() && (State(), reply) == BreakGlassTxn(old(State()), q)
    {
      StepKeepsInv(State(), OpBreakGlass(q));
      if q.emergency.Some? && q.emergency.value.releaseId != q.target { return Err(InvalidRequest); }
      if q.requestId in audits { return Err(RequestUsed); }
      if control.None? { return Err(Unavailable); }
      if beta.None? || beta.value.release != q.current { return Err(CurrentMismatch); }
      if beta.value.generation != q.expectedGeneration { return Err(PointerGenerationMismatch); }
      var target;
      if q.emergency.None? {
        if q.target !in manifests { return Err(ManifestMissing); }
        target := manifests[q.target];
        if target.evidence == Emergency { return Err(EmergencyTarget); }
      } else {
        target := q.emergency.value;
        if q.target in manifests && manifests[q.target] != target { return Err(ManifestCollision); }
        if target.evidence != Emergency { return Err(NotEmergency); }
        if target.build <= beta.value.build { return Err(NotHigher); }
      }
      reply := BuildPointer(beta, target, ChannelTransactions.BreakGlass, q.target, Some(q.expectedGeneration), Some(q.current));
      if reply.Err? { return; }
      audits := audits[q.requestId := Audit(q.emergency.Some?, q.current, q.target, reply.value.generation)];
      if q.emergency.Some? {
        if q.target in manifests {
          assert manifests[q.target := target] == manifests;
        } else {
          manifests := manifests[q.target := target];
        }
      }
      control := Some(control.value.(enabled := false, generation := control.value.generation + 1));
      beta := Some(reply.value);
    }
  }
}
