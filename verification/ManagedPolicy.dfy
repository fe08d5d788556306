/** The managed-policy cache: when the session gate refuses, and when the cache must be fetched
    again. Both read the same evidence on disk. */
module ManagedPolicy {
  import opened Wrappers

  /** What occupies a path: nothing, a readable file, a regular file that cannot be read, or
      something else, which `exists` sees unless it is a dangling link. */
  datatype Slot = Missing | File(contents: string) | Blocked | Squat(exists': bool)

  predicate Exists(s: Slot) {
    match s
    case Missing => false
    case File(_) => true
    case Blocked => true
    case Squat(e) => e
  }

  datatype Payload = Payload(
    deploymentId: Option<string>,
    teamId: Option<string>,
    expiresAt: nat,
    failClosed: bool,
    managedConfig: Option<string>,
    requirements: Option<string>)

  datatype Marker = Marker(
    principal: Option<string>,
    hadManagedConfig: bool,
    hadRequirements: bool,
    keyFingerprint: Option<string>,
    failClosed: bool,
    syncedAt: Option<nat>)

  datatype Identity = Team(id: string) | DeploymentKey(fingerprint: string) | Nobody

  /** The cache on disk; `marker` is `None` when absent, unreadable or corrupt. */
  datatype Disk = Disk(managedConfig: Slot, requirements: Slot, sidecar: Slot, marker: Option<Marker>)

  /** Signature checking, taken as given: the payload a sidecar text authentically carries. With
      no compiled-in keys verification is inactive. */
  datatype Verifier = Verifier(active: bool, authentic: string -> Option<Payload>, parses: string -> bool)

  // ---------------------------------------------------------------- the signed cache

  datatype DiskStatus = Match | Mismatch | Unreadable

  function CheckSlot(slot: Slot, signed: Option<string>): DiskStatus {
    match slot
    case Squat(_) => Mismatch
    case Blocked => Unreadable
    case Missing => if signed.Some? && signed.value != "" then Mismatch else Match
    case File(s) =>
      if signed.Some? && signed.value != "" then (if s == signed.value then Match else Mismatch)
      else if s == "" then Match else Mismatch
  }

  function CheckOnDisk(d: Disk, p: Payload): DiskStatus {
    var first := CheckSlot(d.managedConfig, p.managedConfig);
    if first != Match then first else CheckSlot(d.requirements, p.requirements)
  }

  datatype Facts = Facts(identityOk: bool, expired: bool, failClosed: bool, disk: DiskStatus)

  datatype Evaluation = NoAuthenticSidecar | SidecarUnreadable | Known(facts: Facts)

  function EffectivePrincipal(p: Payload): Option<string> {
    if p.deploymentId.Some? then p.deploymentId else p.teamId
  }

  predicate PrincipalMatches(p: Payload, expected: Option<string>) {
    EffectivePrincipal(p).Some? && expected.Some? ==> EffectivePrincipal(p) == expected
  }

  function EvaluateSignedCache(v: Verifier, d: Disk, expected: Option<string>, now: nat): Evaluation {
    match d.sidecar
    case Squat(_) => NoAuthenticSidecar
    case Missing => NoAuthenticSidecar
    case Blocked => SidecarUnreadable
    case File(text) =>
      if !v.parses(text) || v.authentic(text).None? then NoAuthenticSidecar
      else
        var p := v.authentic(text).value;
        Known(Facts(PrincipalMatches(p, expected), now > p.expiresAt, p.failClosed, CheckOnDisk(d, p)))
  }

  predicate HasPolicy(d: Disk) {
    Exists(d.requirements) || Exists(d.managedConfig)
  }

  /** The refetch trigger: any deviation of a policy on disk from its signature. */
  predicate SignatureInvalid(v: Verifier, d: Disk, expected: Option<string>, now: nat) {
    && v.active
    && HasPolicy(d)
    && match EvaluateSignedCache(v, d, expected, now)
       case NoAuthenticSidecar => true
       case SidecarUnreadable => true
       case Known(f) => !f.identityOk || f.expired || f.disk != Match
  }

  datatype Verdict = Inactive | Unsigned | CannotRead | Trusted | Compromised

  function SignedVerdict(v: Verifier, d: Disk, expected: Option<string>, now: nat): Verdict {
    if !v.active then Inactive
    else
      match EvaluateSignedCache(v, d, expected, now)
      case NoAuthenticSidecar => Unsigned
      case SidecarUnreadable => CannotRead
      case Known(f) =>
        if !f.identityOk then Compromised
        else if !f.failClosed then Trusted
        else if f.expired || f.disk == Mismatch then Compromised
        else Trusted
  }

  // ---------------------------------------------------------------- the marker

  predicate ArtifactMissing(m: Marker, d: Disk) {
    (m.hadRequirements && !Exists(d.requirements)) || (m.hadManagedConfig && !Exists(d.managedConfig))
  }

  predicate IdentityMismatch(m: Marker, id: Identity) {
    id.Team? && m.principal != Some(id.id)
  }

  predicate KeyMismatch(m: Marker, id: Identity) {
    id.DeploymentKey? && m.keyFingerprint.Some? && m.keyFingerprint.value != id.fingerprint
  }

  predicate NeedsRefetch(m: Marker, d: Disk, id: Identity) {
    ArtifactMissing(m, d) || IdentityMismatch(m, id) || KeyMismatch(m, id)
  }

  predicate MarkerCompromised(m: Marker, d: Disk, id: Identity) {
    m.failClosed && (ArtifactMissing(m, d) || KeyMismatch(m, id))
  }

  function ExpectedPrincipal(d: Disk, id: Identity): Option<string> {
    if id.Team? then Some(id.id) else if d.marker.Some? then d.marker.value.principal else None
  }

  predicate HardStale(v: Verifier, d: Disk, id: Identity, now: nat) {
    || d.marker.None?
    || NeedsRefetch(d.marker.value, d, id)
    || SignatureInvalid(v, d, ExpectedPrincipal(d, id), now)
  }

  /** The background check: hard staleness or an elapsed timer. */
  predicate Stale(v: Verifier, d: Disk, id: Identity, now: nat, threshold: nat) {
    if d.marker.None? then true
    else if NeedsRefetch(d.marker.value, d, id) then true
    else if SignatureInvalid(v, d, ExpectedPrincipal(d, id), now) then true
    else
      var synced := d.marker.value.syncedAt;
      synced.None? || (synced.value <= now && now - synced.value > threshold)
  }

  /** One evaluation of the gate. */
  predicate Refuses(v: Verifier, d: Disk, id: Identity, now: nat) {
    var m := d.marker;
    match SignedVerdict(v, d, ExpectedPrincipal(d, id), now)
    case Compromised => true
    case Trusted => m.Some? && KeyMismatch(m.value, id) && MarkerCompromised(m.value, d, id)
    case Unsigned =>
      m.Some? &&
      ((m.value.failClosed && (m.value.hadManagedConfig || m.value.hadRequirements))
       || MarkerCompromised(m.value, d, id))
    case CannotRead => m.Some? && MarkerCompromised(m.value, d, id)
    case Inactive => m.Some? && MarkerCompromised(m.value, d, id)
  }

  // ---------------------------------------------------------------- the gate, read off the disk

  /** The sidecar is a readable file that authentically carries `p`. */
  ghost predicate Carries(v: Verifier, d: Disk, p: Payload) {
    d.sidecar.File? && v.parses(d.sidecar.contents) && v.authentic(d.sidecar.contents) == Some(p)
  }

  /** The marker was recorded with a deployment key other than the one configured. */
  ghost predicate OtherKey(m: Marker, id: Identity) {
    exists recorded, configured ::
      m.keyFingerprint == Some(recorded) && id == DeploymentKey(configured) && recorded != configured
  }

  /** Nothing is there, or only a dangling link. */
  predicate Vacant(s: Slot) {
    s == Missing || s == Squat(false)
  }

  /** A policy file that the marker recorded is gone. */
  predicate RecordedGone(m: Marker, d: Disk) {
    (m.hadRequirements && Vacant(d.requirements)) || (m.hadManagedConfig && Vacant(d.managedConfig))
  }

  /** The payload is bound to a principal, a deployment before a team, other than the one served: the
      live team, or else the one the marker recorded. */
  predicate ForeignBound(d: Disk, id: Identity, p: Payload) {
    var bound := if p.deploymentId.Some? then p.deploymentId else p.teamId;
    var served := match id case Team(t) => Some(t) case _ => if d.marker.Some? then d.marker.value.principal else None;
    bound.Some? && served.Some? && bound.value != served.value
  }

  /** A slot that holds something other than what was signed, an empty file counting as none. */
  predicate Wrong(s: Slot, signed: Option<string>) {
    match s
    case Squat(_) => true
    case Blocked => false
    case Missing => signed.Some? && signed.value != ""
    case File(text) => text != if signed.Some? then signed.value else ""
  }

  /** Without an authentic sidecar, a build with keys refuses exactly on an opted-in marker that
      recorded some policy file, whether it is there or not, or that belongs to another key. */
  lemma UnsignedIsRefusedIff(v: Verifier, d: Disk, id: Identity, now: nat)
    requires v.active && !d.sidecar.Blocked? && !exists p :: Carries(v, d, p)
    ensures Refuses(v, d, id, now) <==>
      exists m :: d.marker == Some(m) && m.failClosed && (m.hadManagedConfig || m.hadRequirements || OtherKey(m, id))
  {
    if d.sidecar.File? && v.authentic(d.sidecar.contents).Some? {
      assert !Carries(v, d, v.authentic(d.sidecar.contents).value);
    }
    assert SignedVerdict(v, d, ExpectedPrincipal(d, id), now) == Unsigned;
  }

  /** With an unreadable sidecar, or in a build without keys, the gate refuses exactly on an opted-in
      marker with a recorded policy file gone, or of another key. */
  lemma UnverifiedIsRefusedIff(v: Verifier, d: Disk, id: Identity, now: nat)
    requires !v.active || d.sidecar.Blocked?
    ensures Refuses(v, d, id, now) <==>
      exists m :: d.marker == Some(m) && m.failClosed && (RecordedGone(m, d) || OtherKey(m, id))
  {
  }

  /** With an authentic sidecar, a build with keys refuses exactly when the payload is bound to another
      principal, or opted in and has expired or a file is seen to be wrong, or the marker opted in for
      another key. `managed_config.toml` is read first, and the second file only if it can be read. */
  lemma SignedIsRefusedIff(v: Verifier, d: Disk, id: Identity, p: Payload, now: nat)
    requires v.active && Carries(v, d, p)
    ensures Refuses(v, d, id, now) <==>
      || ForeignBound(d, id, p)
      || (p.failClosed &&
           (|| now > p.expiresAt
            || Wrong(d.managedConfig, p.managedConfig)
            || (!d.managedConfig.Blocked? && Wrong(d.requirements, p.requirements))))
      || (exists m :: d.marker == Some(m) && m.failClosed && OtherKey(m, id))
  {
  }

  /** The policy on disk is vouched for: an authentic sidecar, bound to the principal served, in date,
      with both files readable and as signed. */
  ghost predicate Vouched(v: Verifier, d: Disk, id: Identity, now: nat) {
    exists p ::
      && Carries(v, d, p) && !ForeignBound(d, id, p) && now <= p.expiresAt
      && !d.managedConfig.Blocked? && !Wrong(d.managedConfig, p.managedConfig)
      && !d.requirements.Blocked? && !Wrong(d.requirements, p.requirements)
  }

  /** Session start asks for a refetch exactly when there is no marker, or it has lost a recorded file
      or belongs to another team or key, or, in a build with keys, a policy is not vouched for. */
  lemma HardStaleIff(v: Verifier, d: Disk, id: Identity, now: nat)
    ensures HardStale(v, d, id, now) <==>
      || d.marker == None
      || RecordedGone(d.marker.value, d)
      || (exists t :: id == Team(t) && d.marker.value.principal != Some(t))
      || OtherKey(d.marker.value, id)
      || (v.active && !(Vacant(d.managedConfig) && Vacant(d.requirements)) && !Vouched(v, d, id, now))
  {
    if d.sidecar.File? && v.parses(d.sidecar.contents) && v.authentic(d.sidecar.contents).Some? {
      var p := v.authentic(d.sidecar.contents).value;
      assert Carries(v, d, p);
      assert forall q :: Carries(v, d, q) ==> q == p;
      assert PrincipalMatches(p, ExpectedPrincipal(d, id)) <==> !ForeignBound(d, id, p);
    }
  }

  /** The background check asks for it then, and also when the marker records no sync or one longer ago
      than the threshold; a sync in the future is no reason. */
  lemma StaleIff(v: Verifier, d: Disk, id: Identity, now: nat, threshold: nat)
    ensures Stale(v, d, id, now, threshold) <==>
      || HardStale(v, d, id, now)
      || (exists m :: d.marker == Some(m) && (m.syncedAt == None || now > m.syncedAt.value + threshold))
  {
  }

  // ---------------------------------------------------------------- gate and trigger agree

  /** A refusal goes with hard staleness exactly when there is a policy on disk, no marker, a recorded
      artifact, or a marker of another identity or key. */
  lemma RefusalTriggersRefetchIff(v: Verifier, d: Disk, id: Identity, now: nat)
    requires Refuses(v, d, id, now)
    ensures HardStale(v, d, id, now) <==>
      || HasPolicy(d)
      || d.marker.None?
      || d.marker.value.hadManagedConfig || d.marker.value.hadRequirements
      || IdentityMismatch(d.marker.value, id) || KeyMismatch(d.marker.value, id)
  {
  }

  /** The one way to be refused and not hard-stale: an authentic sidecar that compromises an empty
      cache whose marker recorded nothing. Then only the background timer asks for a refetch. */
  lemma RefusedNotHardStale(v: Verifier, d: Disk, id: Identity, now: nat, threshold: nat)
    requires Refuses(v, d, id, now) && !HardStale(v, d, id, now)
    ensures SignedVerdict(v, d, ExpectedPrincipal(d, id), now) == Compromised && !HasPolicy(d)
    ensures d.marker.Some? && !d.marker.value.hadManagedConfig && !d.marker.value.hadRequirements
    ensures Stale(v, d, id, now, threshold) <==>
      d.marker.value.syncedAt.None?
      || (d.marker.value.syncedAt.value <= now && now - d.marker.value.syncedAt.value > threshold)
  {
  }

  /** Such a cache exists: an expired opt-in with nothing to enforce. It is refused at 1 and asked for
      again only at 1801, when a timer of 1800 is up. */
  lemma RefusedUntilTimer()
    ensures
      var p := Payload(None, Some("team"), 0, true, None, None);
      var v := Verifier(true, (s: string) => Some(p), (s: string) => true);
      var d := Disk(Missing, Missing, File("{}"), Some(Marker(Some("team"), false, false, None, true, Some(0))));
      && Refuses(v, d, Team("team"), 1) && !HardStale(v, d, Team("team"), 1) && !Stale(v, d, Team("team"), 1, 1800)
      && Refuses(v, d, Team("team"), 1801) && Stale(v, d, Team("team"), 1801, 1800)
  {
  }

  /** What hard staleness sees, the background check sees too. */
  lemma HardStaleIsStale(v: Verifier, d: Disk, id: Identity, now: nat, threshold: nat)
    ensures HardStale(v, d, id, now) ==> Stale(v, d, id, now, threshold)
  {
  }

  function SlotFor(served: Option<string>): Slot {
    if served.Some? && served.value != "" then File(served.value) else Missing
  }

  /** The disk right after an apply of payload `p` for `id`. */
  ghost predicate FaithfulSync(v: Verifier, d: Disk, id: Identity, p: Payload) {
    && d.managedConfig == SlotFor(p.managedConfig)
    && d.requirements == SlotFor(p.requirements)
    && d.sidecar.File? && v.parses(d.sidecar.contents) && v.authentic(d.sidecar.contents) == Some(p)
    && d.marker.Some?
    && d.marker.value.principal == EffectivePrincipal(p)
    && (d.marker.value.hadManagedConfig ==> d.managedConfig.File?)
    && (d.marker.value.hadRequirements ==> d.requirements.File?)
    && (id.Team? ==> EffectivePrincipal(p) == Some(id.id))
    && (id.DeploymentKey? ==> d.marker.value.keyFingerprint == Some(id.fingerprint))
  }

  /** A faithful sync neither refuses nor asks to be fetched again while it is in date, and asks
      to be fetched again once it has expired over a policy and keys are compiled in. */
  lemma FaithfulSyncIsQuiet(v: Verifier, d: Disk, id: Identity, p: Payload, now: nat)
    requires FaithfulSync(v, d, id, p)
    ensures now <= p.expiresAt ==> !Refuses(v, d, id, now) && !HardStale(v, d, id, now)
    ensures now > p.expiresAt ==> (HardStale(v, d, id, now) <==> v.active && HasPolicy(d))
    ensures now > p.expiresAt ==> (Refuses(v, d, id, now) <==> v.active && p.failClosed)
  {
  }

  /** What a policy file says; an empty file counts as none. */
  function Shown(s: Slot): string {
    if s.File? then s.contents else ""
  }

  /** The gate sees that the policy files are no longer those of `d`: it reads `managed_config.toml`
      first, and stops at the first file that is wrong or cannot be read. */
  predicate SeesEdit(d: Disk, d': Disk) {
    || d'.managedConfig.Squat?
    || (!d'.managedConfig.Blocked?
        && (|| Shown(d'.managedConfig) != Shown(d.managedConfig)
            || d'.requirements.Squat?
            || (!d'.requirements.Blocked? && Shown(d'.requirements) != Shown(d.requirements))))
  }

  lemma SeenEditsMismatch(v: Verifier, d: Disk, d': Disk, id: Identity, p: Payload)
    requires FaithfulSync(v, d, id, p)
    ensures CheckOnDisk(d', p) == Mismatch <==> SeesEdit(d, d')
  {
  }

  /** Whatever became of the policy files and the marker after a faithful sync, and whenever the
      gate looks: a build with keys refuses exactly when the marker names another principal than
      the signature, the payload opted in and has expired or the gate sees an edit, or the marker
      opted in for another key. */
  lemma EditsAreRefused(v: Verifier, d: Disk, d': Disk, id: Identity, p: Payload, now: nat)
    requires FaithfulSync(v, d, id, p) && v.active
    requires d'.sidecar == d.sidecar
    ensures Refuses(v, d', id, now) <==>
      || !PrincipalMatches(p, ExpectedPrincipal(d', id))
      || (p.failClosed && (now > p.expiresAt || SeesEdit(d, d')))
      || (d'.marker.Some? && d'.marker.value.failClosed && KeyMismatch(d'.marker.value, id))
  {
    SeenEditsMismatch(v, d, d', id, p);
  }

  /** With the marker kept and an opted-in payload still in date, what the gate sees is all. */
  lemma EditsAreRefusedInDate(v: Verifier, d: Disk, d': Disk, id: Identity, p: Payload, now: nat)
    requires FaithfulSync(v, d, id, p) && v.active && p.failClosed && now <= p.expiresAt
    requires d'.sidecar == d.sidecar && d'.marker == d.marker
    ensures Refuses(v, d', id, now) <==> SeesEdit(d, d')
  {
    EditsAreRefused(v, d, d', id, p, now);
  }

  /** The files are not as the sync left them: something else is in a slot, or cannot be read. */
  predicate Touched(d: Disk, d': Disk) {
    || d'.managedConfig.Squat? || d'.managedConfig.Blocked? || Shown(d'.managedConfig) != Shown(d.managedConfig)
    || d'.requirements.Squat? || d'.requirements.Blocked? || Shown(d'.requirements) != Shown(d.requirements)
  }

  /** An edit that an opted-in gate does not see hides behind an unreadable file, and then the cache
      is fetched again. */
  lemma HiddenEditsAreRefetched(v: Verifier, d: Disk, d': Disk, id: Identity, p: Payload, now: nat)
    requires FaithfulSync(v, d, id, p) && v.active && p.failClosed
    requires d'.sidecar == d.sidecar && Touched(d, d')
    requires !Refuses(v, d', id, now)
    ensures d'.managedConfig.Blocked? || d'.requirements.Blocked?
    ensures HardStale(v, d', id, now)
  {
    EditsAreRefused(v, d, d', id, p, now);
    SeenEditsMismatch(v, d, d', id, p);
  }

  /** Such an edit: with `managed_config.toml` unreadable, a changed `requirements.toml` passes. */
  lemma MaskedEditIsNotRefused()
    ensures
      var p := Payload(None, Some("t"), 10, true, Some("A"), Some("B"));
      var v := Verifier(true, (s: string) => Some(p), (s: string) => true);
      var m := Marker(Some("t"), true, true, None, true, Some(0));
      var d := Disk(File("A"), File("B"), File("{}"), Some(m));
      var d' := Disk(Blocked, File("C"), File("{}"), Some(m));
      && FaithfulSync(v, d, Team("t"), p)
      && Shown(d'.requirements) != Shown(d.requirements)
      && !Refuses(v, d', Team("t"), 1)
      && HardStale(v, d', Team("t"), 1)
  {
    assert "C"[0] != "B"[0];
  }
}
