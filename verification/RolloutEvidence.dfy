/** What a rollout manifest has to show, as typed records that hold every fact once. `Render*` writes the
    smallest object that shows a record, naming a shared fact in every place the manifest repeats it;
    `Read*` picks the record out of any object; `*Holds` is the condition on the record alone. */
module RolloutEvidence {
  import opened Options
  import opened PyText
  import opened Rollout
  import N = ManifestNames

  // ---- documents that say at least as much ----

  /** b is a with members added to its objects, at any depth. */
  ghost predicate Extends(a: Doc, b: Doc) {
    match a
    case Obj(f) => b.Obj? && forall n :: n in f ==> n in b.fields && Extends(f[n], b.fields[n])
    case Arr(xs) => b.Arr? && |b.items| == |xs| && forall i :: 0 <= i < |xs| ==> Extends(xs[i], b.items[i])
    case _ => a == b
  }

  ghost predicate Within(f: Object, o: Object) {
    Extends(Obj(f), Obj(o))
  }

  lemma {:induction false} ExtendsItself(d: Doc)
    ensures Extends(d, d)
  {
    match d
    case Obj(f) =>
      forall n | n in f ensures Extends(f[n], f[n]) { ExtendsItself(f[n]); }
    case Arr(xs) =>
      forall i | 0 <= i < |xs| ensures Extends(xs[i], xs[i]) { ExtendsItself(xs[i]); }
    case _ =>
  }

  lemma {:induction false} ExtendsFurther(a: Doc, b: Doc, c: Doc)
    requires Extends(a, b) && Extends(b, c)
    ensures Extends(a, c)
  {
    match a
    case Obj(f) =>
      forall n | n in f ensures n in c.fields && Extends(f[n], c.fields[n]) {
        ExtendsFurther(f[n], b.fields[n], c.fields[n]);
      }
    case Arr(xs) =>
      forall i | 0 <= i < |xs| ensures Extends(xs[i], c.items[i]) {
        ExtendsFurther(xs[i], b.items[i], c.items[i]);
      }
    case _ =>
  }

  // ---- the records ----

  datatype Sealed = Sealed(uri: string, versionId: string, sha256: string, until: string)

  datatype Restore = Restore(target: string, restoredAt: string)

  datatype Readings = Readings(
    duration: real, interval: real, checks: real,
    requests: real, unexpected: real, rate: real,
    samples: real, p95: real, baseline: real)

  datatype PlatformImage = PlatformImage(platform: string, digest: string)

  datatype Release = Release(commit: string, digest: string, platforms: seq<PlatformImage>, version: string, sbom: string)

  datatype Logical = Logical(backup: Sealed, restore: Restore, volume: string, database: string)

  datatype Snapshot = Snapshot(restore: Restore, provider: string, id: string, until: string)

  datatype Secrets = Secrets(store: Sealed, keys: seq<string>)

  datatype Recovery = Recovery(logical: Logical, snapshot: Snapshot, secrets: Secrets)

  datatype Monitor = Monitor(provider: string, deliveredAt: string, deliveryId: string)

  datatype Cutover = Pending | Done(snapshotId: string, digest: string, keys: seq<Doc>)

  datatype Evidence = Evidence(
    schema: Doc, rolloutId: string, generatedAt: string,
    release: Release, recovery: Recovery, monitor: Monitor,
    restored: Readings, synthetic: Readings, production: Readings,
    migration: string, cutover: Cutover)

  // ---- conditions on the records ----

  // These say what the validator's tests mean, each in its own words; their postconditions tie them to
  // those tests.

  const HEX := "0123456789abcdef"

  predicate HexDigit(c: char) {
    c in HEX
  }

  predicate HexDigits(s: string) {
    forall c :: c in s ==> HexDigit(c)
  }

  lemma HexDigitExact(c: char)
    ensures HexDigit(c) <==> '0' <= c <= '9' || 'a' <= c <= 'f'
  {
    assert HEX[0] == '0' && HEX[1] == '1' && HEX[2] == '2' && HEX[3] == '3' && HEX[4] == '4' && HEX[5] == '5';
    assert HEX[6] == '6' && HEX[7] == '7' && HEX[8] == '8' && HEX[9] == '9' && HEX[10] == 'a' && HEX[11] == 'b';
    assert HEX[12] == 'c' && HEX[13] == 'd' && HEX[14] == 'e' && HEX[15] == 'f' && |HEX| == 16;
  }

  lemma HexExact(s: string)
    ensures HexDigits(s) <==> AllHex(s)
  {
    forall c ensures HexDigit(c) <==> '0' <= c <= '9' || 'a' <= c <= 'f' {
      HexDigitExact(c);
    }
  }

  /** sha256: and 64 lower-case hexadecimal digits. */
  predicate IsSha(s: string): (b: bool)
    ensures b <==> IsDigest(s)
  {
    |s| == 71 && s[..7] == "sha256:" && (HexExact(s[7..]); HexDigits(s[7..]))
  }

  /** 40 lower-case hexadecimal digits. */
  predicate IsRevision(s: string): (b: bool)
    ensures b <==> IsCommit(s)
  {
    HexExact(s);
    |s| == 40 && HexDigits(s)
  }

  lemma NonBlankExact(s: string)
    ensures (exists c :: c in s && !IsSpace(c)) <==> Strip(s) != ""
  {
    StripTrims(s);
    TrimLeftEnds(s);
    TrimRightEnds(TrimLeft(s));
    if Strip(s) != "" {
      assert Strip(s)[0] in TrimLeft(s) && Strip(s)[0] in s;
    }
  }

  /** Some character is not white space. */
  ghost predicate IsText(s: string): (b: bool)
    ensures b <==> Strip(s) != ""
  {
    NonBlankExact(s);
    exists c :: c in s && !IsSpace(c)
  }

  /** The instant that a text ending in Z denotes. */
  function Instant(env: Env, s: string): (t: Option<int>)
    ensures t == TimeOf(env, s)
  {
    if |s| > 0 && s[|s| - 1] == 'Z' then env.parse(s[..|s| - 1]) else None
  }

  /** Equal to 1 in Python. */
  predicate IsOne(d: Doc): (b: bool)
    ensures b <==> EqualsOne(d)
  {
    d == Num(1.0) || d == Bool(true)
  }

  ghost predicate IsTime(env: Env, s: string) {
    IsText(s) && Instant(env, s).Some?
  }

  ghost predicate SealedHolds(env: Env, s: Sealed, k: int) {
    && IsText(s.uri) && 5 <= |s.uri| && s.uri[..5] == "s3://" && IsText(s.versionId) && IsSha(s.sha256)
    && IsTime(env, s.until) && Instant(env, s.until).value > env.now(k)
  }

  ghost predicate RestoreHolds(env: Env, r: Restore) {
    IsText(r.target) && IsTime(env, r.restoredAt)
  }

  /** k readiness intervals fit into the observation window. */
  predicate Fits(k: int, r: Readings) {
    k as real * r.interval <= r.duration * 60.0
  }

  /** Every count of intervals that fits into the window was checked. */
  ghost predicate Covered(r: Readings) {
    forall k: int :: Fits(k, r) ==> k as real <= r.checks
  }

  ghost predicate TrafficHolds(r: Readings) {
    && r.requests >= 0.0 && r.unexpected >= 0.0 && 0.0 <= r.rate <= 1.0
    && (r.requests < 100.0 ==> r.unexpected == 0.0)
    && (r.requests >= 100.0 ==> r.rate < 0.01)
  }

  ghost predicate LatencyHolds(r: Readings) {
    && r.samples >= 0.0 && r.p95 >= 0.0 && r.baseline >= 0.0
    && (r.samples >= 100.0 ==> r.baseline > 0.0 && r.p95 <= r.baseline * 1.2)
  }

  ghost predicate ReadingsHold(r: Readings, minimum: real) {
    && r.duration >= minimum && 0.0 < r.interval <= 30.0 && Covered(r)
    && TrafficHolds(r) && LatencyHolds(r)
  }

  ghost predicate PlatformHolds(p: PlatformImage) {
    IsText(p.platform) && IsSha(p.digest)
  }

  ghost predicate PlatformsHold(ps: seq<PlatformImage>) {
    ps != [] && forall i :: 0 <= i < |ps| ==> PlatformHolds(ps[i])
  }

  ghost predicate ContentsHold(r: Release) {
    PlatformsHold(r.platforms) && IsText(r.version) && IsSha(r.sbom)
  }

  ghost predicate ReleaseHolds(r: Release) {
    IsRevision(r.commit) && IsSha(r.digest) && ContentsHold(r)
  }

  ghost predicate LogicalHolds(env: Env, l: Logical) {
    SealedHolds(env, l.backup, 0) && RestoreHolds(env, l.restore) && IsText(l.volume) && IsText(l.database)
  }

  ghost predicate SnapshotHolds(env: Env, s: Snapshot) {
    && RestoreHolds(env, s.restore) && IsText(s.provider) && IsText(s.id)
    && IsTime(env, s.until) && Instant(env, s.until).value > env.now(1)
  }

  ghost predicate KeysHold(keys: seq<string>) {
    && |keys| >= 3 && "" !in keys
    && forall i, j :: 0 <= i < j < |keys| ==> keys[i] != keys[j]
  }

  ghost predicate SecretsHold(env: Env, s: Secrets) {
    SealedHolds(env, s.store, 2) && KeysHold(s.keys)
  }

  ghost predicate PartsHold(env: Env, r: Recovery) {
    LogicalHolds(env, r.logical) && SnapshotHolds(env, r.snapshot) && SecretsHold(env, r.secrets)
  }

  /** Independent restores and locations; the snapshot outlives the backup. */
  ghost predicate Independent(env: Env, r: Recovery)
    requires Instant(env, r.logical.backup.until).Some? && Instant(env, r.snapshot.until).Some?
  {
    && r.logical.restore.target != r.snapshot.restore.target
    && r.logical.backup.uri != r.secrets.store.uri
    && Instant(env, r.logical.backup.until).value <= Instant(env, r.snapshot.until).value
  }

  ghost predicate RecoveryHolds(env: Env, r: Recovery) {
    PartsHold(env, r) && Independent(env, r)
  }

  ghost predicate MonitorHolds(env: Env, m: Monitor) {
    IsText(m.provider) && IsTime(env, m.deliveredAt) && IsText(m.deliveryId)
  }

  ghost predicate CutoverHolds(c: Cutover) {
    c.Done? ==> IsText(c.snapshotId) && IsSha(c.digest) && c.keys != []
  }

  ghost predicate EvidenceHolds(env: Env, e: Evidence) {
    && IsOne(e.schema) && IsText(e.rolloutId) && IsTime(env, e.generatedAt)
    && ReleaseHolds(e.release) && RecoveryHolds(env, e.recovery) && MonitorHolds(env, e.monitor)
    && ReadingsHold(e.restored, 30.0) && ReadingsHold(e.synthetic, 30.0) && ReadingsHold(e.production, 60.0)
    && IsText(e.migration) && CutoverHolds(e.cutover)
  }

  // ---- writing a record ----

  const CANONICAL_REPOSITORY := "immortal-autumn/ExAPI"
  const CANONICAL_WORKFLOW := ".github/workflows/release.yml"
  const CANONICAL_ISSUER := "https://token.actions.githubusercontent.com"
  const LABEL_SOURCE := "https://github.com/immortal-autumn/ExAPI"
  const IMAGE_PREFIX := "ghcr.io/immortal-autumn/sub2api2personal@"

  lemma ImagePrefix()
    ensures IMAGE_PREFIX == IMAGE_REPOSITORY + "@"
  {
  }

  lemma LabelSource()
    ensures LABEL_SOURCE == "https://github.com/" + REPOSITORY
  {
  }

  const TRUE := Bool(true)
  const ZERO := Num(0.0)

  function RenderSealed(s: Sealed): Object {
    map[N.ObjectUri := Str(s.uri), N.VersionId := Str(s.versionId), N.Sha256 := Str(s.sha256),
        N.Encrypted := TRUE, N.RetentionUntil := Str(s.until)]
  }

  function RenderRestore(r: Restore): Object {
    map[N.DisposableTarget := Str(r.target), N.RestoredAt := Str(r.restoredAt), N.Verified := TRUE]
  }

  function RenderWindow(r: Readings): Object {
    map[N.DurationMinutes := Num(r.duration), N.ReadinessIntervalSeconds := Num(r.interval),
        N.ReadinessChecks := Num(r.checks)]
  }

  const CLEAN: Object := map[N.ReadinessFailures := ZERO, N.Restarts := ZERO, N.NewP0P1 := ZERO]

  function RenderTraffic(r: Readings): Object {
    map[N.RequestCount := Num(r.requests), N.Unexpected5xx := Num(r.unexpected), N.ErrorRate := Num(r.rate)]
  }

  function RenderLatency(r: Readings): Object {
    map[N.LatencySampleCount := Num(r.samples), N.P95Ms := Num(r.p95), N.BaselineP95Ms := Num(r.baseline)]
  }

  function RenderHealth(r: Readings): Object {
    RenderWindow(r) + CLEAN
  }

  function RenderLoad(r: Readings): Object {
    RenderTraffic(r) + RenderLatency(r)
  }

  function RenderReadings(r: Readings): Object {
    RenderHealth(r) + RenderLoad(r)
  }

  function RenderSource(commit: string): Object {
    map[N.Commit := Str(commit), N.Repository := Str(CANONICAL_REPOSITORY), N.Workflow := Str(CANONICAL_WORKFLOW)]
  }

  function RenderPlatform(p: PlatformImage): Doc {
    Obj(map[N.Platform := Str(p.platform), N.Digest := Str(p.digest)])
  }

  function RenderPlatforms(ps: seq<PlatformImage>): Doc {
    Arr(seq(|ps|, i requires 0 <= i < |ps| => RenderPlatform(ps[i])))
  }

  function RenderLabels(r: Release): Object {
    map[N.Revision := Str(r.commit), N.Source := Str(LABEL_SOURCE), N.Version := Str(r.version)]
  }

  function RenderSbom(sha256: string): Object {
    map[N.Format := Str("SPDX-JSON"), N.Sha256 := Str(sha256)]
  }

  function RenderProvenance(digest: string): Object {
    map[N.Verified := TRUE, N.Issuer := Str(CANONICAL_ISSUER), N.Repository := Str(CANONICAL_REPOSITORY),
        N.Workflow := Str(CANONICAL_WORKFLOW), N.SubjectDigest := Str(digest)]
  }

  function ImageOf(digest: string): (image: string)
    ensures image == IMAGE_REPOSITORY + "@" + digest
  {
    ImagePrefix();
    IMAGE_PREFIX + digest
  }

  function RenderImage(digest: string): Object {
    map[N.Image := Str(ImageOf(digest)), N.ManifestDigest := Str(digest)]
  }

  function RenderContents(r: Release): Object {
    map[N.PlatformDigests := RenderPlatforms(r.platforms), N.OciLabels := Obj(RenderLabels(r)),
        N.Sbom := Obj(RenderSbom(r.sbom)), N.Provenance := Obj(RenderProvenance(r.digest))]
  }

  function RenderArtifact(r: Release): Object {
    RenderImage(r.digest) + RenderContents(r)
  }

  function RenderRestoredBackup(l: Logical): Object {
    map[N.Backup := Obj(RenderSealed(l.backup)), N.NetworkMode := Str("none"),
        N.BackupSha256 := Str(l.backup.sha256), N.Volume := Str(l.volume), N.Database := Str(l.database)]
  }

  function RenderLogical(l: Logical): Object {
    RenderRestore(l.restore) + RenderRestoredBackup(l)
  }

  const PROOFS: Object := map[N.EgressDenied := TRUE, N.IntegrityVerified := TRUE, N.DecryptionVerified := TRUE]

  function RenderRetained(s: Snapshot): Object {
    map[N.Provider := Str(s.provider), N.SnapshotId := Str(s.id), N.RetentionUntil := Str(s.until),
        N.WriterQuiesced := TRUE, N.CheckpointCompleted := TRUE]
  }

  function RenderSnapshot(s: Snapshot): Object {
    RenderRestore(s.restore) + RenderRetained(s) + PROOFS
  }

  function RenderKeys(keys: seq<string>): Doc {
    Arr(seq(|keys|, i requires 0 <= i < |keys| => Str(keys[i])))
  }

  function RenderSecrets(s: Secrets): Object {
    RenderSealed(s.store) + map[N.KeyIds := RenderKeys(s.keys)]
  }

  function RenderRecovery(r: Recovery): Object {
    map[N.Logical := Obj(RenderLogical(r.logical)), N.Snapshot := Obj(RenderSnapshot(r.snapshot)),
        N.Secrets := Obj(RenderSecrets(r.secrets)), N.IndependentRestorePaths := TRUE]
  }

  const SECURITY: Object :=
    map[N.PrivateLiveRestoreDisabled := TRUE, N.NoNewPrivileges := TRUE, N.ImmutableRuntimeImages := TRUE]

  function RenderAlert(m: Monitor): Object {
    map[N.Delivered := TRUE, N.DeliveredAt := Str(m.deliveredAt), N.DeliveryId := Str(m.deliveryId)]
  }

  function RenderMonitor(m: Monitor): Object {
    map[N.ExternalReadinessConfigured := TRUE, N.Provider := Str(m.provider), N.AlertProbe := Obj(RenderAlert(m))]
  }

  function RenderRestoredSource(l: Logical): Object {
    map[N.LogicalRestoreTarget := Str(l.restore.target), N.PostgresVolume := Str(l.volume),
        N.Database := Str(l.database), N.BackupSha256 := Str(l.backup.sha256)]
  }

  function RenderRestoredUse(digest: string, l: Logical): Object {
    map[N.ProductionData := TRUE, N.ImageDigest := Str(digest), N.Source := Obj(RenderRestoredSource(l))]
  }

  function RenderRestored(r: Readings, digest: string, l: Logical): Object {
    RenderReadings(r) + (PROOFS + RenderRestoredUse(digest, l))
  }

  function RenderSyntheticUse(digest: string): Object {
    map[N.ProductionData := Bool(false), N.CanaryOnlyCredentials := TRUE, N.EgressAllowlistVerified := TRUE,
        N.ProviderSmokeVerified := TRUE, N.ImageDigest := Str(digest)]
  }

  function RenderSynthetic(r: Readings, digest: string): Object {
    RenderReadings(r) + RenderSyntheticUse(digest)
  }

  function RenderProduction(r: Readings, digest: string): Object {
    RenderReadings(r) + map[N.ImageDigest := Str(digest)]
  }

  function RenderCanaries(e: Evidence): Object {
    map[N.RestoredData := Obj(RenderRestored(e.restored, e.release.digest, e.recovery.logical)),
        N.SyntheticProvider := Obj(RenderSynthetic(e.synthetic, e.release.digest))]
  }

  function RenderMigration(version: string, c: Cutover): Object {
    map[N.Version := Str(version), N.CiphertextOnlyCutover := Bool(c.Done?)]
  }

  function RenderRollback(c: Cutover): Object {
    match c
    case Pending => map[N.Mode := Str("compatible-image-or-snapshot")]
    case Done(id, digest, keys) =>
      map[N.Mode := Str("snapshot-and-keyroots"), N.SnapshotId := Str(id),
          N.PreviousImageDigest := Str(digest), N.PreviousKeyIds := Arr(keys)]
  }

  function RenderHeader(schema: Doc, rolloutId: string, generatedAt: string): Object {
    map[N.SchemaVersion := schema, N.RolloutId := Str(rolloutId), N.GeneratedAt := Str(generatedAt)]
  }

  function RenderBuild(e: Evidence): Object {
    map[N.Source := Obj(RenderSource(e.release.commit)), N.Artifact := Obj(RenderArtifact(e.release)),
        N.Recovery := Obj(RenderRecovery(e.recovery)),
        N.Security := Obj(SECURITY), N.Monitoring := Obj(RenderMonitor(e.monitor))]
  }

  function RenderDeployment(e: Evidence): Object {
    map[N.Canaries := Obj(RenderCanaries(e)), N.Production := Obj(RenderProduction(e.production, e.release.digest)),
        N.Migration := Obj(RenderMigration(e.migration, e.cutover)), N.Rollback := Obj(RenderRollback(e.cutover))]
  }

  function RenderRoot(e: Evidence): Object {
    RenderHeader(e.schema, e.rolloutId, e.generatedAt) + (RenderBuild(e) + RenderDeployment(e))
  }

  // ---- reading a record ----

  function Child(o: Object, n: N.Name): Object {
    var child := ObjectAt(o, n);
    if child.Some? then child.value else map[]
  }

  function Text(o: Object, n: N.Name): string {
    var value := TextAt(o, n);
    if value.Some? then value.value else ""
  }

  function Number(o: Object, n: N.Name): real {
    var value := NumberAt(o, n);
    if value.Some? then value.value else 0.0
  }

  function Items(o: Object, n: N.Name): seq<Doc> {
    if n in o && o[n].Arr? then o[n].items else []
  }

  function ReadSealed(o: Object): Sealed {
    Sealed(Text(o, N.ObjectUri), Text(o, N.VersionId), Text(o, N.Sha256), Text(o, N.RetentionUntil))
  }

  function ReadRestore(o: Object): Restore {
    Restore(Text(o, N.DisposableTarget), Text(o, N.RestoredAt))
  }

  function ReadReadings(o: Object): Readings {
    Readings(
      Number(o, N.DurationMinutes), Number(o, N.ReadinessIntervalSeconds), Number(o, N.ReadinessChecks),
      Number(o, N.RequestCount), Number(o, N.Unexpected5xx), Number(o, N.ErrorRate),
      Number(o, N.LatencySampleCount), Number(o, N.P95Ms), Number(o, N.BaselineP95Ms))
  }

  function ReadPlatform(d: Doc): PlatformImage {
    if d.Obj? then PlatformImage(Text(d.fields, N.Platform), Text(d.fields, N.Digest)) else PlatformImage("", "")
  }

  function ReadPlatforms(o: Object): seq<PlatformImage> {
    var items := Items(o, N.PlatformDigests);
    seq(|items|, i requires 0 <= i < |items| => ReadPlatform(items[i]))
  }

  function ReadRelease(artifact: Object, commit: string): Release {
    Release(commit, Text(artifact, N.ManifestDigest), ReadPlatforms(artifact),
            Text(Child(artifact, N.OciLabels), N.Version), Text(Child(artifact, N.Sbom), N.Sha256))
  }

  function ReadLogical(o: Object): Logical {
    Logical(ReadSealed(Child(o, N.Backup)), ReadRestore(o), Text(o, N.Volume), Text(o, N.Database))
  }

  function ReadSnapshot(o: Object): Snapshot {
    Snapshot(ReadRestore(o), Text(o, N.Provider), Text(o, N.SnapshotId), Text(o, N.RetentionUntil))
  }

  function ReadKeys(o: Object): seq<string> {
    var items := Items(o, N.KeyIds);
    seq(|items|, i requires 0 <= i < |items| => if items[i].Str? then items[i].s else "")
  }

  function ReadSecrets(o: Object): Secrets {
    Secrets(ReadSealed(o), ReadKeys(o))
  }

  function ReadRecovery(o: Object): Recovery {
    Recovery(ReadLogical(Child(o, N.Logical)), ReadSnapshot(Child(o, N.Snapshot)), ReadSecrets(Child(o, N.Secrets)))
  }

  function ReadMonitor(o: Object): Monitor {
    var alert := Child(o, N.AlertProbe);
    Monitor(Text(o, N.Provider), Text(alert, N.DeliveredAt), Text(alert, N.DeliveryId))
  }

  function ReadCutover(migration: Object, rollback: Object): Cutover {
    if IsTrue(migration, N.CiphertextOnlyCutover)
    then Done(Text(rollback, N.SnapshotId), Text(rollback, N.PreviousImageDigest), Items(rollback, N.PreviousKeyIds))
    else Pending
  }

  function ReadRoot(root: Object): Evidence {
    var canaries := Child(root, N.Canaries);
    Evidence(
      if N.SchemaVersion in root then root[N.SchemaVersion] else Null, Text(root, N.RolloutId), Text(root, N.GeneratedAt),
      ReadRelease(Child(root, N.Artifact), Text(Child(root, N.Source), N.Commit)),
      ReadRecovery(Child(root, N.Recovery)), ReadMonitor(Child(root, N.Monitoring)),
      ReadReadings(Child(canaries, N.RestoredData)), ReadReadings(Child(canaries, N.SyntheticProvider)),
      ReadReadings(Child(root, N.Production)),
      Text(Child(root, N.Migration), N.Version), ReadCutover(Child(root, N.Migration), Child(root, N.Rollback)))
  }
}
