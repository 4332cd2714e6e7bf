/** The member names of a rollout manifest. Every other name is Other. */
module ManifestNames {
  datatype Name =
    | SchemaVersion | RolloutId | GeneratedAt | Source | Commit | Repository | Workflow
    | Artifact | Image | ManifestDigest | PlatformDigests | Platform | Digest | OciLabels | Revision | Version
    | Sbom | Format | Sha256 | Provenance | Verified | Issuer | SubjectDigest
    | Recovery | Logical | Backup | ObjectUri | VersionId | Encrypted | RetentionUntil
    | DisposableTarget | RestoredAt | NetworkMode | BackupSha256 | Volume | Database
    | Snapshot | Provider | SnapshotId | WriterQuiesced | CheckpointCompleted
    | EgressDenied | IntegrityVerified | DecryptionVerified | Secrets | KeyIds | IndependentRestorePaths
    | Security | PrivateLiveRestoreDisabled | NoNewPrivileges | ImmutableRuntimeImages
    | Monitoring | ExternalReadinessConfigured | AlertProbe | Delivered | DeliveredAt | DeliveryId
    | Canaries | RestoredData | SyntheticProvider | Production
    | DurationMinutes | ReadinessIntervalSeconds | ReadinessChecks | ReadinessFailures | Restarts | NewP0P1
    | RequestCount | Unexpected5xx | ErrorRate | LatencySampleCount | P95Ms | BaselineP95Ms
    | ProductionData | ImageDigest | LogicalRestoreTarget | PostgresVolume
    | CanaryOnlyCredentials | EgressAllowlistVerified | ProviderSmokeVerified
    | Migration | CiphertextOnlyCutover | Rollback | Mode | PreviousImageDigest | PreviousKeyIds
    | Other(name: string)
}

/** The rollout manifest validator. Each function of the source that returns a value or raises
    becomes an optional value, each that only raises a predicate, with the checks in source order. */
module Rollout {
  import opened Options
  import opened PyText
  import N = ManifestNames

  /** Parsed JSON over finite numbers. */
  datatype Doc = Null | Bool(b: bool) | Num(n: real) | Str(s: string) | Arr(items: seq<Doc>) | Obj(fields: Object)

  type Object = map<N.Name, Doc>

  /** Timestamp parsing (the text before the Z, read as UTC), and the clock: `now(k)` is its k-th reading. */
  datatype Env = Env(parse: string -> Option<int>, now: int -> int)

  // ---- obj, field, text, true, number, timestamp, digest ----

  function ObjectAt(o: Object, n: N.Name): Option<Object> {
    if n in o && o[n].Obj? then Some(o[n].fields) else None
  }

  function TextAt(o: Object, n: N.Name): Option<string> {
    if n in o && o[n].Str? && Strip(o[n].s) != "" then Some(o[n].s) else None
  }

  predicate IsTrue(o: Object, n: N.Name) {
    n in o && o[n] == Bool(true)
  }

  function NumberAt(o: Object, n: N.Name): Option<real> {
    if n in o && o[n].Num? then Some(o[n].n) else None
  }

  function TimeOf(env: Env, raw: string): Option<int> {
    if raw != [] && raw[|raw| - 1] == 'Z' then env.parse(raw[..|raw| - 1]) else None
  }

  function TimeAt(env: Env, o: Object, n: N.Name): Option<int> {
    var raw := TextAt(o, n);
    if raw.Some? then TimeOf(env, raw.value) else None
  }

  predicate IsFuture(env: Env, o: Object, n: N.Name, k: int) {
    TimeAt(env, o, n).Some? && TimeAt(env, o, n).value > env.now(k)
  }

  predicate AllHex(s: string) {
    forall c :: c in s ==> '0' <= c <= '9' || 'a' <= c <= 'f'
  }

  predicate IsDigest(s: string) {
    |s| == 71 && s[..7] == "sha256:" && AllHex(s[7..])
  }

  predicate IsCommit(s: string) {
    |s| == 40 && AllHex(s)
  }

  function DigestAt(o: Object, n: N.Name): Option<string> {
    var value := TextAt(o, n);
    if value.Some? && IsDigest(value.value) then value else None
  }

  // ---- the parts of the manifest ----

  const REPOSITORY := "immortal-autumn/ExAPI"
  const WORKFLOW := ".github/workflows/release.yml"
  const OIDC_ISSUER := "https://token.actions.githubusercontent.com"
  const IMAGE_REPOSITORY := "ghcr.io/immortal-autumn/sub2api2personal"

  /** encrypted_object; k numbers the clock reading. */
  predicate EncryptedObject(env: Env, o: Object, k: int) {
    && TextAt(o, N.ObjectUri).Some? && StartsWith(TextAt(o, N.ObjectUri).value, "s3://")
    && TextAt(o, N.VersionId).Some?
    && DigestAt(o, N.Sha256).Some?
    && IsTrue(o, N.Encrypted)
    && IsFuture(env, o, N.RetentionUntil, k)
  }

  predicate RestoreEvidence(env: Env, o: Object) {
    TextAt(o, N.DisposableTarget).Some? && TimeAt(env, o, N.RestoredAt).Some? && IsTrue(o, N.Verified)
  }

  predicate SnapshotEvidence(env: Env, o: Object, k: int) {
    && RestoreEvidence(env, o)
    && TextAt(o, N.Provider).Some? && TextAt(o, N.SnapshotId).Some?
    && IsFuture(env, o, N.RetentionUntil, k)
    && IsTrue(o, N.WriterQuiesced) && IsTrue(o, N.CheckpointCompleted)
  }

  /** int(duration * 60 // interval) over the reals. */
  function RequiredChecks(duration: real, interval: real): int
    requires interval > 0.0
  {
    (duration * 60.0 / interval).Floor
  }

  predicate IsZero(o: Object, n: N.Name) {
    NumberAt(o, n) == Some(0.0)
  }

  predicate Observation(o: Object, minimum: real) {
    var duration, interval := NumberAt(o, N.DurationMinutes), NumberAt(o, N.ReadinessIntervalSeconds);
    var checks := NumberAt(o, N.ReadinessChecks);
    && duration.Some? && duration.value >= minimum
    && interval.Some? && 0.0 < interval.value <= 30.0
    && checks.Some? && checks.value >= RequiredChecks(duration.value, interval.value) as real
    && IsZero(o, N.ReadinessFailures) && IsZero(o, N.Restarts) && IsZero(o, N.NewP0P1)
    && Traffic(o) && Latency(o)
  }

  predicate Traffic(o: Object) {
    var requests, unexpected := NumberAt(o, N.RequestCount), NumberAt(o, N.Unexpected5xx);
    var rate := NumberAt(o, N.ErrorRate);
    && requests.Some? && unexpected.Some? && rate.Some?
    && requests.value >= 0.0 && unexpected.value >= 0.0 && 0.0 <= rate.value <= 1.0
    && (if requests.value >= 100.0 then rate.value < 0.01 else unexpected.value == 0.0)
  }

  predicate Latency(o: Object) {
    var samples, p95, baseline := NumberAt(o, N.LatencySampleCount), NumberAt(o, N.P95Ms), NumberAt(o, N.BaselineP95Ms);
    && samples.Some? && samples.value >= 0.0
    && p95.Some? && baseline.Some? && p95.value >= 0.0 && baseline.value >= 0.0
    && (samples.value >= 100.0 ==> baseline.value > 0.0 && p95.value <= baseline.value * 1.2)
  }

  /** Python's `== 1`, which True also satisfies. */
  predicate EqualsOne(d: Doc) {
    d == Num(1.0) || d == Bool(true)
  }

  predicate Header(env: Env, root: Object) {
    && N.SchemaVersion in root && EqualsOne(root[N.SchemaVersion])
    && TextAt(root, N.RolloutId).Some? && TimeAt(env, root, N.GeneratedAt).Some?
  }

  predicate SourcePart(source: Object) {
    && TextAt(source, N.Commit).Some? && IsCommit(TextAt(source, N.Commit).value)
    && TextAt(source, N.Repository) == Some(REPOSITORY)
    && TextAt(source, N.Workflow) == Some(WORKFLOW)
  }

  predicate PlatformDigest(d: Doc) {
    d.Obj? && TextAt(d.fields, N.Platform).Some? && DigestAt(d.fields, N.Digest).Some?
  }

  predicate Platforms(o: Object) {
    && N.PlatformDigests in o && o[N.PlatformDigests].Arr? && o[N.PlatformDigests].items != []
    && forall i :: 0 <= i < |o[N.PlatformDigests].items| ==> PlatformDigest(o[N.PlatformDigests].items[i])
  }

  predicate Labels(labels: Object, commit: string) {
    && TextAt(labels, N.Revision) == Some(commit)
    && TextAt(labels, N.Source) == Some("https://github.com/" + REPOSITORY)
    && TextAt(labels, N.Version).Some?
  }

  predicate ProvenancePart(p: Object, digest: string) {
    && IsTrue(p, N.Verified)
    && TextAt(p, N.Issuer) == Some(OIDC_ISSUER)
    && TextAt(p, N.Repository) == Some(REPOSITORY)
    && TextAt(p, N.Workflow) == Some(WORKFLOW)
    && DigestAt(p, N.SubjectDigest) == Some(digest)
  }

  predicate ArtifactPart(artifact: Object, commit: string) {
    var image, digest := TextAt(artifact, N.Image), DigestAt(artifact, N.ManifestDigest);
    var labels, sbom := ObjectAt(artifact, N.OciLabels), ObjectAt(artifact, N.Sbom);
    var provenance := ObjectAt(artifact, N.Provenance);
    && image.Some? && digest.Some? && image.value == IMAGE_REPOSITORY + "@" + digest.value
    && Platforms(artifact)
    && labels.Some? && Labels(labels.value, commit)
    && sbom.Some? && TextAt(sbom.value, N.Format) == Some("SPDX-JSON") && DigestAt(sbom.value, N.Sha256).Some?
    && provenance.Some? && ProvenancePart(provenance.value, digest.value)
  }

  predicate LogicalPart(env: Env, logical: Object) {
    var backup := ObjectAt(logical, N.Backup);
    && backup.Some? && EncryptedObject(env, backup.value, 0)
    && RestoreEvidence(env, logical)
    && TextAt(logical, N.NetworkMode) == Some("none")
    && DigestAt(logical, N.BackupSha256).Some? && DigestAt(logical, N.BackupSha256) == DigestAt(backup.value, N.Sha256)
    && TextAt(logical, N.Volume).Some? && TextAt(logical, N.Database).Some?
  }

  predicate DistinctKeys(d: Doc) {
    && d.Arr? && |d.items| >= 3
    && (forall i :: 0 <= i < |d.items| ==> d.items[i].Str? && d.items[i].s != "")
    && (forall i, j :: 0 <= i < j < |d.items| ==> d.items[i] != d.items[j])
  }

  predicate RecoveryPart(env: Env, recovery: Object) {
    var logical, snapshot := ObjectAt(recovery, N.Logical), ObjectAt(recovery, N.Snapshot);
    var secrets := ObjectAt(recovery, N.Secrets);
    && logical.Some? && LogicalPart(env, logical.value)
    && var backup := ObjectAt(logical.value, N.Backup).value;
    && snapshot.Some? && SnapshotEvidence(env, snapshot.value, 1)
    && TimeAt(env, snapshot.value, N.RetentionUntil).value >= TimeAt(env, backup, N.RetentionUntil).value
    && IsTrue(snapshot.value, N.EgressDenied) && IsTrue(snapshot.value, N.IntegrityVerified)
    && IsTrue(snapshot.value, N.DecryptionVerified)
    && TextAt(logical.value, N.DisposableTarget) != TextAt(snapshot.value, N.DisposableTarget)
    && secrets.Some? && EncryptedObject(env, secrets.value, 2)
    && N.KeyIds in secrets.value && DistinctKeys(secrets.value[N.KeyIds])
    && TextAt(backup, N.ObjectUri) != TextAt(secrets.value, N.ObjectUri)
    && IsTrue(recovery, N.IndependentRestorePaths)
  }

  predicate SecurityPart(o: Object) {
    IsTrue(o, N.PrivateLiveRestoreDisabled) && IsTrue(o, N.NoNewPrivileges) && IsTrue(o, N.ImmutableRuntimeImages)
  }

  predicate MonitoringPart(env: Env, o: Object) {
    var alert := ObjectAt(o, N.AlertProbe);
    && IsTrue(o, N.ExternalReadinessConfigured) && TextAt(o, N.Provider).Some?
    && alert.Some? && IsTrue(alert.value, N.Delivered)
    && TimeAt(env, alert.value, N.DeliveredAt).Some? && TextAt(alert.value, N.DeliveryId).Some?
  }

  predicate RestoredPart(o: Object, digest: string, logical: Object) {
    var source := ObjectAt(o, N.Source);
    && Observation(o, 30.0)
    && IsTrue(o, N.ProductionData) && IsTrue(o, N.EgressDenied) && IsTrue(o, N.IntegrityVerified)
    && IsTrue(o, N.DecryptionVerified)
    && DigestAt(o, N.ImageDigest) == Some(digest)
    && source.Some?
    && TextAt(source.value, N.LogicalRestoreTarget).Some?
    && TextAt(source.value, N.LogicalRestoreTarget) == TextAt(logical, N.DisposableTarget)
    && TextAt(source.value, N.PostgresVolume).Some? && TextAt(source.value, N.PostgresVolume) == TextAt(logical, N.Volume)
    && TextAt(source.value, N.Database).Some? && TextAt(source.value, N.Database) == TextAt(logical, N.Database)
    && DigestAt(source.value, N.BackupSha256).Some?
    && DigestAt(source.value, N.BackupSha256) == DigestAt(logical, N.BackupSha256)
  }

  predicate SyntheticPart(o: Object, digest: string) {
    && Observation(o, 30.0)
    && N.ProductionData in o && o[N.ProductionData] == Bool(false)
    && IsTrue(o, N.CanaryOnlyCredentials) && IsTrue(o, N.EgressAllowlistVerified) && IsTrue(o, N.ProviderSmokeVerified)
    && DigestAt(o, N.ImageDigest) == Some(digest)
  }

  predicate ProductionPart(o: Object, digest: string) {
    Observation(o, 60.0) && DigestAt(o, N.ImageDigest) == Some(digest)
  }

  predicate RollbackPart(migration: Object, rollback: Object) {
    && TextAt(migration, N.Version).Some?
    && N.CiphertextOnlyCutover in migration && migration[N.CiphertextOnlyCutover].Bool?
    && var cutover := migration[N.CiphertextOnlyCutover].b;
    && TextAt(rollback, N.Mode) == Some(if cutover then "snapshot-and-keyroots" else "compatible-image-or-snapshot")
    && (cutover ==>
          && TextAt(rollback, N.SnapshotId).Some? && DigestAt(rollback, N.PreviousImageDigest).Some?
          && N.PreviousKeyIds in rollback && rollback[N.PreviousKeyIds].Arr? && rollback[N.PreviousKeyIds].items != [])
  }

  /** The three observed deployments. */
  predicate DeploymentsPart(root: Object, digest: string, logical: Object) {
    var canaries, production := ObjectAt(root, N.Canaries), ObjectAt(root, N.Production);
    && canaries.Some?
    && var restored, synthetic := ObjectAt(canaries.value, N.RestoredData), ObjectAt(canaries.value, N.SyntheticProvider);
    && restored.Some? && RestoredPart(restored.value, digest, logical)
    && synthetic.Some? && SyntheticPart(synthetic.value, digest)
    && production.Some? && ProductionPart(production.value, digest)
  }

  /** validate: true where the source returns, false where it raises ContractError. */
  predicate Validate(env: Env, doc: Doc) {
    && doc.Obj?
    && var root := doc.fields;
    var source, artifact, recovery := ObjectAt(root, N.Source), ObjectAt(root, N.Artifact), ObjectAt(root, N.Recovery);
    var security, monitoring := ObjectAt(root, N.Security), ObjectAt(root, N.Monitoring);
    var migration, rollback := ObjectAt(root, N.Migration), ObjectAt(root, N.Rollback);
    && Header(env, root)
    && source.Some? && SourcePart(source.value)
    && artifact.Some? && ArtifactPart(artifact.value, TextAt(source.value, N.Commit).value)
    && recovery.Some? && RecoveryPart(env, recovery.value)
    && security.Some? && SecurityPart(security.value)
    && monitoring.Some? && MonitoringPart(env, monitoring.value)
    && DeploymentsPart(root, DigestAt(artifact.value, N.ManifestDigest).value, ObjectAt(recovery.value, N.Logical).value)
    && migration.Some? && rollback.Some? && RollbackPart(migration.value, rollback.value)
  }
}
