/** The validator as a whole: what acceptance means, what it is stable under, and what it guarantees. */
module RolloutTheorems {
  import opened Options
  import opened PyText
  import opened Rollout
  import opened RolloutEvidence
  import opened RolloutParts
  import N = ManifestNames

  // ---- the root ----

  lemma RootWithin(e: Evidence, o: Object)
    ensures Within(RenderRoot(e), o) <==>
      && Within(RenderHeader(e.schema, e.rolloutId, e.generatedAt), o)
      && Within(RenderBuild(e), o) && Within(RenderDeployment(e), o)
  {
    BuildNames(Obj(RenderSource(e.release.commit)), Obj(RenderArtifact(e.release)), Obj(RenderRecovery(e.recovery)),
               Obj(SECURITY), Obj(RenderMonitor(e.monitor)));
    DeploymentNames(Obj(RenderCanaries(e)), Obj(RenderProduction(e.production, e.release.digest)),
                    Obj(RenderMigration(e.migration, e.cutover)), Obj(RenderRollback(e.cutover)));
    HeaderNames(e.schema, e.rolloutId, e.generatedAt);
    UnionOfThree(RenderHeader(e.schema, e.rolloutId, e.generatedAt), RenderBuild(e), RenderDeployment(e), o);
  }

  lemma UnionOfThree(f: Object, g: Object, h: Object, o: Object)
    requires forall n :: n in f ==> HeaderName(n)
    requires forall n :: n in g ==> !HeaderName(n) && !DeploymentName(n)
    requires forall n :: n in h ==> !HeaderName(n) && DeploymentName(n)
    ensures Within(f + (g + h), o) <==> Within(f, o) && Within(g, o) && Within(h, o)
  {
    WithinUnion(g, h, o);
    WithinUnion(f, g + h, o);
  }

  predicate HeaderName(n: N.Name) {
    n.SchemaVersion? || n.RolloutId? || n.GeneratedAt?
  }

  predicate DeploymentName(n: N.Name) {
    n.Canaries? || n.Production? || n.Migration? || n.Rollback?
  }

  lemma HeaderNames(schema: Doc, id: string, at: string)
    ensures forall n :: n in RenderHeader(schema, id, at) ==> HeaderName(n)
  {
  }

  lemma BuildNames(source: Doc, artifact: Doc, recovery: Doc, security: Doc, monitoring: Doc)
    ensures forall n ::
      (n in map[N.Source := source, N.Artifact := artifact, N.Recovery := recovery,
                N.Security := security, N.Monitoring := monitoring]) ==> !HeaderName(n) && !DeploymentName(n)
  {
  }

  lemma DeploymentNames(canaries: Doc, production: Doc, migration: Doc, rollback: Doc)
    ensures forall n ::
      n in map[N.Canaries := canaries, N.Production := production, N.Migration := migration, N.Rollback := rollback] ==>
        !HeaderName(n) && DeploymentName(n)
  {
  }

  ghost predicate BuildPart(env: Env, root: Object, e: Evidence) {
    var source, artifact, recovery := ObjectAt(root, N.Source), ObjectAt(root, N.Artifact), ObjectAt(root, N.Recovery);
    var security, monitoring := ObjectAt(root, N.Security), ObjectAt(root, N.Monitoring);
    && source.Some? && SourcePart(source.value) && Text(source.value, N.Commit) == e.release.commit
    && artifact.Some? && ArtifactPart(artifact.value, e.release.commit)
    && ReadRelease(artifact.value, e.release.commit) == e.release
    && recovery.Some? && RecoveryPart(env, recovery.value) && ReadRecovery(recovery.value) == e.recovery
    && security.Some? && SecurityPart(security.value)
    && monitoring.Some? && MonitoringPart(env, monitoring.value) && ReadMonitor(monitoring.value) == e.monitor
  }

  ghost predicate BuildHolds(env: Env, e: Evidence) {
    ReleaseHolds(e.release) && RecoveryHolds(env, e.recovery) && MonitorHolds(env, e.monitor)
  }

  lemma BuildExact(env: Env, root: Object, e: Evidence)
    ensures BuildPart(env, root, e) <==> BuildHolds(env, e) && Within(RenderBuild(e), root)
  {
    BuildMembers(Obj(RenderSource(e.release.commit)), Obj(RenderArtifact(e.release)), Obj(RenderRecovery(e.recovery)),
                 Obj(SECURITY), Obj(RenderMonitor(e.monitor)), root);
    ChildUnder(root, N.Source, RenderSource(e.release.commit));
    ChildUnder(root, N.Artifact, RenderArtifact(e.release));
    ChildUnder(root, N.Recovery, RenderRecovery(e.recovery));
    ChildUnder(root, N.Security, SECURITY);
    ChildUnder(root, N.Monitoring, RenderMonitor(e.monitor));
    SourceExact(Child(root, N.Source), e.release.commit);
    if IsCommit(e.release.commit) {
      ArtifactExact(Child(root, N.Artifact), e.release);
    }
    RecoveryExact(env, Child(root, N.Recovery), e.recovery);
    SecurityExact(Child(root, N.Security));
    MonitorExact(env, Child(root, N.Monitoring), e.monitor);
  }

  ghost predicate SameReadings(root: Object, e: Evidence) {
    var canaries := Child(root, N.Canaries);
    && ReadReadings(Child(canaries, N.RestoredData)) == e.restored
    && ReadReadings(Child(canaries, N.SyntheticProvider)) == e.synthetic
    && ReadReadings(Child(root, N.Production)) == e.production
  }

  ghost predicate AllReadingsHold(e: Evidence) {
    ReadingsHold(e.restored, 30.0) && ReadingsHold(e.synthetic, 30.0) && ReadingsHold(e.production, 60.0)
  }

  lemma CanariesExact(o: Object, logical: Object, e: Evidence)
    requires IsDigest(e.release.digest) && Describes(logical, e.recovery.logical)
    ensures (
      var restored, synthetic := ObjectAt(o, N.RestoredData), ObjectAt(o, N.SyntheticProvider);
      && restored.Some? && RestoredPart(restored.value, e.release.digest, logical)
      && ReadReadings(restored.value) == e.restored
      && synthetic.Some? && SyntheticPart(synthetic.value, e.release.digest)
      && ReadReadings(synthetic.value) == e.synthetic
    ) <==> ReadingsHold(e.restored, 30.0) && ReadingsHold(e.synthetic, 30.0) && Within(RenderCanaries(e), o)
  {
    var digest, l := e.release.digest, e.recovery.logical;
    CanaryMembers(Obj(RenderRestored(e.restored, digest, l)), Obj(RenderSynthetic(e.synthetic, digest)), o);
    ChildUnder(o, N.RestoredData, RenderRestored(e.restored, digest, l));
    ChildUnder(o, N.SyntheticProvider, RenderSynthetic(e.synthetic, digest));
    RestoredExact(Child(o, N.RestoredData), e.restored, digest, logical, l);
    SyntheticExact(Child(o, N.SyntheticProvider), e.synthetic, digest);
  }

  lemma DeploymentsExact(root: Object, logical: Object, e: Evidence)
    requires IsDigest(e.release.digest) && Describes(logical, e.recovery.logical)
    ensures DeploymentsPart(root, e.release.digest, logical) && SameReadings(root, e) <==>
      && AllReadingsHold(e) && Under(root, N.Canaries, Obj(RenderCanaries(e)))
      && Under(root, N.Production, Obj(RenderProduction(e.production, e.release.digest)))
  {
    ChildUnder(root, N.Canaries, RenderCanaries(e));
    ChildUnder(root, N.Production, RenderProduction(e.production, e.release.digest));
    CanariesExact(Child(root, N.Canaries), logical, e);
    ProductionExact(Child(root, N.Production), e.production, e.release.digest);
  }

  lemma DeploymentMembers(e: Evidence, root: Object)
    ensures Within(RenderDeployment(e), root) <==>
      && Under(root, N.Canaries, Obj(RenderCanaries(e)))
      && Under(root, N.Production, Obj(RenderProduction(e.production, e.release.digest)))
      && ObjectAt(root, N.Migration).Some? && Within(RenderMigration(e.migration, e.cutover), Child(root, N.Migration))
      && ObjectAt(root, N.Rollback).Some? && Within(RenderRollback(e.cutover), Child(root, N.Rollback))
  {
    DeployMembers(Obj(RenderCanaries(e)), Obj(RenderProduction(e.production, e.release.digest)),
                  Obj(RenderMigration(e.migration, e.cutover)), Obj(RenderRollback(e.cutover)), root);
    ChildUnder(root, N.Migration, RenderMigration(e.migration, e.cutover));
    ChildUnder(root, N.Rollback, RenderRollback(e.cutover));
  }

  /** The checks outside the build part, on evidence read from the root. */
  predicate RestPart(env: Env, root: Object, digest: string) {
    && Header(env, root)
    && DeploymentsPart(root, digest, Child(Child(root, N.Recovery), N.Logical))
    && ObjectAt(root, N.Migration).Some? && ObjectAt(root, N.Rollback).Some?
    && RollbackPart(Child(root, N.Migration), Child(root, N.Rollback))
  }

  lemma BuildDescribes(env: Env, root: Object, e: Evidence)
    requires BuildPart(env, root, e)
    ensures Describes(Child(Child(root, N.Recovery), N.Logical), e.recovery.logical) && IsDigest(e.release.digest)
  {
    AcceptedDescribes(env, Child(Child(root, N.Recovery), N.Logical));
  }

  /** Validate, cut where the evidence is cut. */
  lemma ValidateParts(env: Env, root: Object, e: Evidence)
    requires BuildPart(env, root, e)
    ensures Validate(env, Obj(root)) <==> RestPart(env, root, e.release.digest)
  {
    BuildLinks(env, root, e);
  }

  lemma BuildLinks(env: Env, root: Object, e: Evidence)
    requires BuildPart(env, root, e)
    ensures TextAt(Child(root, N.Source), N.Commit) == Some(e.release.commit)
    ensures DigestAt(Child(root, N.Artifact), N.ManifestDigest) == Some(e.release.digest)
    ensures ObjectAt(Child(root, N.Recovery), N.Logical) == Some(Child(Child(root, N.Recovery), N.Logical))
  {
  }

  lemma AcceptedBuild(env: Env, root: Object)
    requires Validate(env, Obj(root))
    ensures BuildPart(env, root, ReadRoot(root)) && RestReads(root, ReadRoot(root))
  {
  }

  ghost predicate RestReads(root: Object, e: Evidence) {
    && Has(root, N.SchemaVersion, e.schema) && Text(root, N.RolloutId) == e.rolloutId
    && Text(root, N.GeneratedAt) == e.generatedAt && SameReadings(root, e)
    && Text(Child(root, N.Migration), N.Version) == e.migration
    && ReadCutover(Child(root, N.Migration), Child(root, N.Rollback)) == e.cutover
  }

  lemma RestShows(env: Env, root: Object, e: Evidence)
    requires BuildPart(env, root, e) && RestPart(env, root, e.release.digest) && RestReads(root, e)
    ensures EvidenceHolds(env, e) && Within(RenderRoot(e), root)
  {
    BuildDescribes(env, root, e);
    BuildExact(env, root, e);
    HeaderExact(env, root, e.schema, e.rolloutId, e.generatedAt);
    DeploymentsExact(root, Child(Child(root, N.Recovery), N.Logical), e);
    RollbackHolds(Child(root, N.Migration), Child(root, N.Rollback));
    DeploymentMembers(e, root);
    RootWithin(e, root);
  }

  /** What an accepted manifest shows. */
  lemma AcceptedShows(env: Env, root: Object)
    requires Validate(env, Obj(root))
    ensures EvidenceHolds(env, ReadRoot(root)) && Within(RenderRoot(ReadRoot(root)), root)
  {
    AcceptedBuild(env, root);
    ValidateParts(env, root, ReadRoot(root));
    RestShows(env, root, ReadRoot(root));
  }

  lemma ShownRest(env: Env, root: Object, e: Evidence)
    requires EvidenceHolds(env, e) && Within(RenderRoot(e), root)
    ensures BuildPart(env, root, e) && RestPart(env, root, e.release.digest)
    ensures ReadRoot(root).(cutover := e.cutover) == e && SameCutover(ReadRoot(root).cutover, e.cutover)
  {
    RootWithin(e, root);
    BuildExact(env, root, e);
    BuildDescribes(env, root, e);
    HeaderExact(env, root, e.schema, e.rolloutId, e.generatedAt);
    DeploymentMembers(e, root);
    DeploymentsExact(root, Child(Child(root, N.Recovery), N.Logical), e);
    RollbackShown(Child(root, N.Migration), Child(root, N.Rollback), e.migration, e.cutover);
  }

  // ---- the main results ----

  function Render(e: Evidence): Doc {
    Obj(RenderRoot(e))
  }

  /** A document that contains the rendering of evidence that holds is accepted, and that evidence is the one
      read from it, up to members added inside the previous key ids. */
  lemma ShownIsAccepted(env: Env, e: Evidence, doc: Doc)
    requires EvidenceHolds(env, e) && Extends(Render(e), doc)
    ensures Validate(env, doc)
    ensures ReadRoot(doc.fields).(cutover := e.cutover) == e && SameCutover(ReadRoot(doc.fields).cutover, e.cutover)
  {
    var root := doc.fields;
    assert Within(RenderRoot(e), root);
    ShownRest(env, root, e);
    ValidateParts(env, root, e);
  }

  ghost predicate Shown(env: Env, doc: Doc) {
    exists e :: EvidenceHolds(env, e) && Extends(Render(e), doc)
  }

  /** Accepted documents are exactly the extensions of manifests rendered from evidence that holds. */
  lemma AcceptanceIsEvidence(env: Env, doc: Doc)
    ensures Validate(env, doc) <==> Shown(env, doc)
  {
    if Validate(env, doc) {
      AcceptedIsShown(env, doc);
    }
    if Shown(env, doc) {
      ShownIsValid(env, doc);
    }
  }

  lemma ShownIsValid(env: Env, doc: Doc)
    requires Shown(env, doc)
    ensures Validate(env, doc)
  {
    var e :| EvidenceHolds(env, e) && Extends(Render(e), doc);
    ShownIsAccepted(env, e, doc);
  }

  lemma AcceptedIsShown(env: Env, doc: Doc)
    requires Validate(env, doc)
    ensures Shown(env, doc)
  {
    AcceptedShows(env, doc.fields);
    assert Extends(Render(ReadRoot(doc.fields)), doc);
  }

  ghost predicate Earlier(early: Env, late: Env) {
    early.parse == late.parse && forall k :: early.now(k) <= late.now(k)
  }

  lemma EvidenceHoldsEarlier(early: Env, late: Env, e: Evidence)
    requires Earlier(early, late) && EvidenceHolds(late, e)
    ensures EvidenceHolds(early, e)
  {
    assert forall s :: TimeOf(early, s) == TimeOf(late, s);
  }

  /** Acceptance survives members added to any object, at any depth, and every clock reading moved earlier. */
  lemma AcceptanceIsMonotone(early: Env, late: Env, doc: Doc, more: Doc)
    requires Earlier(early, late) && Extends(doc, more)
    ensures Validate(late, doc) ==> Validate(early, more)
  {
    AcceptanceIsEvidence(late, doc);
    AcceptanceIsEvidence(early, more);
    if Shown(late, doc) {
      var e :| EvidenceHolds(late, e) && Extends(Render(e), doc);
      EvidenceHoldsEarlier(early, late, e);
      ExtendsFurther(Render(e), doc, more);
    }
  }

  /** Every place of the manifest that names the release. */
  predicate NamesRelease(root: Object, digest: string) {
    var artifact, canaries := Child(root, N.Artifact), Child(root, N.Canaries);
    && TextAt(artifact, N.Image) == Some(ImageOf(digest))
    && DigestAt(artifact, N.ManifestDigest) == Some(digest)
    && DigestAt(Child(artifact, N.Provenance), N.SubjectDigest) == Some(digest)
    && DigestAt(Child(canaries, N.RestoredData), N.ImageDigest) == Some(digest)
    && DigestAt(Child(canaries, N.SyntheticProvider), N.ImageDigest) == Some(digest)
    && DigestAt(Child(root, N.Production), N.ImageDigest) == Some(digest)
  }

  /** Every place of the manifest that names the database backup. */
  predicate NamesBackup(root: Object, sha256: string) {
    var logical, restored := Child(Child(root, N.Recovery), N.Logical), Child(Child(root, N.Canaries), N.RestoredData);
    && DigestAt(Child(logical, N.Backup), N.Sha256) == Some(sha256)
    && DigestAt(logical, N.BackupSha256) == Some(sha256)
    && DigestAt(Child(restored, N.Source), N.BackupSha256) == Some(sha256)
  }

  /** One image was built, attested, tried out and deployed; one backup was stored, restored and tried out. */
  lemma OneReleaseOneBackup(env: Env, root: Object)
    ensures Validate(env, Obj(root)) ==> exists digest :: NamesRelease(root, digest)
    ensures Validate(env, Obj(root)) ==> exists sha256 :: NamesBackup(root, sha256)
  {
    if Validate(env, Obj(root)) {
      var e := ReadRoot(root);
      AcceptedBuild(env, root);
      ValidateParts(env, root, e);
      ReleaseIsShared(env, root, e);
      BackupIsShared(env, root, e);
    }
  }

  lemma ReleaseIsShared(env: Env, root: Object, e: Evidence)
    requires BuildPart(env, root, e) && RestPart(env, root, e.release.digest)
    ensures NamesRelease(root, e.release.digest)
  {
    BuildLinks(env, root, e);
    assert ArtifactPart(Child(root, N.Artifact), e.release.commit);
  }

  lemma BackupIsShared(env: Env, root: Object, e: Evidence)
    requires BuildPart(env, root, e) && RestPart(env, root, e.release.digest)
    ensures NamesBackup(root, e.recovery.logical.backup.sha256)
  {
    var logical, restored := Child(Child(root, N.Recovery), N.Logical), Child(Child(root, N.Canaries), N.RestoredData);
    BuildDescribes(env, root, e);
    RestoredParts(restored, e.release.digest, logical, e.recovery.logical);
  }

  lemma LessThanOneLeft(checks: real, interval: real, quotient: real, window: real)
    requires interval > 0.0 && checks + 1.0 > quotient && quotient * interval == window
    ensures checks * interval > window - interval
  {
    var slack := checks + 1.0 - quotient;
    assert slack * interval > 0.0;
    assert slack * interval == checks * interval + interval - quotient * interval;
  }

  lemma AtMostThirty(count: real, interval: real)
    requires count >= 0.0 && interval <= 30.0
    ensures count * interval <= count * 30.0
  {
    var rest := 30.0 - interval;
    assert count * rest >= 0.0;
    assert count * rest == count * 30.0 - count * interval;
  }

  /** The checks, spaced by the interval, leave less than one interval of the window uncovered, and any
      whole number up to twice the required minutes is reached. */
  lemma CoverageBound(r: Readings, minimum: real, k: int)
    requires ReadingsHold(r, minimum) && minimum >= 0.0 && k as real <= 2.0 * minimum
    ensures r.checks * r.interval > r.duration * 60.0 - r.interval
    ensures k as real <= r.checks
  {
    CoveredExact(r);
    var q := r.duration * 60.0 / r.interval;
    assert q * r.interval == r.duration * 60.0;
    LessThanOneLeft(r.checks, r.interval, q, r.duration * 60.0);
    var n := if k < 0 then 0 else k;
    AtMostThirty(n as real, r.interval);
    assert Fits(n, r);
    assert n as real <= r.checks;
  }

  ghost predicate Clean(o: Object, checks: real) {
    && NumberAt(o, N.ReadinessChecks).Some? && NumberAt(o, N.ReadinessChecks).value >= checks
    && IsZero(o, N.ReadinessFailures) && IsZero(o, N.Restarts) && IsZero(o, N.NewP0P1)
  }

  lemma ObservationIsClean(o: Object, minimum: real, k: int)
    requires Observation(o, minimum) && minimum >= 0.0 && k as real <= 2.0 * minimum
    ensures Clean(o, k as real)
  {
    ObservationExact(o, ReadReadings(o), minimum);
    CoverageBound(ReadReadings(o), minimum, k);
    assert Number(o, N.ReadinessChecks) == ReadReadings(o).checks;
  }

  /** At least 60 clean readiness checks of each canary and 120 of production. */
  lemma AcceptedIsObserved(env: Env, root: Object)
    ensures Validate(env, Obj(root)) ==>
      && Clean(Child(Child(root, N.Canaries), N.RestoredData), 60.0)
      && Clean(Child(Child(root, N.Canaries), N.SyntheticProvider), 60.0)
      && Clean(Child(root, N.Production), 120.0)
  {
    if Validate(env, Obj(root)) {
      var e := ReadRoot(root);
      AcceptedBuild(env, root);
      ValidateParts(env, root, e);
      AllObserved(env, root, e.release.digest);
    }
  }

  lemma AllObserved(env: Env, root: Object, digest: string)
    requires RestPart(env, root, digest)
    ensures Clean(Child(Child(root, N.Canaries), N.RestoredData), 60.0)
    ensures Clean(Child(Child(root, N.Canaries), N.SyntheticProvider), 60.0)
    ensures Clean(Child(root, N.Production), 120.0)
  {
    ObservationIsClean(Child(Child(root, N.Canaries), N.RestoredData), 30.0, 60);
    ObservationIsClean(Child(Child(root, N.Canaries), N.SyntheticProvider), 30.0, 60);
    ObservationIsClean(Child(root, N.Production), 60.0, 120);
  }

  // ---- the gate can be passed ----

  /** An hour of checks every 30 seconds, without traffic. */
  const QUIET_HOUR := Readings(60.0, 30.0, 120.0, 0.0, 0.0, 0.0, 0.0, 0.0, 0.0)

  lemma QuietHourHolds()
    ensures ReadingsHold(QUIET_HOUR, 60.0) && ReadingsHold(QUIET_HOUR, 30.0)
  {
    CoveredExact(QUIET_HOUR);
    assert RequiredChecks(60.0, 30.0) == 120;
  }

  function SampleRecovery(digest: string, at: string): Recovery {
    Recovery(
      Logical(Sealed("s3://a", "x", digest, at), Restore("x", at), "x", "x"),
      Snapshot(Restore("y", at), "x", "x", at),
      Secrets(Sealed("s3://b", "x", digest, at), ["a", "b", "c"]))
  }

  lemma SampleSealedHolds(env: Env, uri: string, digest: string, at: string, k: int)
    requires StartsWith(uri, "s3://") && IsDigest(digest) && IsTime(env, at) && env.now(k) < TimeOf(env, at).value
    ensures SealedHolds(env, Sealed(uri, "x", digest, at), k)
  {
    assert uri[0] == uri[..5][0] == 's';
    TextByFirst(uri);
    TextByFirst("x");
  }

  lemma SampleKeysHold()
    ensures KeysHold(["a", "b", "c"])
  {
    assert "a"[0] != "b"[0] && "a"[0] != "c"[0] && "b"[0] != "c"[0];
  }

  lemma SampleRecoveryHolds(env: Env, digest: string, at: string)
    requires IsDigest(digest) && IsTime(env, at) && forall k :: 0 <= k <= 2 ==> env.now(k) < TimeOf(env, at).value
    ensures RecoveryHolds(env, SampleRecovery(digest, at))
  {
    var a, b := "s3://a", "s3://b";
    assert a[..5] == "s3://" && b[..5] == "s3://" && a[5] != b[5] && "x"[0] != "y"[0];
    SampleSealedHolds(env, a, digest, at, 0);
    SampleSealedHolds(env, b, digest, at, 2);
    SampleKeysHold();
    TextByFirst("x");
    TextByFirst("y");
  }

  function SampleDigest(): string {
    "sha256:" + seq(64, _ => 'a')
  }

  lemma SampleDigestHolds()
    ensures IsSha(SampleDigest())
  {
    var tail: string := seq(64, _ => 'a');
    var digest := "sha256:" + tail;
    assert SampleDigest() == digest;
    assert digest[..7] == "sha256:" && digest[7..] == tail;
  }

  function SampleRelease(): Release {
    Release(seq(40, _ => 'a'), SampleDigest(), [PlatformImage("x", SampleDigest())], "x", SampleDigest())
  }

  lemma SampleReleaseHolds()
    ensures ReleaseHolds(SampleRelease())
  {
    SampleDigestHolds();
    TextByFirst("x");
    assert IsCommit(SampleRelease().commit);
  }

  function Sample(at: string, schema: Doc): Evidence {
    Evidence(
      schema, "x", at, SampleRelease(), SampleRecovery(SampleDigest(), at), Monitor("x", at, "x"),
      QUIET_HOUR, QUIET_HOUR, QUIET_HOUR, "x", Pending)
  }

  lemma SampleHolds(env: Env, at: string, schema: Doc)
    requires IsTime(env, at) && forall k :: 0 <= k <= 2 ==> env.now(k) < TimeOf(env, at).value
    requires schema == Num(1.0) || schema == Bool(true)
    ensures EvidenceHolds(env, Sample(at, schema))
  {
    TextByFirst("x");
    SampleDigestHolds();
    SampleReleaseHolds();
    SampleRecoveryHolds(env, SampleDigest(), at);
    QuietHourHolds();
  }

  /** Given any timestamp later than the three clock readings, some manifest is accepted, with 1 as its schema
      version and also with true, which Python takes to equal 1. */
  lemma SomeManifestIsAccepted(env: Env, at: string, schema: Doc)
    requires IsTime(env, at) && forall k :: 0 <= k <= 2 ==> env.now(k) < TimeOf(env, at).value
    requires schema == Num(1.0) || schema == Bool(true)
    ensures exists root :: Has(root, N.SchemaVersion, schema) && Validate(env, Obj(root))
  {
    var e := Sample(at, schema);
    var root := RenderRoot(e);
    SampleHolds(env, at, schema);
    ExtendsItself(Render(e));
    ShownIsAccepted(env, e, Render(e));
    RootWithin(e, root);
    HeaderExact(env, root, schema, "x", at);
    assert Has(root, N.SchemaVersion, schema);
  }
}
