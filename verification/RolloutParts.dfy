/** Part by part, the checks of the validator accept an object exactly when the record read from it holds
    and the object contains its rendering; a rendering is read back as the record it came from, whatever was added to it. */
module RolloutParts {
  import opened Options
  import opened PyText
  import opened Rollout
  import opened RolloutEvidence
  import N = ManifestNames

  // ---- objects that contain an object ----

  predicate Has(o: Object, n: N.Name, d: Doc) {
    n in o && o[n] == d
  }

  ghost predicate Copied(f: Object, o: Object) {
    forall n :: n in f ==> Has(o, n, f[n])
  }

  ghost predicate Flat(f: Object) {
    forall n :: n in f ==> !f[n].Obj? && !f[n].Arr?
  }

  lemma WithinUnion(f: Object, g: Object, o: Object)
    requires f.Keys !! g.Keys
    ensures Within(f + g, o) <==> Within(f, o) && Within(g, o)
  {
    assert forall n :: n in f ==> (f + g)[n] == f[n];
    assert forall n :: n in g ==> (f + g)[n] == g[n];
  }

  lemma MemberWithin(f: Object, o: Object, n: N.Name)
    requires Within(f, o) && n in f
    ensures n in o && Extends(f[n], o[n])
    ensures !f[n].Obj? && !f[n].Arr? ==> o[n] == f[n]
  {
    assert Extends(f[n], o[n]);
  }

  lemma FlatWithin(f: Object, o: Object)
    requires Flat(f)
    ensures Within(f, o) <==> Copied(f, o)
  {
    if Within(f, o) {
      forall n | n in f ensures Has(o, n, f[n]) { MemberWithin(f, o, n); }
    }
    if Copied(f, o) {
      forall n | n in f ensures n in o && Extends(f[n], o[n]) { ExtendsItself(f[n]); }
    }
  }

  /** o has, under n, a document that extends d. */
  ghost predicate Under(o: Object, n: N.Name, d: Doc) {
    n in o && Extends(d, o[n])
  }

  lemma MembersUnder(f: Object, o: Object)
    ensures Within(f, o) <==> forall n :: n in f ==> Under(o, n, f[n])
  {
  }

  lemma LeafUnder(o: Object, n: N.Name, d: Doc)
    requires !d.Obj? && !d.Arr?
    ensures Under(o, n, d) <==> Has(o, n, d)
  {
  }

  lemma ChildUnder(o: Object, n: N.Name, f: Object)
    ensures Under(o, n, Obj(f)) <==> ObjectAt(o, n).Some? && Within(f, Child(o, n))
  {
  }

  // ---- strings ----

  lemma TextByFirst(s: string)
    requires s != [] && !IsSpace(s[0])
    ensures IsText(s)
  {
    StripTrims(s);
    assert s[0] in s;
  }

  lemma DigestIsText(s: string)
    requires IsDigest(s)
    ensures IsText(s)
  {
    assert s[0] == s[..7][0] == 's';
    TextByFirst(s);
  }

  lemma CommitIsText(s: string)
    requires IsCommit(s)
    ensures IsText(s)
  {
    assert s[0] in s;
    TextByFirst(s);
  }

  lemma TextIs(o: Object, n: N.Name, s: string)
    requires IsText(s)
    ensures TextAt(o, n) == Some(s) <==> Has(o, n, Str(s))
  {
  }

  lemma TextReads(o: Object, n: N.Name, s: string)
    ensures TextAt(o, n).Some? && Text(o, n) == s <==> IsText(s) && Has(o, n, Str(s))
  {
  }

  lemma DigestIs(o: Object, n: N.Name, s: string)
    requires IsDigest(s)
    ensures DigestAt(o, n) == Some(s) <==> Has(o, n, Str(s))
  {
    DigestIsText(s);
  }

  lemma CanonicalNamesAreText()
    ensures IsText(REPOSITORY) && IsText(WORKFLOW)
  {
    TextByFirst(REPOSITORY);
    TextByFirst(WORKFLOW);
  }

  // ---- sealed objects and restores ----

  lemma SealedMembers(s: Sealed, o: Object)
    ensures Within(RenderSealed(s), o) <==>
      && Has(o, N.ObjectUri, Str(s.uri)) && Has(o, N.VersionId, Str(s.versionId)) && Has(o, N.Sha256, Str(s.sha256))
      && Has(o, N.Encrypted, TRUE) && Has(o, N.RetentionUntil, Str(s.until))
  {
    FlatWithin(RenderSealed(s), o);
  }

  lemma SealedExact(env: Env, o: Object, s: Sealed, k: int)
    ensures EncryptedObject(env, o, k) && ReadSealed(o) == s <==> SealedHolds(env, s, k) && Within(RenderSealed(s), o)
  {
    SealedMembers(s, o);
    if IsDigest(s.sha256) {
      DigestIsText(s.sha256);
    }
  }

  lemma RestoreMembers(r: Restore, o: Object)
    ensures Within(RenderRestore(r), o) <==>
      && Has(o, N.DisposableTarget, Str(r.target)) && Has(o, N.RestoredAt, Str(r.restoredAt)) && Has(o, N.Verified, TRUE)
  {
    FlatWithin(RenderRestore(r), o);
  }

  lemma RestoreExact(env: Env, o: Object, r: Restore)
    ensures RestoreEvidence(env, o) && ReadRestore(o) == r <==> RestoreHolds(env, r) && Within(RenderRestore(r), o)
  {
    RestoreMembers(r, o);
  }

  // ---- observations ----

  /** The rounded-down quotient is the largest count of intervals that fits. */
  lemma CoveredExact(r: Readings)
    requires r.interval > 0.0
    ensures Covered(r) <==> r.checks >= RequiredChecks(r.duration, r.interval) as real
  {
    var q := r.duration * 60.0 / r.interval;
    assert q * r.interval == r.duration * 60.0;
    FitsIff(q.Floor, q, r);
    if r.checks >= q.Floor as real {
      forall k: int | Fits(k, r) ensures k as real <= r.checks {
        FitsIff(k, q, r);
        assert k <= q.Floor;
      }
    }
  }

  lemma FitsIff(k: int, q: real, r: Readings)
    requires r.interval > 0.0 && q * r.interval == r.duration * 60.0
    ensures Fits(k, r) <==> k as real <= q
  {
    var d := q - k as real;
    assert d * r.interval == r.duration * 60.0 - k as real * r.interval;
    if d >= 0.0 {
      assert d * r.interval >= 0.0;
    } else {
      assert d * r.interval < 0.0;
    }
  }

  lemma WindowMembers(r: Readings, o: Object)
    ensures Within(RenderWindow(r), o) <==>
      && Has(o, N.DurationMinutes, Num(r.duration)) && Has(o, N.ReadinessIntervalSeconds, Num(r.interval))
      && Has(o, N.ReadinessChecks, Num(r.checks))
  {
    FlatWithin(RenderWindow(r), o);
  }

  lemma CleanMembers(o: Object)
    ensures Within(CLEAN, o) <==> IsZero(o, N.ReadinessFailures) && IsZero(o, N.Restarts) && IsZero(o, N.NewP0P1)
  {
    FlatWithin(CLEAN, o);
    assert forall n :: Has(o, n, ZERO) <==> IsZero(o, n);
  }

  lemma TrafficMembers(r: Readings, o: Object)
    ensures Within(RenderTraffic(r), o) <==>
      && Has(o, N.RequestCount, Num(r.requests)) && Has(o, N.Unexpected5xx, Num(r.unexpected))
      && Has(o, N.ErrorRate, Num(r.rate))
  {
    FlatWithin(RenderTraffic(r), o);
  }

  lemma LatencyMembers(r: Readings, o: Object)
    ensures Within(RenderLatency(r), o) <==>
      && Has(o, N.LatencySampleCount, Num(r.samples)) && Has(o, N.P95Ms, Num(r.p95))
      && Has(o, N.BaselineP95Ms, Num(r.baseline))
  {
    FlatWithin(RenderLatency(r), o);
  }

  lemma HealthWithin(r: Readings, o: Object)
    ensures Within(RenderHealth(r), o) <==> Within(RenderWindow(r), o) && Within(CLEAN, o)
  {
    WithinUnion(RenderWindow(r), CLEAN, o);
  }

  lemma LoadWithin(r: Readings, o: Object)
    ensures Within(RenderLoad(r), o) <==> Within(RenderTraffic(r), o) && Within(RenderLatency(r), o)
  {
    WithinUnion(RenderTraffic(r), RenderLatency(r), o);
  }

  lemma ReadingsWithin(r: Readings, o: Object)
    ensures Within(RenderReadings(r), o) <==>
      Within(RenderWindow(r), o) && Within(CLEAN, o) && Within(RenderTraffic(r), o) && Within(RenderLatency(r), o)
  {
    WithinUnion(RenderHealth(r), RenderLoad(r), o);
    HealthWithin(r, o);
    LoadWithin(r, o);
  }

  lemma TrafficExact(o: Object)
    ensures Traffic(o) <==> TrafficHolds(ReadReadings(o)) && Within(RenderTraffic(ReadReadings(o)), o)
  {
    TrafficMembers(ReadReadings(o), o);
  }

  lemma LatencyExact(o: Object)
    ensures Latency(o) <==> LatencyHolds(ReadReadings(o)) && Within(RenderLatency(ReadReadings(o)), o)
  {
    LatencyMembers(ReadReadings(o), o);
  }

  lemma ObservationExact(o: Object, r: Readings, minimum: real)
    ensures Observation(o, minimum) && ReadReadings(o) == r <==> ReadingsHold(r, minimum) && Within(RenderReadings(r), o)
  {
    ReadingsWithin(r, o);
    WindowMembers(r, o);
    CleanMembers(o);
    TrafficMembers(r, o);
    LatencyMembers(r, o);
    TrafficExact(o);
    LatencyExact(o);
    if r.interval > 0.0 {
      CoveredExact(r);
    }
  }

  // ---- source and artifact ----

  lemma SourceMembers(commit: string, o: Object)
    ensures Within(RenderSource(commit), o) <==>
      Has(o, N.Commit, Str(commit)) && Has(o, N.Repository, Str(REPOSITORY)) && Has(o, N.Workflow, Str(WORKFLOW))
  {
    FlatWithin(RenderSource(commit), o);
  }

  lemma SourceExact(o: Object, commit: string)
    ensures SourcePart(o) && Text(o, N.Commit) == commit <==> IsCommit(commit) && Within(RenderSource(commit), o)
  {
    SourceMembers(commit, o);
    CanonicalNamesAreText();
    TextIs(o, N.Repository, REPOSITORY);
    TextIs(o, N.Workflow, WORKFLOW);
    if IsCommit(commit) {
      CommitIsText(commit);
      TextIs(o, N.Commit, commit);
    }
  }

  lemma PlatformMembers(p: PlatformImage, d: Doc)
    ensures Extends(RenderPlatform(p), d) <==>
      d.Obj? && Has(d.fields, N.Platform, Str(p.platform)) && Has(d.fields, N.Digest, Str(p.digest))
  {
    if d.Obj? {
      FlatWithin(RenderPlatform(p).fields, d.fields);
      assert Extends(RenderPlatform(p), d) <==> Within(RenderPlatform(p).fields, d.fields);
    }
  }

  lemma PlatformExact(d: Doc, p: PlatformImage)
    ensures PlatformDigest(d) && ReadPlatform(d) == p <==> PlatformHolds(p) && Extends(RenderPlatform(p), d)
  {
    PlatformMembers(p, d);
    if IsDigest(p.digest) {
      DigestIsText(p.digest);
    }
  }

  lemma PlatformsUnder(ps: seq<PlatformImage>, o: Object)
    ensures Under(o, N.PlatformDigests, RenderPlatforms(ps)) <==>
      && N.PlatformDigests in o && o[N.PlatformDigests].Arr? && |o[N.PlatformDigests].items| == |ps|
      && forall i :: 0 <= i < |ps| ==> Extends(RenderPlatform(ps[i]), o[N.PlatformDigests].items[i])
  {
    var xs := RenderPlatforms(ps).items;
    assert forall i :: 0 <= i < |ps| ==> xs[i] == RenderPlatform(ps[i]);
  }

  lemma PlatformsExact(o: Object, ps: seq<PlatformImage>)
    ensures Platforms(o) && ReadPlatforms(o) == ps <==>
      PlatformsHold(ps) && Under(o, N.PlatformDigests, RenderPlatforms(ps))
  {
    PlatformsUnder(ps, o);
    var items := Items(o, N.PlatformDigests);
    if |items| == |ps| {
      forall i | 0 <= i < |ps|
        ensures PlatformDigest(items[i]) && ReadPlatform(items[i]) == ps[i] <==>
          PlatformHolds(ps[i]) && Extends(RenderPlatform(ps[i]), items[i])
      {
        PlatformExact(items[i], ps[i]);
      }
    }
  }

  lemma LabelsMembers(o: Object, r: Release)
    ensures Within(RenderLabels(r), o) <==>
      Has(o, N.Revision, Str(r.commit)) && Has(o, N.Source, Str(LABEL_SOURCE)) && Has(o, N.Version, Str(r.version))
  {
    FlatWithin(RenderLabels(r), o);
  }

  lemma LabelsExact(o: Object, r: Release)
    requires IsCommit(r.commit)
    ensures Labels(o, r.commit) && Text(o, N.Version) == r.version <==> IsText(r.version) && Within(RenderLabels(r), o)
  {
    LabelsMembers(o, r);
    LabelSource();
    CommitIsText(r.commit);
    TextByFirst(LABEL_SOURCE);
    TextIs(o, N.Revision, r.commit);
    TextIs(o, N.Source, LABEL_SOURCE);
  }

  predicate SbomPart(o: Object) {
    TextAt(o, N.Format) == Some("SPDX-JSON") && DigestAt(o, N.Sha256).Some?
  }

  lemma SbomExact(o: Object, sha256: string)
    ensures SbomPart(o) && Text(o, N.Sha256) == sha256 <==> IsDigest(sha256) && Within(RenderSbom(sha256), o)
  {
    FlatWithin(RenderSbom(sha256), o);
    assert Within(RenderSbom(sha256), o) <==> Has(o, N.Format, Str("SPDX-JSON")) && Has(o, N.Sha256, Str(sha256));
    TextByFirst("SPDX-JSON");
    TextIs(o, N.Format, "SPDX-JSON");
    if IsDigest(sha256) {
      DigestIs(o, N.Sha256, sha256);
    }
  }

  lemma ProvenanceMembers(o: Object, digest: string)
    ensures Within(RenderProvenance(digest), o) <==>
      && Has(o, N.Verified, TRUE) && Has(o, N.Issuer, Str(OIDC_ISSUER)) && Has(o, N.Repository, Str(REPOSITORY))
      && Has(o, N.Workflow, Str(WORKFLOW)) && Has(o, N.SubjectDigest, Str(digest))
  {
    FlatWithin(RenderProvenance(digest), o);
  }

  lemma ProvenanceExact(o: Object, digest: string)
    requires IsDigest(digest)
    ensures ProvenancePart(o, digest) <==> Within(RenderProvenance(digest), o)
  {
    ProvenanceMembers(o, digest);
    CanonicalNamesAreText();
    TextByFirst(OIDC_ISSUER);
    TextIs(o, N.Issuer, OIDC_ISSUER);
    TextIs(o, N.Repository, REPOSITORY);
    TextIs(o, N.Workflow, WORKFLOW);
    DigestIs(o, N.SubjectDigest, digest);
  }

  ghost predicate ImagePart(o: Object, digest: string) {
    DigestAt(o, N.ManifestDigest) == Some(digest) && TextAt(o, N.Image) == Some(ImageOf(digest))
  }

  lemma ImageExact(o: Object, digest: string)
    requires IsDigest(digest)
    ensures ImagePart(o, digest) <==> Within(RenderImage(digest), o)
  {
    FlatWithin(RenderImage(digest), o);
    assert Within(RenderImage(digest), o) <==>
      Has(o, N.Image, Str(ImageOf(digest))) && Has(o, N.ManifestDigest, Str(digest));
    assert ImageOf(digest)[0] == 'g';
    TextByFirst(ImageOf(digest));
    TextIs(o, N.Image, ImageOf(digest));
    DigestIs(o, N.ManifestDigest, digest);
  }

  lemma ContentsMembers(r: Release, o: Object)
    ensures Within(RenderContents(r), o) <==>
      && Under(o, N.PlatformDigests, RenderPlatforms(r.platforms)) && Under(o, N.OciLabels, Obj(RenderLabels(r)))
      && Under(o, N.Sbom, Obj(RenderSbom(r.sbom))) && Under(o, N.Provenance, Obj(RenderProvenance(r.digest)))
  {
    MembersUnder(RenderContents(r), o);
  }

  ghost predicate ContentsPart(o: Object, r: Release) {
    && Platforms(o) && ReadPlatforms(o) == r.platforms
    && var labels, sbom := ObjectAt(o, N.OciLabels), ObjectAt(o, N.Sbom);
    && labels.Some? && Labels(labels.value, r.commit) && Text(labels.value, N.Version) == r.version
    && sbom.Some? && SbomPart(sbom.value) && Text(sbom.value, N.Sha256) == r.sbom
  }

  ghost predicate ContentsShown(o: Object, r: Release) {
    && Under(o, N.PlatformDigests, RenderPlatforms(r.platforms)) && Under(o, N.OciLabels, Obj(RenderLabels(r)))
    && Under(o, N.Sbom, Obj(RenderSbom(r.sbom)))
  }

  lemma ContentsExact(o: Object, r: Release)
    requires IsCommit(r.commit)
    ensures ContentsPart(o, r) <==> ContentsHold(r) && ContentsShown(o, r)
  {
    PlatformsExact(o, r.platforms);
    LabelsExact(Child(o, N.OciLabels), r);
    SbomExact(Child(o, N.Sbom), r.sbom);
    ChildUnder(o, N.OciLabels, RenderLabels(r));
    ChildUnder(o, N.Sbom, RenderSbom(r.sbom));
  }

  ghost predicate ArtifactShown(o: Object, r: Release) {
    && Within(RenderImage(r.digest), o) && ContentsShown(o, r)
    && Under(o, N.Provenance, Obj(RenderProvenance(r.digest)))
  }

  lemma ArtifactMembers(o: Object, r: Release)
    ensures Within(RenderArtifact(r), o) <==> ArtifactShown(o, r)
  {
    WithinUnion(RenderImage(r.digest), RenderContents(r), o);
    ContentsMembers(r, o);
  }

  ghost predicate ArtifactAccepted(o: Object, r: Release) {
    && ImagePart(o, r.digest) && ContentsPart(o, r)
    && ObjectAt(o, N.Provenance).Some? && ProvenancePart(Child(o, N.Provenance), r.digest)
  }

  lemma ArtifactParts(o: Object, r: Release)
    ensures ArtifactPart(o, r.commit) && ReadRelease(o, r.commit) == r <==> ArtifactAccepted(o, r)
  {
  }

  lemma ArtifactFacts(o: Object, r: Release)
    requires IsCommit(r.commit)
    ensures ArtifactAccepted(o, r) <==> ReleaseHolds(r) && ArtifactShown(o, r)
  {
    ContentsExact(o, r);
    if IsDigest(r.digest) {
      ImageExact(o, r.digest);
      ChildUnder(o, N.Provenance, RenderProvenance(r.digest));
      ProvenanceExact(Child(o, N.Provenance), r.digest);
    } else {
      assert !ImagePart(o, r.digest);
    }
  }

  lemma ArtifactExact(o: Object, r: Release)
    requires IsCommit(r.commit)
    ensures ArtifactPart(o, r.commit) && ReadRelease(o, r.commit) == r <==> ReleaseHolds(r) && Within(RenderArtifact(r), o)
  {
    ArtifactParts(o, r);
    ArtifactFacts(o, r);
    ArtifactMembers(o, r);
  }

  // ---- recovery ----

  lemma RestoredBackupMembers(l: Logical, o: Object)
    ensures Within(RenderRestoredBackup(l), o) <==>
      && Under(o, N.Backup, Obj(RenderSealed(l.backup))) && Has(o, N.NetworkMode, Str("none"))
      && Has(o, N.BackupSha256, Str(l.backup.sha256)) && Has(o, N.Volume, Str(l.volume)) && Has(o, N.Database, Str(l.database))
  {
    MembersUnder(RenderRestoredBackup(l), o);
    LeafUnder(o, N.NetworkMode, Str("none"));
    LeafUnder(o, N.BackupSha256, Str(l.backup.sha256));
    LeafUnder(o, N.Volume, Str(l.volume));
    LeafUnder(o, N.Database, Str(l.database));
  }

  predicate RestoredBackup(env: Env, o: Object) {
    var backup := ObjectAt(o, N.Backup);
    && backup.Some? && EncryptedObject(env, backup.value, 0)
    && TextAt(o, N.NetworkMode) == Some("none")
    && DigestAt(o, N.BackupSha256).Some? && DigestAt(o, N.BackupSha256) == DigestAt(backup.value, N.Sha256)
    && TextAt(o, N.Volume).Some? && TextAt(o, N.Database).Some?
  }

  lemma RestoredBackupExact(env: Env, o: Object, l: Logical)
    ensures RestoredBackup(env, o) && ReadLogical(o).(restore := l.restore) == l <==>
      && SealedHolds(env, l.backup, 0) && IsText(l.volume) && IsText(l.database)
      && Within(RenderRestoredBackup(l), o)
  {
    RestoredBackupMembers(l, o);
    ChildUnder(o, N.Backup, RenderSealed(l.backup));
    SealedExact(env, Child(o, N.Backup), l.backup, 0);
    TextByFirst("none");
    TextIs(o, N.NetworkMode, "none");
    TextReads(o, N.Volume, l.volume);
    TextReads(o, N.Database, l.database);
    if IsDigest(l.backup.sha256) {
      DigestIs(o, N.BackupSha256, l.backup.sha256);
    }
  }

  lemma LogicalExact(env: Env, o: Object, l: Logical)
    ensures LogicalPart(env, o) && ReadLogical(o) == l <==> LogicalHolds(env, l) && Within(RenderLogical(l), o)
  {
    WithinUnion(RenderRestore(l.restore), RenderRestoredBackup(l), o);
    assert LogicalPart(env, o) <==> RestoreEvidence(env, o) && RestoredBackup(env, o);
    RestoreExact(env, o, l.restore);
    RestoredBackupExact(env, o, l);
  }

  predicate Proofs(o: Object) {
    IsTrue(o, N.EgressDenied) && IsTrue(o, N.IntegrityVerified) && IsTrue(o, N.DecryptionVerified)
  }

  lemma ProofsExact(o: Object)
    ensures Proofs(o) <==> Within(PROOFS, o)
  {
    FlatWithin(PROOFS, o);
    assert forall n :: Has(o, n, TRUE) <==> IsTrue(o, n);
  }

  lemma RetainedMembers(s: Snapshot, o: Object)
    ensures Within(RenderRetained(s), o) <==>
      && Has(o, N.Provider, Str(s.provider)) && Has(o, N.SnapshotId, Str(s.id)) && Has(o, N.RetentionUntil, Str(s.until))
      && Has(o, N.WriterQuiesced, TRUE) && Has(o, N.CheckpointCompleted, TRUE)
  {
    FlatWithin(RenderRetained(s), o);
  }

  predicate Retained(env: Env, o: Object) {
    && TextAt(o, N.Provider).Some? && TextAt(o, N.SnapshotId).Some?
    && IsFuture(env, o, N.RetentionUntil, 1)
    && IsTrue(o, N.WriterQuiesced) && IsTrue(o, N.CheckpointCompleted)
  }

  lemma RetainedExact(env: Env, o: Object, s: Snapshot)
    ensures Retained(env, o) && ReadSnapshot(o).(restore := s.restore) == s <==>
      && IsText(s.provider) && IsText(s.id) && IsTime(env, s.until) && TimeOf(env, s.until).value > env.now(1)
      && Within(RenderRetained(s), o)
  {
    RetainedMembers(s, o);
  }

  lemma SnapshotWithin(s: Snapshot, o: Object)
    ensures Within(RenderSnapshot(s), o) <==>
      Within(RenderRestore(s.restore), o) && Within(RenderRetained(s), o) && Within(PROOFS, o)
  {
    WithinUnion(RenderRestore(s.restore), RenderRetained(s), o);
    WithinUnion(RenderRestore(s.restore) + RenderRetained(s), PROOFS, o);
  }

  predicate SnapshotPart(env: Env, o: Object) {
    SnapshotEvidence(env, o, 1) && Proofs(o)
  }

  lemma SnapshotExact(env: Env, o: Object, s: Snapshot)
    ensures SnapshotPart(env, o) && ReadSnapshot(o) == s <==> SnapshotHolds(env, s) && Within(RenderSnapshot(s), o)
  {
    SnapshotWithin(s, o);
    assert SnapshotEvidence(env, o, 1) <==> RestoreEvidence(env, o) && Retained(env, o);
    RestoreExact(env, o, s.restore);
    RetainedExact(env, o, s);
    ProofsExact(o);
  }

  lemma KeysExact(o: Object, keys: seq<string>)
    ensures N.KeyIds in o && DistinctKeys(o[N.KeyIds]) && ReadKeys(o) == keys <==>
      KeysHold(keys) && Under(o, N.KeyIds, RenderKeys(keys))
  {
    var xs := RenderKeys(keys).items;
    assert forall i :: 0 <= i < |keys| ==> xs[i] == Str(keys[i]);
    if N.KeyIds in o && DistinctKeys(o[N.KeyIds]) && ReadKeys(o) == keys {
      assert o[N.KeyIds].items == xs;
      ExtendsItself(o[N.KeyIds]);
    }
    if KeysHold(keys) && Under(o, N.KeyIds, RenderKeys(keys)) {
      assert forall i :: 0 <= i < |xs| ==> Extends(xs[i], o[N.KeyIds].items[i]);
      assert o[N.KeyIds].items == xs;
      assert ReadKeys(o) == keys;
    }
  }

  predicate SecretsPart(env: Env, o: Object) {
    EncryptedObject(env, o, 2) && N.KeyIds in o && DistinctKeys(o[N.KeyIds])
  }

  lemma SecretsExact(env: Env, o: Object, s: Secrets)
    ensures SecretsPart(env, o) && ReadSecrets(o) == s <==> SecretsHold(env, s) && Within(RenderSecrets(s), o)
  {
    var keys: Object := map[N.KeyIds := RenderKeys(s.keys)];
    WithinUnion(RenderSealed(s.store), keys, o);
    MembersUnder(keys, o);
    SealedExact(env, o, s.store, 2);
    KeysExact(o, s.keys);
  }

  lemma RecoveryMembers(logical: Doc, snapshot: Doc, secrets: Doc, o: Object)
    ensures Within(
        map[N.Logical := logical, N.Snapshot := snapshot, N.Secrets := secrets, N.IndependentRestorePaths := TRUE], o) <==>
      && Under(o, N.Logical, logical) && Under(o, N.Snapshot, snapshot) && Under(o, N.Secrets, secrets)
      && Has(o, N.IndependentRestorePaths, TRUE)
  {
    MembersUnder(
      map[N.Logical := logical, N.Snapshot := snapshot, N.Secrets := secrets, N.IndependentRestorePaths := TRUE], o);
    LeafUnder(o, N.IndependentRestorePaths, TRUE);
  }

  ghost predicate RecoveryObjects(env: Env, o: Object, r: Recovery) {
    var logical, snapshot := ObjectAt(o, N.Logical), ObjectAt(o, N.Snapshot);
    var secrets := ObjectAt(o, N.Secrets);
    && logical.Some? && LogicalPart(env, logical.value) && ReadLogical(logical.value) == r.logical
    && snapshot.Some? && SnapshotPart(env, snapshot.value) && ReadSnapshot(snapshot.value) == r.snapshot
    && secrets.Some? && SecretsPart(env, secrets.value) && ReadSecrets(secrets.value) == r.secrets
    && IsTrue(o, N.IndependentRestorePaths)
  }

  lemma RecoveryParts(env: Env, o: Object, r: Recovery)
    requires RecoveryObjects(env, o, r)
    ensures TimeOf(env, r.logical.backup.until).Some? && TimeOf(env, r.snapshot.until).Some?
    ensures RecoveryPart(env, o) <==> Independent(env, r)
  {
  }

  lemma RecoveryObjectsExact(env: Env, o: Object, r: Recovery)
    ensures RecoveryObjects(env, o, r) <==> PartsHold(env, r) && Within(RenderRecovery(r), o)
  {
    RecoveryMembers(Obj(RenderLogical(r.logical)), Obj(RenderSnapshot(r.snapshot)), Obj(RenderSecrets(r.secrets)), o);
    ChildUnder(o, N.Logical, RenderLogical(r.logical));
    ChildUnder(o, N.Snapshot, RenderSnapshot(r.snapshot));
    ChildUnder(o, N.Secrets, RenderSecrets(r.secrets));
    LogicalExact(env, Child(o, N.Logical), r.logical);
    SnapshotExact(env, Child(o, N.Snapshot), r.snapshot);
    SecretsExact(env, Child(o, N.Secrets), r.secrets);
  }

  lemma RecoveryExact(env: Env, o: Object, r: Recovery)
    ensures RecoveryPart(env, o) && ReadRecovery(o) == r <==> RecoveryHolds(env, r) && Within(RenderRecovery(r), o)
  {
    RecoveryObjectsExact(env, o, r);
    if RecoveryObjects(env, o, r) {
      RecoveryParts(env, o, r);
      assert ReadRecovery(o) == r;
    }
    if RecoveryPart(env, o) && ReadRecovery(o) == r {
      assert RecoveryObjects(env, o, r);
    }
  }

  // ---- security and monitoring ----

  lemma SecurityExact(o: Object)
    ensures SecurityPart(o) <==> Within(SECURITY, o)
  {
    FlatWithin(SECURITY, o);
    assert forall n :: Has(o, n, TRUE) <==> IsTrue(o, n);
  }

  lemma AlertMembers(m: Monitor, o: Object)
    ensures Within(RenderAlert(m), o) <==>
      Has(o, N.Delivered, TRUE) && Has(o, N.DeliveredAt, Str(m.deliveredAt)) && Has(o, N.DeliveryId, Str(m.deliveryId))
  {
    FlatWithin(RenderAlert(m), o);
  }

  lemma MonitorMembers(provider: string, alert: Doc, o: Object)
    ensures Within(map[N.ExternalReadinessConfigured := TRUE, N.Provider := Str(provider), N.AlertProbe := alert], o) <==>
      Has(o, N.ExternalReadinessConfigured, TRUE) && Has(o, N.Provider, Str(provider)) && Under(o, N.AlertProbe, alert)
  {
    MembersUnder(map[N.ExternalReadinessConfigured := TRUE, N.Provider := Str(provider), N.AlertProbe := alert], o);
    LeafUnder(o, N.ExternalReadinessConfigured, TRUE);
    LeafUnder(o, N.Provider, Str(provider));
  }

  lemma MonitorExact(env: Env, o: Object, m: Monitor)
    ensures MonitoringPart(env, o) && ReadMonitor(o) == m <==> MonitorHolds(env, m) && Within(RenderMonitor(m), o)
  {
    MonitorMembers(m.provider, Obj(RenderAlert(m)), o);
    ChildUnder(o, N.AlertProbe, RenderAlert(m));
    AlertMembers(m, Child(o, N.AlertProbe));
    TextReads(o, N.Provider, m.provider);
    TextReads(Child(o, N.AlertProbe), N.DeliveredAt, m.deliveredAt);
    TextReads(Child(o, N.AlertProbe), N.DeliveryId, m.deliveryId);
  }

  // ---- the observed deployments ----

  predicate Measured(n: N.Name) {
    || n.DurationMinutes? || n.ReadinessIntervalSeconds? || n.ReadinessChecks?
    || n.ReadinessFailures? || n.Restarts? || n.NewP0P1?
    || n.RequestCount? || n.Unexpected5xx? || n.ErrorRate?
    || n.LatencySampleCount? || n.P95Ms? || n.BaselineP95Ms?
  }

  lemma ReadingsAreMeasured(r: Readings)
    ensures forall n :: n in RenderReadings(r) ==> Measured(n)
  {
  }

  lemma DeploymentWithin(r: Readings, use: Object, o: Object)
    requires forall n :: n in use ==> !Measured(n)
    ensures Within(RenderReadings(r) + use, o) <==> Within(RenderReadings(r), o) && Within(use, o)
  {
    ReadingsAreMeasured(r);
    WithinUnion(RenderReadings(r), use, o);
  }

  predicate Proof(n: N.Name) {
    n.EgressDenied? || n.IntegrityVerified? || n.DecryptionVerified?
  }

  lemma ProvenDeploymentWithin(r: Readings, use: Object, o: Object)
    requires forall n :: n in use ==> !Measured(n) && !Proof(n)
    ensures Within(RenderReadings(r) + (PROOFS + use), o) <==>
      Within(RenderReadings(r), o) && Within(PROOFS, o) && Within(use, o)
  {
    assert forall n :: n in PROOFS ==> Proof(n);
    DeploymentWithin(r, PROOFS + use, o);
    WithinUnion(PROOFS, use, o);
  }

  lemma ProductionExact(o: Object, r: Readings, digest: string)
    requires IsDigest(digest)
    ensures ProductionPart(o, digest) && ReadReadings(o) == r <==>
      ReadingsHold(r, 60.0) && Within(RenderProduction(r, digest), o)
  {
    var use: Object := map[N.ImageDigest := Str(digest)];
    DeploymentWithin(r, use, o);
    FlatWithin(use, o);
    ObservationExact(o, r, 60.0);
    DigestIs(o, N.ImageDigest, digest);
  }

  predicate SyntheticUse(o: Object, digest: string) {
    && N.ProductionData in o && o[N.ProductionData] == Bool(false)
    && IsTrue(o, N.CanaryOnlyCredentials) && IsTrue(o, N.EgressAllowlistVerified) && IsTrue(o, N.ProviderSmokeVerified)
    && DigestAt(o, N.ImageDigest) == Some(digest)
  }

  lemma SyntheticUseExact(o: Object, digest: string)
    requires IsDigest(digest)
    ensures SyntheticUse(o, digest) <==> Within(RenderSyntheticUse(digest), o)
  {
    FlatWithin(RenderSyntheticUse(digest), o);
    assert Within(RenderSyntheticUse(digest), o) <==>
      && Has(o, N.ProductionData, Bool(false)) && Has(o, N.CanaryOnlyCredentials, TRUE)
      && Has(o, N.EgressAllowlistVerified, TRUE) && Has(o, N.ProviderSmokeVerified, TRUE)
      && Has(o, N.ImageDigest, Str(digest));
    DigestIs(o, N.ImageDigest, digest);
  }

  lemma SyntheticUseNames(digest: string)
    ensures forall n :: n in RenderSyntheticUse(digest) ==> !Measured(n)
  {
  }

  lemma SyntheticWithin(r: Readings, digest: string, o: Object)
    ensures Within(RenderSynthetic(r, digest), o) <==> Within(RenderReadings(r), o) && Within(RenderSyntheticUse(digest), o)
  {
    SyntheticUseNames(digest);
    DeploymentWithin(r, RenderSyntheticUse(digest), o);
  }

  lemma SyntheticExact(o: Object, r: Readings, digest: string)
    requires IsDigest(digest)
    ensures SyntheticPart(o, digest) && ReadReadings(o) == r <==>
      ReadingsHold(r, 30.0) && Within(RenderSynthetic(r, digest), o)
  {
    SyntheticWithin(r, digest, o);
    ObservationExact(o, r, 30.0);
    SyntheticUseExact(o, digest);
  }

  /** The facts about the logical restore that the restored canary has to repeat. */
  ghost predicate Describes(logical: Object, l: Logical) {
    && IsText(l.restore.target) && IsText(l.volume) && IsText(l.database) && IsDigest(l.backup.sha256)
    && TextAt(logical, N.DisposableTarget) == Some(l.restore.target)
    && TextAt(logical, N.Volume) == Some(l.volume) && TextAt(logical, N.Database) == Some(l.database)
    && DigestAt(logical, N.BackupSha256) == Some(l.backup.sha256)
  }

  lemma AcceptedDescribes(env: Env, logical: Object)
    requires LogicalPart(env, logical)
    ensures Describes(logical, ReadLogical(logical))
  {
  }

  predicate RestoredFrom(o: Object, l: Logical) {
    && TextAt(o, N.LogicalRestoreTarget) == Some(l.restore.target)
    && TextAt(o, N.PostgresVolume) == Some(l.volume)
    && TextAt(o, N.Database) == Some(l.database)
    && DigestAt(o, N.BackupSha256) == Some(l.backup.sha256)
  }

  lemma RestoredSourceExact(o: Object, logical: Object, l: Logical)
    requires Describes(logical, l)
    ensures RestoredFrom(o, l) <==> Within(RenderRestoredSource(l), o)
  {
    FlatWithin(RenderRestoredSource(l), o);
    assert Within(RenderRestoredSource(l), o) <==>
      && Has(o, N.LogicalRestoreTarget, Str(l.restore.target)) && Has(o, N.PostgresVolume, Str(l.volume))
      && Has(o, N.Database, Str(l.database)) && Has(o, N.BackupSha256, Str(l.backup.sha256));
    TextIs(o, N.LogicalRestoreTarget, l.restore.target);
    TextIs(o, N.PostgresVolume, l.volume);
    TextIs(o, N.Database, l.database);
    DigestIs(o, N.BackupSha256, l.backup.sha256);
  }

  lemma RestoredUseMembers(digest: string, source: Doc, o: Object)
    ensures Within(map[N.ProductionData := TRUE, N.ImageDigest := Str(digest), N.Source := source], o) <==>
      Has(o, N.ProductionData, TRUE) && Has(o, N.ImageDigest, Str(digest)) && Under(o, N.Source, source)
  {
    MembersUnder(map[N.ProductionData := TRUE, N.ImageDigest := Str(digest), N.Source := source], o);
    LeafUnder(o, N.ProductionData, TRUE);
    LeafUnder(o, N.ImageDigest, Str(digest));
  }

  predicate RestoredUse(o: Object, digest: string, l: Logical) {
    && IsTrue(o, N.ProductionData) && DigestAt(o, N.ImageDigest) == Some(digest)
    && ObjectAt(o, N.Source).Some? && RestoredFrom(Child(o, N.Source), l)
  }

  lemma RestoredUseExact(o: Object, digest: string, logical: Object, l: Logical)
    requires IsDigest(digest) && Describes(logical, l)
    ensures RestoredUse(o, digest, l) <==> Within(RenderRestoredUse(digest, l), o)
  {
    RestoredUseMembers(digest, Obj(RenderRestoredSource(l)), o);
    ChildUnder(o, N.Source, RenderRestoredSource(l));
    RestoredSourceExact(Child(o, N.Source), logical, l);
    DigestIs(o, N.ImageDigest, digest);
  }

  lemma RestoredParts(o: Object, digest: string, logical: Object, l: Logical)
    requires Describes(logical, l)
    ensures RestoredPart(o, digest, logical) <==> Observation(o, 30.0) && Proofs(o) && RestoredUse(o, digest, l)
  {
  }

  lemma RestoredUseNames(digest: string, source: Doc)
    ensures forall n :: n in map[N.ProductionData := TRUE, N.ImageDigest := Str(digest), N.Source := source] ==>
      !Measured(n) && !Proof(n)
  {
  }

  lemma RestoredWithin(r: Readings, digest: string, l: Logical, o: Object)
    ensures Within(RenderRestored(r, digest, l), o) <==>
      Within(RenderReadings(r), o) && Within(PROOFS, o) && Within(RenderRestoredUse(digest, l), o)
  {
    RestoredUseNames(digest, Obj(RenderRestoredSource(l)));
    ProvenDeploymentWithin(r, RenderRestoredUse(digest, l), o);
  }

  lemma RestoredExact(o: Object, r: Readings, digest: string, logical: Object, l: Logical)
    requires IsDigest(digest) && Describes(logical, l)
    ensures RestoredPart(o, digest, logical) && ReadReadings(o) == r <==>
      ReadingsHold(r, 30.0) && Within(RenderRestored(r, digest, l), o)
  {
    RestoredParts(o, digest, logical, l);
    RestoredWithin(r, digest, l, o);
    ObservationExact(o, r, 30.0);
    ProofsExact(o);
    RestoredUseExact(o, digest, logical, l);
  }

  // ---- migration and rollback ----

  lemma MigrationExact(o: Object, version: string, cutover: bool)
    ensures TextAt(o, N.Version).Some? && Text(o, N.Version) == version && Has(o, N.CiphertextOnlyCutover, Bool(cutover)) <==>
      IsText(version) && Within(map[N.Version := Str(version), N.CiphertextOnlyCutover := Bool(cutover)], o)
  {
    FlatWithin(map[N.Version := Str(version), N.CiphertextOnlyCutover := Bool(cutover)], o);
    TextReads(o, N.Version, version);
  }

  ghost predicate RolledBack(o: Object, c: Cutover) {
    && TextAt(o, N.Mode) == Some(if c.Done? then "snapshot-and-keyroots" else "compatible-image-or-snapshot")
    && (c.Done? ==>
          && TextAt(o, N.SnapshotId) == Some(c.snapshotId) && DigestAt(o, N.PreviousImageDigest) == Some(c.digest)
          && Under(o, N.PreviousKeyIds, Arr(c.keys)) && c.keys != [])
  }

  lemma PendingExact(o: Object)
    ensures RolledBack(o, Pending) <==> Within(RenderRollback(Pending), o)
  {
    FlatWithin(RenderRollback(Pending), o);
    TextByFirst("compatible-image-or-snapshot");
    TextIs(o, N.Mode, "compatible-image-or-snapshot");
  }

  lemma DoneMembers(mode: string, id: string, digest: string, keys: Doc, o: Object)
    ensures Within(
        map[N.Mode := Str(mode), N.SnapshotId := Str(id), N.PreviousImageDigest := Str(digest), N.PreviousKeyIds := keys], o)
      <==>
      && Has(o, N.Mode, Str(mode)) && Has(o, N.SnapshotId, Str(id)) && Has(o, N.PreviousImageDigest, Str(digest))
      && Under(o, N.PreviousKeyIds, keys)
  {
    MembersUnder(
      map[N.Mode := Str(mode), N.SnapshotId := Str(id), N.PreviousImageDigest := Str(digest), N.PreviousKeyIds := keys], o);
    LeafUnder(o, N.Mode, Str(mode));
    LeafUnder(o, N.SnapshotId, Str(id));
    LeafUnder(o, N.PreviousImageDigest, Str(digest));
  }

  lemma DoneExact(o: Object, c: Cutover)
    requires c.Done?
    ensures RolledBack(o, c) <==> CutoverHolds(c) && Within(RenderRollback(c), o)
  {
    var mode := "snapshot-and-keyroots";
    DoneMembers(mode, c.snapshotId, c.digest, Arr(c.keys), o);
    TextByFirst(mode);
    TextIs(o, N.Mode, mode);
    if IsText(c.snapshotId) {
      TextIs(o, N.SnapshotId, c.snapshotId);
    }
    if IsDigest(c.digest) {
      DigestIs(o, N.PreviousImageDigest, c.digest);
    }
  }

  lemma RollbackParts(migration: Object, rollback: Object)
    ensures RollbackPart(migration, rollback) <==>
      var c := ReadCutover(migration, rollback);
      && TextAt(migration, N.Version).Some? && Has(migration, N.CiphertextOnlyCutover, Bool(c.Done?)) && RolledBack(rollback, c)
  {
    ExtendsItself(Arr(Items(rollback, N.PreviousKeyIds)));
  }

  /** Evidence read from an accepted pair of objects. */
  lemma RollbackHolds(migration: Object, rollback: Object)
    requires RollbackPart(migration, rollback)
    ensures var c := ReadCutover(migration, rollback);
      && IsText(Text(migration, N.Version)) && CutoverHolds(c)
      && Within(RenderMigration(Text(migration, N.Version), c), migration) && Within(RenderRollback(c), rollback)
  {
    var c := ReadCutover(migration, rollback);
    RollbackParts(migration, rollback);
    MigrationExact(migration, Text(migration, N.Version), c.Done?);
    if c.Done? {
      DoneExact(rollback, c);
    } else {
      PendingExact(rollback);
    }
  }

  /** The same cutover, up to members added inside the previous key ids. */
  ghost predicate SameCutover(c: Cutover, c': Cutover) {
    match c
    case Pending => c'.Pending?
    case Done(id, digest, keys) => c'.Done? && c'.snapshotId == id && c'.digest == digest && Extends(Arr(c'.keys), Arr(keys))
  }

  lemma RollbackShown(migration: Object, rollback: Object, version: string, c: Cutover)
    requires IsText(version) && CutoverHolds(c)
    requires Within(RenderMigration(version, c), migration) && Within(RenderRollback(c), rollback)
    ensures RollbackPart(migration, rollback) && Text(migration, N.Version) == version
    ensures SameCutover(ReadCutover(migration, rollback), c)
  {
    MigrationExact(migration, version, c.Done?);
    if c.Done? {
      DoneExact(rollback, c);
    } else {
      PendingExact(rollback);
    }
  }

  // ---- the members of the root ----

  lemma HeaderExact(env: Env, o: Object, schema: Doc, id: string, at: string)
    ensures Header(env, o) && Has(o, N.SchemaVersion, schema) && Text(o, N.RolloutId) == id && Text(o, N.GeneratedAt) == at <==>
      EqualsOne(schema) && IsText(id) && IsTime(env, at) && Within(RenderHeader(schema, id, at), o)
  {
    if EqualsOne(schema) {
      FlatWithin(RenderHeader(schema, id, at), o);
    }
    TextReads(o, N.RolloutId, id);
    TextReads(o, N.GeneratedAt, at);
  }

  lemma BuildMembers(source: Doc, artifact: Doc, recovery: Doc, security: Doc, monitoring: Doc, o: Object)
    ensures Within(
        map[N.Source := source, N.Artifact := artifact, N.Recovery := recovery,
            N.Security := security, N.Monitoring := monitoring], o) <==>
      && Under(o, N.Source, source) && Under(o, N.Artifact, artifact) && Under(o, N.Recovery, recovery)
      && Under(o, N.Security, security) && Under(o, N.Monitoring, monitoring)
  {
    MembersUnder(
      map[N.Source := source, N.Artifact := artifact, N.Recovery := recovery,
          N.Security := security, N.Monitoring := monitoring], o);
  }

  lemma CanaryMembers(restored: Doc, synthetic: Doc, o: Object)
    ensures Within(map[N.RestoredData := restored, N.SyntheticProvider := synthetic], o) <==>
      Under(o, N.RestoredData, restored) && Under(o, N.SyntheticProvider, synthetic)
  {
    MembersUnder(map[N.RestoredData := restored, N.SyntheticProvider := synthetic], o);
  }

  lemma DeployMembers(canaries: Doc, production: Doc, migration: Doc, rollback: Doc, o: Object)
    ensures Within(
        map[N.Canaries := canaries, N.Production := production, N.Migration := migration, N.Rollback := rollback], o) <==>
      && Under(o, N.Canaries, canaries) && Under(o, N.Production, production)
      && Under(o, N.Migration, migration) && Under(o, N.Rollback, rollback)
  {
    MembersUnder(
      map[N.Canaries := canaries, N.Production := production, N.Migration := migration, N.Rollback := rollback], o);
  }
}
