/** The fixed texts of an accepted manifest, spelled out: a document in which one of them is different is
    rejected. */
module RolloutLiterals {
  import opened Options
  import opened Rollout
  import opened RolloutEvidence
  import opened RolloutParts
  import opened RolloutTheorems
  import N = ManifestNames

  ghost predicate Hexadecimal(s: string) {
    forall i :: 0 <= i < |s| ==> s[i] in "0123456789abcdef"
  }

  ghost predicate Sha256(s: string) {
    |s| == 71 && s[..7] == "sha256:" && Hexadecimal(s[7..])
  }

  /** The member is a sha256 digest. */
  ghost predicate DigestHeld(o: Object, n: N.Name) {
    exists s :: Has(o, n, Str(s)) && Sha256(s)
  }

  lemma DigestIsHeld(o: Object, n: N.Name)
    requires DigestAt(o, n).Some?
    ensures DigestHeld(o, n)
  {
    var s := DigestAt(o, n).value;
    assert IsSha(s);
    assert forall i :: 0 <= i < |s[7..]| ==> s[7..][i] in s[7..];
    assert Has(o, n, Str(s));
  }

  lemma CommitIsLiteral(s: string)
    requires IsCommit(s)
    ensures |s| == 40 && Hexadecimal(s)
  {
    assert IsRevision(s);
    assert forall i :: 0 <= i < |s| ==> s[i] in s;
  }

  /** Where the release comes from. */
  ghost predicate SourceLiterals(source: Object, labels: Object) {
    && Has(source, N.Repository, Str("immortal-autumn/ExAPI"))
    && Has(source, N.Workflow, Str(".github/workflows/release.yml"))
    && Has(labels, N.Source, Str("https://github.com/immortal-autumn/ExAPI"))
    && exists commit ::
         && |commit| == 40 && Hexadecimal(commit)
         && Has(source, N.Commit, Str(commit)) && Has(labels, N.Revision, Str(commit))
  }

  lemma SourceIsLiteral(source: Object, labels: Object)
    requires SourcePart(source) && Labels(labels, Text(source, N.Commit))
    ensures SourceLiterals(source, labels)
  {
    var commit := Text(source, N.Commit);
    CommitIsLiteral(commit);
    assert Has(source, N.Commit, Str(commit)) && Has(labels, N.Revision, Str(commit));
    LabelSource();
  }

  /** What was built: one image of the canonical repository, attested by the canonical issuer. */
  ghost predicate ArtifactLiterals(artifact: Object, provenance: Object, digest: string) {
    && Sha256(digest)
    && Has(artifact, N.Image, Str("ghcr.io/immortal-autumn/sub2api2personal@" + digest))
    && Has(artifact, N.ManifestDigest, Str(digest)) && Has(provenance, N.SubjectDigest, Str(digest))
    && Has(provenance, N.Issuer, Str("https://token.actions.githubusercontent.com"))
    && Has(provenance, N.Repository, Str("immortal-autumn/ExAPI"))
    && Has(provenance, N.Workflow, Str(".github/workflows/release.yml"))
    && Has(provenance, N.Verified, Bool(true))
    && Has(Child(artifact, N.Sbom), N.Format, Str("SPDX-JSON")) && DigestHeld(Child(artifact, N.Sbom), N.Sha256)
  }

  lemma ArtifactIsLiteral(artifact: Object, commit: string, digest: string)
    requires ArtifactPart(artifact, commit) && DigestAt(artifact, N.ManifestDigest) == Some(digest)
    ensures ArtifactLiterals(artifact, Child(artifact, N.Provenance), digest)
  {
    DigestIsHeld(artifact, N.ManifestDigest);
    DigestIsHeld(Child(artifact, N.Sbom), N.Sha256);
    ImagePrefix();
  }

  /** Every platform of the image has a digest. */
  ghost predicate PlatformLiterals(artifact: Object) {
    forall d :: d in Items(artifact, N.PlatformDigests) ==> d.Obj? && DigestHeld(d.fields, N.Digest)
  }

  lemma PlatformsAreLiteral(artifact: Object)
    requires Platforms(artifact)
    ensures PlatformLiterals(artifact) && Items(artifact, N.PlatformDigests) != []
  {
    forall d | d in Items(artifact, N.PlatformDigests) ensures d.Obj? && DigestHeld(d.fields, N.Digest) {
      assert PlatformDigest(d);
      DigestIsHeld(d.fields, N.Digest);
    }
  }

  /** What was stored and restored. */
  ghost predicate RecoveryLiterals(recovery: Object) {
    var logical, secrets := Child(recovery, N.Logical), Child(recovery, N.Secrets);
    && DigestHeld(Child(logical, N.Backup), N.Sha256) && DigestHeld(logical, N.BackupSha256) && DigestHeld(secrets, N.Sha256)
    && Has(logical, N.NetworkMode, Str("none"))
  }

  lemma RecoveryIsLiteral(env: Env, recovery: Object)
    requires RecoveryPart(env, recovery)
    ensures RecoveryLiterals(recovery)
  {
    var logical, secrets := Child(recovery, N.Logical), Child(recovery, N.Secrets);
    DigestIsHeld(Child(logical, N.Backup), N.Sha256);
    DigestIsHeld(logical, N.BackupSha256);
    DigestIsHeld(secrets, N.Sha256);
  }

  /** How to go back: after a cutover only with the snapshot, an earlier image and its key roots. */
  ghost predicate RollbackLiterals(migration: Object, rollback: Object) {
    if Has(migration, N.CiphertextOnlyCutover, Bool(true)) then
      Has(rollback, N.Mode, Str("snapshot-and-keyroots")) && DigestHeld(rollback, N.PreviousImageDigest)
    else
      Has(migration, N.CiphertextOnlyCutover, Bool(false)) && Has(rollback, N.Mode, Str("compatible-image-or-snapshot"))
  }

  lemma RollbackIsLiteral(migration: Object, rollback: Object)
    requires RollbackPart(migration, rollback)
    ensures RollbackLiterals(migration, rollback)
  {
    if Has(migration, N.CiphertextOnlyCutover, Bool(true)) {
      DigestIsHeld(rollback, N.PreviousImageDigest);
    }
  }

  /** The three deployments name this digest. */
  ghost predicate DeployedLiterals(root: Object, digest: string) {
    var canaries := Child(root, N.Canaries);
    && Has(Child(canaries, N.RestoredData), N.ImageDigest, Str(digest))
    && Has(Child(canaries, N.SyntheticProvider), N.ImageDigest, Str(digest))
    && Has(Child(root, N.Production), N.ImageDigest, Str(digest))
  }

  lemma DeployedIsLiteral(root: Object, digest: string)
    requires NamesRelease(root, digest)
    ensures DeployedLiterals(root, digest)
  {
  }

  ghost predicate BuildLiterals(root: Object, digest: string) {
    var artifact := Child(root, N.Artifact);
    && SourceLiterals(Child(root, N.Source), Child(artifact, N.OciLabels))
    && ArtifactLiterals(artifact, Child(artifact, N.Provenance), digest)
    && PlatformLiterals(artifact) && Items(artifact, N.PlatformDigests) != []
    && RecoveryLiterals(Child(root, N.Recovery))
  }

  /** All of them, for the one digest of the release. */
  ghost predicate Literals(root: Object, digest: string) {
    BuildLiterals(root, digest) && DeployedLiterals(root, digest)
    && RollbackLiterals(Child(root, N.Migration), Child(root, N.Rollback))
  }

  lemma AcceptedLiterals(env: Env, root: Object)
    ensures Validate(env, Obj(root)) ==> exists digest :: Literals(root, digest)
  {
    if Validate(env, Obj(root)) {
      var e := ReadRoot(root);
      AcceptedBuild(env, root);
      ValidateParts(env, root, e);
      PartsAreLiteral(env, root, e);
    }
  }

  lemma PartsAreLiteral(env: Env, root: Object, e: Evidence)
    requires BuildPart(env, root, e) && RestPart(env, root, e.release.digest)
    ensures Literals(root, e.release.digest)
  {
    BuildIsLiteral(env, root, e);
    ReleaseIsShared(env, root, e);
    DeployedIsLiteral(root, e.release.digest);
    RollbackIsLiteral(Child(root, N.Migration), Child(root, N.Rollback));
  }

  lemma BuildIsLiteral(env: Env, root: Object, e: Evidence)
    requires BuildPart(env, root, e)
    ensures BuildLiterals(root, e.release.digest)
  {
    var artifact := Child(root, N.Artifact);
    BuildLinks(env, root, e);
    SourceIsLiteral(Child(root, N.Source), Child(artifact, N.OciLabels));
    ArtifactIsLiteral(artifact, e.release.commit, e.release.digest);
    PlatformsAreLiteral(artifact);
    RecoveryIsLiteral(env, Child(root, N.Recovery));
  }
}
