/** Evidence, manifests, profiles and decisions: the records that are hashed. */
module EvidenceRecords {
  import opened Wrappers

  /** A text that is only ever compared: a uuid, a digest computed elsewhere, a JSON body. */
  type Id = nat

  datatype EvidenceStatus = PASS | FAIL | ERROR | SKIPPED
  datatype TrustClass = DeeprunExecuted | ImportedVerified | ImportedUnverified

  /** The names the built-in profile and its adapter use; any other name is an Id. */
  datatype ValidatorId =
    | Structure | Dependencies | Prisma | Typecheck | Build | Tests | RuntimeHealth
    | OtherValidator(name: Id)

  datatype CheckId =
    | ArchitectureCheck | ProductionConfigCheck | InstallCheck | MigrationCheck | SeedCheck
    | TypecheckCheck | BuildCheck | TestsCheck | BootCheck
    | OtherCheck(name: Id)

  datatype ReasonCode =
    | RequiredEvidenceFailed
    | RequiredEvidenceSkipped
    | PrerequisiteFailed(prerequisite: ValidatorId)
    | PrerequisiteCheckNotProduced
    | CheckFailed(checkId: CheckId)
    | CheckSkipped(checkId: CheckId)
    | OtherReason(text: Id)

  datatype EvidenceCore = EvidenceCore(
    subjectDigest: Id,
    validatorId: ValidatorId,
    validatorVersion: Id,
    profileDigest: Digest,
    executionContractHash: Id,
    trustClass: TrustClass,
    status: EvidenceStatus,
    reasonCodes: seq<ReasonCode>)

  datatype ManifestEntry = ManifestEntry(validatorId: ValidatorId, validatorVersion: Id, coreHash: Digest)

  datatype ManifestCore = ManifestCore(
    subjectDigest: Id,
    profileDigest: Digest,
    executionContractHash: Id,
    entries: seq<ManifestEntry>)

  /** A manifest row with the JSON body it holds. */
  datatype Manifest = Manifest(
    assessmentId: Id,
    attemptId: Id,
    core: ManifestCore,
    bodyHash: Digest,
    rowHash: Digest)

  datatype SnapshotKey = SnapshotKey(id: Id, version: Id)
  datatype ValidatorRef = ValidatorRef(id: ValidatorId, version: Id)
  datatype Profile = Profile(id: Id, version: Id, validatorSet: seq<ValidatorRef>)

  datatype Authority = Authority(
    organizationId: Id,
    subjectDigest: Id,
    profileKey: SnapshotKey,
    profileDigest: Digest,
    policyKey: SnapshotKey,
    policyDigest: Digest,
    executionContractHash: Id,
    assessmentInputHash: Digest)

  datatype Verdict = Passed | Failed

  datatype DecisionCore = DecisionCore(
    subjectDigest: Id,
    profileKey: SnapshotKey,
    profileDigest: Digest,
    policyKey: SnapshotKey,
    policyDigest: Digest,
    executionContractHash: Id,
    evidenceManifestHash: Digest,
    controlPlaneIdentityHash: Digest,
    decision: Verdict,
    reasonCodes: set<ReasonCode>)

  /** SHA-256 of a canonical text, one constructor for each kind of hashed value. A profile is
      hashed with its validators sorted, so only which validators it names matters. */
  datatype Digest =
    | CoreDigest(core: EvidenceCore)
    | ManifestDigest(manifest: ManifestCore)
    | ProfileDigest(id: Id, version: Id, validators: multiset<ValidatorRef>)
    | PolicyDigest(policy: Id)
    | ContractDigest(contractJson: Id)
    | InputDigest(subjectDigest: Id, profileDigest: Digest, policyDigest: Digest, executionContractHash: Id)
    | DecisionDigest(decision: DecisionCore)

  function DigestOfProfile(p: Profile): Digest {
    ProfileDigest(p.id, p.version, multiset(p.validatorSet))
  }
}
